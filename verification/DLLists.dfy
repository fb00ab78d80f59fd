/** The doubly linked list on the heap. */
module DLLists {
  import opened Common
  import opened KeyedLists

  class DLLElement<T> {
    var next: DLLElement?<T>
    var prev: DLLElement?<T>
    var key: int
    var item: T

    constructor (itemPtr: T, sortKey: int)
      ensures item == itemPtr && key == sortKey && next == null && prev == null
    {
      item, key, next, prev := itemPtr, sortKey, null, null;
    }
  }

  // Crash: a null pointer is dereferenced.
  datatype Removal<T> = Removed(item: T) | Absent | Crash

  function After<T>(nodes: seq<DLLElement<T>>, i: int): DLLElement?<T> {
    if 0 <= i + 1 < |nodes| then nodes[i + 1] else null
  }

  function Before<T>(nodes: seq<DLLElement<T>>, i: int): DLLElement?<T> {
    if 0 < i <= |nodes| then nodes[i - 1] else null
  }

  ghost predicate AllDifferent<T>(nodes: seq<DLLElement<T>>) {
    forall i, j | 0 <= i < j < |nodes| :: nodes[i] != nodes[j]
  }

  // s with x put in at position p.
  function Splice<T>(s: seq<T>, p: nat, x: T): (t: seq<T>)
    requires p <= |s|
  {
    seq(|s| + 1, i requires 0 <= i <= |s| => if i < p then s[i] else if i == p then x else s[i - 1])
  }

  lemma SpliceKeepsDifferent<T>(s: seq<DLLElement<T>>, p: nat, x: DLLElement<T>)
    requires p <= |s| && AllDifferent(s) && x !in s
    ensures AllDifferent(Splice(s, p, x))
  {
  }

  // s with what is at position p taken out.
  function Cut<T>(s: seq<T>, p: nat): (t: seq<T>)
    requires p < |s|
  {
    seq(|s| - 1, i requires 0 <= i < |s| - 1 => if i < p then s[i] else s[i + 1])
  }

  lemma CutKeepsDifferent<T>(s: seq<DLLElement<T>>, p: nat)
    requires p < |s| && AllDifferent(s)
    ensures AllDifferent(Cut(s, p)) && forall x | x in Cut(s, p) :: x in s && x != s[p]
  {
  }

  class DLList<T> {
    var first: DLLElement?<T>
    var last: DLLElement?<T>
    ghost var nodes: seq<DLLElement<T>>

    // nodes are the elements from first to last; the backward chain mirrors the forward chain.
    ghost predicate Valid()
      reads this, nodes
    {
      && first == (if nodes == [] then null else nodes[0])
      && last == (if nodes == [] then null else nodes[|nodes| - 1])
      && AllDifferent(nodes)
      && (forall i {:trigger nodes[i].next} | 0 <= i < |nodes| :: nodes[i].next == After(nodes, i))
      && (forall i {:trigger nodes[i].prev} | 0 <= i < |nodes| :: nodes[i].prev == Before(nodes, i))
    }

    ghost function Contents(): (s: seq<Entry<T>>)
      reads this, nodes
      ensures |s| == |nodes|
    {
      seq(|nodes|, i requires 0 <= i < |nodes| reads this, nodes => (nodes[i].key, nodes[i].item))
    }

    constructor ()
      ensures Valid() && nodes == [] && Contents() == []
    {
      first, last, nodes := null, null, [];
    }

    method IsEmpty() returns (empty: bool)
      requires Valid()
      ensures empty <==> Contents() == []
    {
      empty := first == null && last == null;
    }

    // Make a new element the first one.
    method LinkFirst(element: DLLElement<T>)
      requires Valid() && element !in nodes && element.next == null && element.prev == null
      modifies `first, `last, `nodes, nodes`prev, element`next, element`prev
      ensures Valid() && nodes == Splice(old(nodes), 0, element)
    {
      if first == null && last == null {
        first := element;
        last := element;
      } else {
        element.next := first;
        element.prev := null;
        first.prev := element;
        first := element;
      }
      nodes := Splice(nodes, 0, element);
      forall i | 0 <= i < |nodes| ensures nodes[i].next == After(nodes, i) && nodes[i].prev == Before(nodes, i) {
        if i > 0 {
          assert nodes[i] == old(nodes)[i - 1];
        }
      }
    }

    // Make a new element the last one.
    method LinkLast(element: DLLElement<T>)
      requires Valid() && element !in nodes && element.next == null && element.prev == null
      modifies `first, `last, `nodes, nodes`next, element`next, element`prev
      ensures Valid() && nodes == Splice(old(nodes), |old(nodes)|, element)
    {
      if first == null && last == null {
        first := element;
        last := element;
      } else {
        element.next := null;
        element.prev := last;
        last.next := element;
        last := element;
      }
      nodes := Splice(nodes, |nodes|, element);
      forall i | 0 <= i < |nodes| ensures nodes[i].next == After(nodes, i) && nodes[i].prev == Before(nodes, i) {
        if i < |old(nodes)| {
          assert nodes[i] == old(nodes)[i];
        }
      }
    }

    // Put a new element in front of one that is not the first.
    method LinkBefore(element: DLLElement<T>, ptr: DLLElement<T>, ghost p: nat)
      requires Valid() && element !in nodes && 0 < p < |nodes| && ptr == nodes[p]
      modifies `nodes, nodes`next, nodes`prev, element`next, element`prev
      ensures Valid() && nodes == Splice(old(nodes), p, element)
    {
      assert ptr.prev == nodes[p - 1];
      ptr.prev.next := element;
      element.prev := ptr.prev;
      element.next := ptr;
      ptr.prev := element;
      ghost var was := nodes;
      SpliceKeepsDifferent(was, p, element);
      nodes := Splice(was, p, element);
      forall i | 0 <= i < |nodes| ensures nodes[i].next == After(nodes, i) && nodes[i].prev == Before(nodes, i) {
        if i < p {
          assert nodes[i] == was[i] && was[i] != element && was[i] != was[p];
          assert i != p - 1 ==> was[i] != was[p - 1];
        } else if i > p {
          assert nodes[i] == was[i - 1] && was[i - 1] != element && was[i - 1] != was[p - 1];
          assert i != p + 1 ==> was[i - 1] != was[p];
        }
      }
    }

    method Prepend(item: T)
      requires Valid()
      modifies this, nodes
      ensures Valid() && (forall n | n in nodes :: n in old(nodes) || fresh(n))
      ensures Contents() == [(if old(nodes) == [] then 0 else old(Contents())[0].0 - 1, item)] + old(Contents())
    {
      var element := new DLLElement(item, 0);
      if first != null {
        element.key := first.key - 1;
      }
      LinkFirst(element);
    }

    method Append(item: T)
      requires Valid()
      modifies this, nodes
      ensures Valid() && (forall n | n in nodes :: n in old(nodes) || fresh(n))
      ensures Contents() ==
              old(Contents()) + [(if old(nodes) == [] then 0 else old(Contents())[|old(nodes)| - 1].0 + 1, item)]
    {
      var element := new DLLElement(item, 0);
      if last != null {
        element.key := last.key + 1;
      }
      LinkLast(element);
    }

    method Remove() returns (removed: Option<Entry<T>>)
      requires Valid()
      modifies this, nodes
      ensures Valid() && (forall n | n in nodes :: n in old(nodes))
      ensures if old(Contents()) == [] then removed == None && Contents() == []
              else removed == Some(old(Contents())[0]) && Contents() == old(Contents())[1..]
    {
      if first == null && last == null {
        return None;
      }
      removed := Some((first.key, first.item));
      assert |nodes| > 1 ==> nodes[0] != nodes[|nodes| - 1] && nodes[0].next == nodes[1];
      if first == last {
        first := null;
        last := null;
      } else {
        first := first.next;
        first.prev := null;
      }
      nodes := nodes[1..];
      forall i | 0 <= i < |nodes| ensures nodes[i].next == After(nodes, i) {
        assert nodes[i] == old(nodes)[i + 1];
      }
    }

    // The first element with a larger key, or null.
    method FindPlace(sortKey: int) returns (ptr: DLLElement?<T>)
      requires Valid()
      ensures var p := Place(Contents(), sortKey);
              ptr == if p < |nodes| then nodes[p] else null
    {
      ptr := first;
      ghost var i := 0;
      while ptr != null
        invariant i <= |nodes|
        invariant ptr == if i < |nodes| then nodes[i] else null
        invariant i <= Place(Contents(), sortKey)
        decreases |nodes| - i
      {
        assert Contents()[i].0 == nodes[i].key;
        if ptr.key > sortKey { break; }
        ptr := ptr.next;
        i := i + 1;
      }
    }

    // Put a new element in front of ptr, or at the end if ptr is null.
    method Link(element: DLLElement<T>, ptr: DLLElement?<T>, ghost p: nat)
      requires Valid() && element !in nodes && element.next == null && element.prev == null
      requires p <= |nodes| && ptr == After(nodes, p - 1)
      modifies `first, `last, `nodes, nodes`next, nodes`prev, element`next, element`prev
      ensures Valid() && nodes == Splice(old(nodes), p, element)
    {
      if ptr == null {
        LinkLast(element);
      } else if ptr == first {
        assert p == 0;
        LinkFirst(element);
      } else {
        LinkBefore(element, ptr, p);
      }
    }

    method SortedInsert(item: T, sortKey: int)
      requires Valid()
      modifies this, nodes
      ensures Valid() && (forall n | n in nodes :: n in old(nodes) || fresh(n))
      ensures Contents() == Insert(old(Contents()), sortKey, item)
    {
      ghost var was, p := Contents(), Place(Contents(), sortKey);
      var ptr := FindPlace(sortKey);
      var element := new DLLElement(item, sortKey);
      Link(element, ptr, p);
      InsertAt(was, sortKey, item);
      ghost var t := Insert(was, sortKey, item);
      forall i | 0 <= i < |nodes| ensures Contents()[i] == t[i] {
        if i < p {
          assert nodes[i] == old(nodes)[i] && t[i] == was[i];
        } else if i > p {
          assert nodes[i] == old(nodes)[i - 1] && t[i] == was[i - 1];
        }
      }
    }

    // The first element with this key, or null.
    method FindKey(sortKey: int) returns (ptr: DLLElement?<T>)
      requires Valid()
      ensures var p := Find(Contents(), sortKey);
              ptr == if p < |nodes| then nodes[p] else null
    {
      ptr := first;
      ghost var i := 0;
      while ptr != null
        invariant i <= |nodes|
        invariant ptr == if i < |nodes| then nodes[i] else null
        invariant i <= Find(Contents(), sortKey)
        decreases |nodes| - i
      {
        assert Contents()[i].0 == nodes[i].key;
        if ptr.key == sortKey { break; }
        ptr := ptr.next;
        i := i + 1;
      }
    }

    // Removal by key crashes exactly when the list holds one element and that element has the key.
    method SortedRemove(sortKey: int) returns (r: Removal<T>)
      requires Valid()
      modifies this, nodes
      ensures r.Crash? <==> |old(Contents())| == 1 && old(Contents())[0].0 == sortKey
      ensures r.Absent? <==> Find(old(Contents()), sortKey) == |old(Contents())|
      ensures r.Absent? ==> Valid() && Contents() == old(Contents())
      ensures r.Removed? ==>
                && Valid() && (forall n | n in nodes :: n in old(nodes))
                && var p := Find(old(Contents()), sortKey);
                   r.item == old(Contents())[p].1 && Contents() == Without(old(Contents()), p)
      ensures r.Removed? ==>
                && |Contents()| + 1 == |old(Contents())|
                && var p := Find(old(Contents()), sortKey);
                   && old(Contents())[p] == (sortKey, r.item)
                   && (forall i | 0 <= i < p :: old(Contents())[i].0 != sortKey && Contents()[i] == old(Contents())[i])
                   && forall i | p <= i < |Contents()| :: Contents()[i] == old(Contents())[i + 1]
    {
      ghost var was, p := nodes, Find(Contents(), sortKey);
      var ptr := FindKey(sortKey);
      if ptr == null {
        return Absent;
      }
      var item := ptr.item;
      if ptr == first {
        assert p == 0;
        var crash := UnlinkFirst();
        if crash {
          return Crash;
        }
      } else {
        Unlink(ptr, p);
      }
      assert nodes == Cut(was, p);
      return Removed(item);
    }

    // Take out the first element; with no other, first->prev is used with first NULL.
    method UnlinkFirst() returns (crash: bool)
      requires Valid() && nodes != []
      modifies `first, `nodes, nodes`prev
      ensures crash <==> |old(nodes)| == 1
      ensures !crash ==> Valid() && nodes == Cut(old(nodes), 0)
    {
      ghost var was := nodes;
      first := first.next;
      if first == null {
        return true;
      }
      first.prev := null;
      CutKeepsDifferent(was, 0);
      nodes := Cut(was, 0);
      forall i | 0 <= i < |nodes| ensures nodes[i].next == After(nodes, i) && nodes[i].prev == Before(nodes, i) {
        assert nodes[i] == was[i + 1];
      }
      return false;
    }

    // Take out an element that is not the first.
    method Unlink(ptr: DLLElement<T>, ghost p: nat)
      requires Valid() && 0 < p < |nodes| && ptr == nodes[p]
      modifies `last, `nodes, nodes`next, nodes`prev
      ensures Valid() && nodes == Cut(old(nodes), p)
    {
      if ptr == last {
        assert p == |nodes| - 1;
        UnlinkLast();
      } else {
        UnlinkInner(ptr, p);
      }
    }

    method UnlinkLast()
      requires Valid() && |nodes| > 1
      modifies `last, `nodes, nodes`next
      ensures Valid() && nodes == Cut(old(nodes), |old(nodes)| - 1)
    {
      assert last.prev == nodes[|nodes| - 2];
      last := last.prev;
      last.next := null;
      nodes := Cut(nodes, |nodes| - 1);
      forall i | 0 <= i < |nodes| ensures nodes[i].next == After(nodes, i) && nodes[i].prev == Before(nodes, i) {
        assert nodes[i] == old(nodes)[i];
      }
    }

    method UnlinkInner(ptr: DLLElement<T>, ghost p: nat)
      requires Valid() && 0 < p < |nodes| - 1 && ptr == nodes[p]
      modifies `nodes, nodes`next, nodes`prev
      ensures Valid() && nodes == Cut(old(nodes), p)
    {
      assert ptr.prev == nodes[p - 1] && ptr.next == nodes[p + 1];
      ptr.prev.next := ptr.next;
      ptr.next.prev := ptr.prev;
      ghost var was := nodes;
      CutKeepsDifferent(was, p);
      nodes := Cut(was, p);
      forall i | 0 <= i < |nodes| ensures nodes[i].next == After(nodes, i) && nodes[i].prev == Before(nodes, i) {
        if i < p {
          assert nodes[i] == was[i];
        } else {
          assert nodes[i] == was[i + 1];
        }
      }
    }
  }

  // RandomGenerateList, for any keys and items.
  method GenerateList<T>(list: DLList<T>, entries: seq<Entry<T>>)
    requires list.Valid() && list.Contents() == []
    modifies list, list.nodes
    ensures list.Valid() && list.Contents() == InsertAll(entries)
    ensures forall n | n in list.nodes :: fresh(n)
  {
    var i := 0;
    while i < |entries|
      invariant i <= |entries| && list.Valid()
      invariant forall n | n in list.nodes :: fresh(n)
      invariant list.Contents() == InsertAll(entries[..i])
    {
      assert forall k | 0 <= k < |list.nodes| :: list.nodes[k] in list.nodes;
      list.SortedInsert(entries[i].1, entries[i].0);
      assert entries[..i + 1][..i] == entries[..i];
      i := i + 1;
    }
    assert entries[..i] == entries;
  }

  // RemoveFromHead: at most n removals, ending when the list is empty.
  method RemoveFromHead<T>(list: DLList<T>, n: nat) returns (removed: seq<Entry<T>>)
    requires list.Valid()
    modifies list, list.nodes
    ensures list.Valid()
    ensures removed + list.Contents() == old(list.Contents())
    ensures |removed| == if n <= |old(list.Contents())| then n else |old(list.Contents())|
  {
    removed := [];
    var i := 0;
    while i < n
      invariant i <= n && i == |removed| && list.Valid()
      invariant forall e | e in list.nodes :: e in old(list.nodes)
      invariant removed + list.Contents() == old(list.Contents())
    {
      assert forall k | 0 <= k < |list.nodes| :: list.nodes[k] in list.nodes;
      ghost var was := list.Contents();
      var entry := list.Remove();
      if entry == None { break; }
      assert was == [entry.value] + list.Contents();
      assert removed + was == (removed + [entry.value]) + list.Contents();
      removed := removed + [entry.value];
      i := i + 1;
    }
  }

  // Draining a list after any insertions yields their stable sort.
  method SortThrough<T>(entries: seq<Entry<T>>) returns (drained: seq<Entry<T>>)
    ensures Sorted(drained) && SameByKey(drained, entries)
  {
    var list := new DLList<T>();
    GenerateList(list, entries);
    InsertAllIsTheStableSort(entries, InsertAll(entries));
    InsertAllSorts(entries, 0);
    assert forall k | 0 <= k < |list.nodes| :: list.nodes[k] in list.nodes;
    drained := RemoveFromHead(list, |entries|);
    assert drained == drained + list.Contents();
  }
}
