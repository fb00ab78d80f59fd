/** Lists of keyed items and insertion behind equal keys: the meaning of the doubly linked list. */
module KeyedLists {

  type Entry<T> = (int, T)

  ghost predicate Sorted<T>(s: seq<Entry<T>>) {
    forall i, j | 0 <= i < j < |s| :: s[i].0 <= s[j].0
  }

  // The position of the first entry with a larger key.
  function Place<T>(s: seq<Entry<T>>, key: int): (p: nat)
    ensures p <= |s|
    ensures forall i | 0 <= i < p :: s[i].0 <= key
    ensures p < |s| ==> s[p].0 > key
  {
    PlaceFrom(s, key, 0)
  }

  function PlaceFrom<T>(s: seq<Entry<T>>, key: int, n: nat): (p: nat)
    requires n <= |s|
    ensures n <= p <= |s|
    ensures forall i | n <= i < p :: s[i].0 <= key
    ensures p < |s| ==> s[p].0 > key
    decreases |s| - n
  {
    if n == |s| || s[n].0 > key then n else PlaceFrom(s, key, n + 1)
  }

  function Insert<T>(s: seq<Entry<T>>, key: int, item: T): seq<Entry<T>> {
    var p := Place(s, key);
    s[..p] + [(key, item)] + s[p..]
  }

  lemma InsertAt<T>(s: seq<Entry<T>>, key: int, item: T)
    ensures var t := Insert(s, key, item);
            && |t| == |s| + 1
            && forall i | 0 <= i < |t| :: t[i] == if i < Place(s, key) then s[i]
                                                  else if i == Place(s, key) then (key, item) else s[i - 1]
  {
  }

  // The position of the first entry with this key, or the length.
  function Find<T>(s: seq<Entry<T>>, key: int): (p: nat)
    ensures p <= |s|
    ensures forall i | 0 <= i < p :: s[i].0 != key
    ensures p < |s| ==> s[p].0 == key
  {
    FindFrom(s, key, 0)
  }

  function FindFrom<T>(s: seq<Entry<T>>, key: int, n: nat): (p: nat)
    requires n <= |s|
    ensures n <= p <= |s|
    ensures forall i | n <= i < p :: s[i].0 != key
    ensures p < |s| ==> s[p].0 == key
    decreases |s| - n
  {
    if n == |s| || s[n].0 == key then n else FindFrom(s, key, n + 1)
  }

  function Without<T>(s: seq<Entry<T>>, p: nat): seq<Entry<T>>
    requires p < |s|
  {
    s[..p] + s[p + 1..]
  }

  // ---------- Every operation keeps the keys sorted ----------

  lemma InsertKeepsSorted<T>(s: seq<Entry<T>>, key: int, item: T)
    requires Sorted(s)
    ensures Sorted(Insert(s, key, item))
  {
    var p := Place(s, key);
    var t := Insert(s, key, item);
    InsertAt(s, key, item);
    forall i, j | 0 <= i < j < |t| ensures t[i].0 <= t[j].0 {
      if j < p {
        assert t[i] == s[i] && t[j] == s[j];
      } else if p < i {
        assert t[i] == s[i - 1] && t[j] == s[j - 1];
      } else if p < j {
        assert t[j] == s[j - 1] && s[p].0 <= s[j - 1].0;
      }
    }
  }

  lemma EndsKeepSorted<T>(s: seq<Entry<T>>, item: T)
    requires Sorted(s)
    ensures Sorted([(if s == [] then 0 else s[0].0 - 1, item)] + s)
    ensures Sorted(s + [(if s == [] then 0 else s[|s| - 1].0 + 1, item)])
    ensures s != [] ==> Sorted(s[1..])
    ensures forall p: nat | p < |s| :: Sorted(Without(s, p))
  {
    forall p: nat | p < |s| ensures Sorted(Without(s, p)) {
      var t := Without(s, p);
      assert forall i | 0 <= i < |t| :: t[i] == if i < p then s[i] else s[i + 1];
    }
  }

  // ---------- Insertion sorts stably ----------

  function InsertAll<T>(entries: seq<Entry<T>>): seq<Entry<T>> {
    if entries == [] then []
    else
      var last := entries[|entries| - 1];
      Insert(InsertAll(entries[..|entries| - 1]), last.0, last.1)
  }

  // The items with this key, in order.
  function WithKey<T>(s: seq<Entry<T>>, key: int): seq<T> {
    if s == [] then []
    else if s[|s| - 1].0 == key then WithKey(s[..|s| - 1], key) + [s[|s| - 1].1]
    else WithKey(s[..|s| - 1], key)
  }

  lemma {:induction false} WithKeyConcat<T>(s: seq<Entry<T>>, t: seq<Entry<T>>, key: int)
    ensures WithKey(s + t, key) == WithKey(s, key) + WithKey(t, key)
  {
    if t == [] {
      assert s + t == s;
    } else {
      var n := |t| - 1;
      assert (s + t)[..|s| + n] == s + t[..n];
      WithKeyConcat(s, t[..n], key);
    }
  }

  lemma {:induction false} NoSuchKey<T>(s: seq<Entry<T>>, key: int)
    requires forall i | 0 <= i < |s| :: s[i].0 != key
    ensures WithKey(s, key) == []
  {
    if s != [] { NoSuchKey(s[..|s| - 1], key); }
  }

  lemma WithKeySnoc<T>(s: seq<Entry<T>>, key: int, item: T, k: int)
    ensures WithKey(s + [(key, item)], k) == if k == key then WithKey(s, k) + [item] else WithKey(s, k)
  {
    assert (s + [(key, item)])[..|s|] == s;
  }

  // An inserted item comes after all the items with its key and leaves the others alone.
  lemma InsertIsLast<T>(s: seq<Entry<T>>, key: int, item: T, k: int)
    requires Sorted(s)
    ensures WithKey(Insert(s, key, item), k) == if k == key then WithKey(s, k) + [item] else WithKey(s, k)
  {
    var p := Place(s, key);
    var front, back := s[..p], s[p..];
    var f, g := WithKey(front, k), WithKey(back, k);
    assert WithKey(s, k) == f + g by {
      WithKeyConcat(front, back, k);
      assert s == front + back;
    }
    InsertSplits(front, back, key, item, k);
    if k == key {
      NothingLarger(s, key);
      assert f + [item] + [] == (f + []) + [item];
    }
  }

  // Taking out the first entry with a key takes that key's first item and leaves all the others alone.
  lemma RemovedIsFirst<T>(s: seq<Entry<T>>, key: int, k: int)
    requires Find(s, key) < |s|
    ensures var p := Find(s, key);
            && WithKey(s, k) == (if k == key then [s[p].1] else []) + WithKey(Without(s, p), k)
            && multiset(s) == multiset{(key, s[p].1)} + multiset(Without(s, p))
  {
    var p := Find(s, key);
    var front, back := s[..p], s[p + 1..];
    assert s == front + [(key, s[p].1)] + back;
    InsertSplits(front, back, key, s[p].1, k);
    WithKeyConcat(front, back, k);
    FirstIsFirst(front, back, key, s[p].1, k);
    MiddleIsCounted(front, back, (key, s[p].1));
  }

  lemma FirstIsFirst<T>(front: seq<Entry<T>>, back: seq<Entry<T>>, key: int, item: T, k: int)
    requires forall i | 0 <= i < |front| :: front[i].0 != key
    ensures (if k == key then WithKey(front, k) + [item] else WithKey(front, k)) + WithKey(back, k) ==
            (if k == key then [item] else []) + (WithKey(front, k) + WithKey(back, k))
  {
    if k == key { NoSuchKey(front, key); }
  }

  lemma MiddleIsCounted<T>(front: seq<T>, back: seq<T>, x: T)
    ensures multiset(front + [x] + back) == multiset{x} + multiset(front + back)
  {
  }

  lemma NothingLarger<T>(s: seq<Entry<T>>, key: int)
    requires Sorted(s)
    ensures WithKey(s[Place(s, key)..], key) == []
  {
    LargerKeys(s, key);
    NoSuchKey(s[Place(s, key)..], key);
  }

  lemma InsertSplits<T>(front: seq<Entry<T>>, back: seq<Entry<T>>, key: int, item: T, k: int)
    ensures WithKey(front + [(key, item)] + back, k) ==
            (if k == key then WithKey(front, k) + [item] else WithKey(front, k)) + WithKey(back, k)
  {
    WithKeySnoc(front, key, item, k);
    WithKeyConcat(front + [(key, item)], back, k);
  }

  lemma LargerKeys<T>(s: seq<Entry<T>>, key: int)
    requires Sorted(s)
    ensures forall i | 0 <= i < |s[Place(s, key)..]| :: s[Place(s, key)..][i].0 > key
  {
    var p := Place(s, key);
    forall i | 0 <= i < |s[p..]| ensures s[p..][i].0 > key {
      assert s[p].0 <= s[p + i].0;
    }
  }

  // The outcome of a sequence of sorted insertions is sorted, and for every key it holds the items inserted with
  // that key, in the order of insertion.
  lemma {:induction false} InsertAllSorts<T>(entries: seq<Entry<T>>, k: int)
    ensures Sorted(InsertAll(entries))
    ensures |InsertAll(entries)| == |entries|
    ensures WithKey(InsertAll(entries), k) == WithKey(entries, k)
  {
    if entries != [] {
      var front := entries[..|entries| - 1];
      var last := entries[|entries| - 1];
      InsertAllSorts(front, k);
      InsertKeepsSorted(InsertAll(front), last.0, last.1);
      InsertIsLast(InsertAll(front), last.0, last.1, k);
    }
  }

  lemma {:induction false} WithKeyOf<T>(s: seq<Entry<T>>, i: nat)
    requires i < |s|
    ensures WithKey(s, s[i].0) != []
  {
    if i < |s| - 1 { WithKeyOf(s[..|s| - 1], i); }
  }

  ghost predicate SameByKey<T>(a: seq<Entry<T>>, b: seq<Entry<T>>) {
    forall k: int :: WithKey(a, k) == WithKey(b, k)
  }

  lemma WithKeyLast<T>(s: seq<Entry<T>>, k: int)
    requires s != []
    ensures var n := |s| - 1;
            WithKey(s, k) == if s[n].0 == k then WithKey(s[..n], k) + [s[n].1] else WithKey(s[..n], k)
  {
  }

  lemma SnocCancels<T>(x: seq<T>, a: T, y: seq<T>, b: T)
    requires x + [a] == y + [b]
    ensures x == y && a == b
  {
    assert (x + [a])[|x|] == a && (y + [b])[|y|] == b;
    assert (x + [a])[..|x|] == x && (y + [b])[..|y|] == y;
  }

  lemma LastEntriesAgree<T>(a: seq<Entry<T>>, b: seq<Entry<T>>)
    requires Sorted(a) && Sorted(b) && a != [] && b != [] && SameByKey(a, b)
    ensures a[|a| - 1] == b[|b| - 1]
    ensures SameByKey(a[..|a| - 1], b[..|b| - 1])
  {
    var m, n := |a| - 1, |b| - 1;
    LastKeyAtMost(a, b);
    LastKeyAtMost(b, a);
    forall k: int ensures WithKey(a[..m], k) == WithKey(b[..n], k) {
      WithKeyLast(a, k);
      WithKeyLast(b, k);
      assert WithKey(a, k) == WithKey(b, k);
      if k == a[m].0 {
        SnocCancels(WithKey(a[..m], k), a[m].1, WithKey(b[..n], k), b[n].1);
      }
    }
    SameLastItem(a, b);
  }

  lemma SameLastItem<T>(a: seq<Entry<T>>, b: seq<Entry<T>>)
    requires a != [] && b != [] && SameByKey(a, b) && a[|a| - 1].0 == b[|b| - 1].0
    ensures a[|a| - 1] == b[|b| - 1]
  {
    var k := a[|a| - 1].0;
    WithKeyLast(a, k);
    WithKeyLast(b, k);
    assert WithKey(a, k) == WithKey(b, k);
    SnocCancels(WithKey(a[..|a| - 1], k), a[|a| - 1].1, WithKey(b[..|b| - 1], k), b[|b| - 1].1);
  }

  lemma LastKeyAtMost<T>(a: seq<Entry<T>>, b: seq<Entry<T>>)
    requires Sorted(a) && Sorted(b) && a != [] && b != [] && SameByKey(a, b)
    ensures a[|a| - 1].0 <= b[|b| - 1].0
  {
    var k := a[|a| - 1].0;
    WithKeyOf(a, |a| - 1);
    assert WithKey(a, k) == WithKey(b, k);
    if k > b[|b| - 1].0 {
      NoSuchKey(b, k);
    }
  }

  // These two facts leave no freedom: there is only one stable sort.
  lemma {:induction false} StableSortIsUnique<T>(a: seq<Entry<T>>, b: seq<Entry<T>>)
    requires Sorted(a) && Sorted(b) && SameByKey(a, b)
    ensures a == b
    decreases |a|
  {
    if a == [] {
      if b != [] {
        WithKeyOf(b, 0);
      }
    } else if b == [] {
      WithKeyOf(a, 0);
    } else {
      var m, n := |a| - 1, |b| - 1;
      LastEntriesAgree(a, b);
      StableSortIsUnique(a[..m], b[..n]);
      assert a == a[..m] + [a[m]] && b == b[..n] + [b[n]];
    }
  }

  // So draining after any sequence of sorted insertions yields the stable sort of what was inserted, and there is
  // no other.
  lemma InsertAllIsTheStableSort<T>(entries: seq<Entry<T>>, s: seq<Entry<T>>)
    ensures s == InsertAll(entries) <==> Sorted(s) && SameByKey(s, entries)
  {
    forall k: int ensures WithKey(InsertAll(entries), k) == WithKey(entries, k) {
      InsertAllSorts(entries, k);
    }
    InsertAllSorts(entries, 0);
    if Sorted(s) && SameByKey(s, entries) {
      forall k: int ensures WithKey(s, k) == WithKey(InsertAll(entries), k) {
        assert WithKey(s, k) == WithKey(entries, k);
      }
      StableSortIsUnique(s, InsertAll(entries));
    }
  }
}
