/** The byte ring behind the bounded buffer: copy loops with wrap-around over one array. */
module BoundedBuffers {
  import opened Common
  import M = Monitor

  // (base + i) mod m, for a base inside the ring and at most one turn.
  function Slot(base: nat, i: nat, m: nat): nat
    requires base < m && i <= m
  {
    if base + i < m then base + i else base + i - m
  }

  lemma SlotIsMod(base: nat, i: nat, m: nat)
    requires base < m && i <= m
    ensures (base + i) % m == Slot(base, i, m)
  {
    var x := base + i;
    if x >= m {
      ModOnce(x, m);
    }
  }

  lemma ModOnce(x: nat, m: nat)
    requires m <= x < 2 * m
    ensures x % m == x - m
  {
    assert x == m * (x / m) + x % m;
  }

  // The used bytes of a ring, from slot back on.
  function Ring(bytes: seq<char>, back: nat, used: nat): (s: seq<char>)
    requires used <= |bytes| && (used > 0 ==> back < |bytes|)
    ensures |s| == used
  {
    seq(used, i requires 0 <= i < used => bytes[Slot(back, i, |bytes|)])
  }

  // The byte put into the next slot is the newest one.
  lemma RingGrows(bytes: seq<char>, back: nat, used: nat, x: char)
    requires back < |bytes| && used < |bytes|
    ensures Ring(bytes[Slot(back, used, |bytes|) := x], back, used + 1) == Ring(bytes, back, used) + [x]
  {
  }

  // Storing goes on from the front place, wherever the used bytes begin.
  lemma FrontSlot(back: nat, used: nat, i: nat, m: nat)
    requires back < m && used + i <= m
    ensures ((back + used) % m + i) % m == Slot(back, used + i, m) == (back + used + i) % m
  {
    SlotIsMod(back, used, m);
    SlotIsMod(Slot(back, used, m), i, m);
    SlotIsMod(back, used + i, m);
  }

  // Taking the oldest bytes off leaves the front place where it is.
  lemma BackSlot(back: nat, used: nat, size: nat, m: nat)
    requires back < m && size <= used <= m
    ensures (back + size) % m == Slot(back, size, m) < m
    ensures ((back + size) % m + (used - size)) % m == (back + used) % m
  {
    SlotIsMod(back, size, m);
    SlotIsMod(Slot(back, size, m), used - size, m);
    SlotIsMod(back, used, m);
  }

  // The bytes that stay are the content less the oldest ones.
  lemma RingShrinks(bytes: seq<char>, back: nat, used: nat, size: nat)
    requires back < |bytes| && size <= used <= |bytes|
    ensures Ring(bytes, Slot(back, size, |bytes|), used - size) == Ring(bytes, back, used)[size..]
  {
  }

  // Crash: a remainder by a size of 0 is taken.
  datatype Outcome = Asleep | Finished | Crash

  class BoundedBuffer {
    const maxsize: nat
    const buffer: array<char>
    var frontPlace: nat
    var backPlace: nat
    var usedSize: nat
    ghost var written: seq<char>
    ghost var read: seq<char>
    var sleepingWriters: set<Thread>
    var sleepingReaders: set<Thread>
    ghost var wokenWriters: set<Thread>
    ghost var wokenReaders: set<Thread>
    ghost var wants: map<Thread, nat>

    ghost predicate Valid()
      reads `frontPlace, `backPlace, `usedSize
    {
      && buffer.Length == maxsize && usedSize <= maxsize
      && if maxsize == 0 then frontPlace == backPlace == 0
         else frontPlace < maxsize && backPlace < maxsize && frontPlace == (backPlace + usedSize) % maxsize
    }

    // What the ring holds, oldest byte first.
    ghost function Contents(): (s: seq<char>)
      requires Valid()
      reads `frontPlace, `backPlace, `usedSize, buffer
      ensures |s| == usedSize
    {
      Ring(buffer[..], backPlace, usedSize)
    }

    ghost function View(): M.Buffer
      requires Valid()
      reads this, buffer
    {
      M.Buffer(maxsize, Contents(), written, read, sleepingWriters, wokenWriters, sleepingReaders, wokenReaders,
               wants)
    }

    constructor (size: nat)
      ensures Valid() && View() == M.NewBuffer(size) && fresh(buffer)
    {
      maxsize := size;
      buffer := new char[size];
      frontPlace, backPlace, usedSize := 0, 0, 0;
      written, read := [], [];
      sleepingWriters, sleepingReaders, wokenWriters, wokenReaders, wants := {}, {}, {}, {}, map[];
    }

    // The copy loop of Write.
    method CopyIn(data: array<char>, size: nat)
      requires Valid() && maxsize > 0 && data != buffer && size <= data.Length && size <= maxsize - usedSize
      modifies this`frontPlace, this`usedSize, buffer
      ensures Valid() && usedSize == old(usedSize) + size
      ensures Contents() == old(Contents()) + data[..size]
    {
      ghost var before := Contents();
      var i := 0;
      while i < size
        invariant i <= size && frontPlace == old(frontPlace) && usedSize == old(usedSize)
        invariant Ring(buffer[..], backPlace, usedSize + i) == before + data[..i]
      {
        Store(data[i], i);
        assert data[..i + 1] == data[..i] + [data[i]];
        i := i + 1;
      }
      AdvanceFront(size);
    }

    // The places after that loop.
    method AdvanceFront(size: nat)
      requires Valid() && maxsize > 0 && size <= maxsize - usedSize
      modifies this`frontPlace, this`usedSize
      ensures Valid() && usedSize == old(usedSize) + size
    {
      FrontSlot(backPlace, usedSize, size, maxsize);
      frontPlace := (frontPlace + size) % maxsize;
      usedSize := usedSize + size;
    }

    // One turn of that loop.
    method Store(x: char, i: nat)
      requires Valid() && usedSize + i < maxsize
      modifies buffer
      ensures Ring(buffer[..], backPlace, usedSize + i + 1) == Ring(old(buffer[..]), backPlace, usedSize + i) + [x]
    {
      FrontSlot(backPlace, usedSize, i, maxsize);
      RingGrows(buffer[..], backPlace, usedSize + i, x);
      ghost var bytes, slot := buffer[..], Slot(backPlace, usedSize + i, maxsize);
      buffer[(frontPlace + i) % maxsize] := x;
      assert buffer[..] == bytes[slot := x];
    }

    // The copy loop of Read.
    method CopyOut(data: array<char>, size: nat)
      requires Valid() && maxsize > 0 && data != buffer && size <= data.Length && size <= usedSize
      modifies this`backPlace, this`usedSize, data
      ensures Valid() && usedSize == old(usedSize) - size
      ensures data[..size] == old(Contents())[..size] && data[size..] == old(data[size..])
      ensures Contents() == old(Contents())[size..]
    {
      ghost var before := Contents();
      var i := 0;
      while i < size
        invariant i <= size && backPlace == old(backPlace) && usedSize == old(usedSize)
        invariant data[..i] == before[..i]
        invariant data[size..] == old(data[size..])
      {
        BackSlot(backPlace, usedSize, i, maxsize);
        data[i] := buffer[(backPlace + i) % maxsize];
        assert data[..i + 1] == before[..i + 1];
        i := i + 1;
      }
      AdvanceBack(size);
    }

    // The places after that loop.
    method AdvanceBack(size: nat)
      requires Valid() && maxsize > 0 && size <= usedSize
      modifies this`backPlace, this`usedSize
      ensures Valid() && usedSize == old(usedSize) - size && Contents() == old(Contents())[size..]
    {
      BackSlot(backPlace, usedSize, size, maxsize);
      RingShrinks(buffer[..], backPlace, usedSize, size);
      backPlace := (backPlace + size) % maxsize;
      usedSize := usedSize - size;
    }

    // NotEmpty->Signal and NotFull->Signal: one sleeper, if there is one, is made ready.
    method SignalReader() returns (wake: Option<Thread>)
      modifies this`sleepingReaders, this`wokenReaders
      ensures M.Wakes(wake, old(sleepingReaders))
      ensures if old(sleepingReaders) == {}
              then wake == None && sleepingReaders == {} && wokenReaders == old(wokenReaders)
              else wake.Some? && wake.value in old(sleepingReaders)
                   && sleepingReaders == old(sleepingReaders) - {wake.value}
                   && wokenReaders == old(wokenReaders) + {wake.value}
      ensures sleepingReaders == old(sleepingReaders) - M.Chosen(wake)
      ensures wokenReaders == old(wokenReaders) + M.Chosen(wake)
    {
      wake := None;
      if sleepingReaders != {} {
        var u :| u in sleepingReaders;
        wake := Some(u);
        sleepingReaders := sleepingReaders - {u};
        wokenReaders := wokenReaders + {u};
      }
    }

    method SignalWriter() returns (wake: Option<Thread>)
      modifies this`sleepingWriters, this`wokenWriters
      ensures M.Wakes(wake, old(sleepingWriters))
      ensures if old(sleepingWriters) == {}
              then wake == None && sleepingWriters == {} && wokenWriters == old(wokenWriters)
              else wake.Some? && wake.value in old(sleepingWriters)
                   && sleepingWriters == old(sleepingWriters) - {wake.value}
                   && wokenWriters == old(wokenWriters) + {wake.value}
      ensures sleepingWriters == old(sleepingWriters) - M.Chosen(wake)
      ensures wokenWriters == old(wokenWriters) + M.Chosen(wake)
    {
      wake := None;
      if sleepingWriters != {} {
        var u :| u in sleepingWriters;
        wake := Some(u);
        sleepingWriters := sleepingWriters - {u};
        wokenWriters := wokenWriters + {u};
      }
    }

    // One pass of Write by thread t: asleep on NotFull, or all written and one reader signalled.
    method Write(t: Thread, data: array<char>, size: nat) returns (outcome: Outcome, ghost wake: Option<Thread>)
      requires Valid() && data != buffer && size <= data.Length
      modifies this, buffer
      ensures outcome == if size > maxsize - old(usedSize) then Asleep else if maxsize == 0 then Crash else Finished
      ensures outcome != Crash ==> Valid() && View() == M.Take(old(View()), M.TryWrite(t, data[..size], wake))
      ensures outcome == Finished ==>
                && Contents() == old(Contents()) + data[..size] && written == old(written) + data[..size]
                && M.Wakes(wake, old(sleepingReaders))
                && wokenWriters == old(wokenWriters) - {t} && sleepingWriters == old(sleepingWriters)
      ensures outcome == Asleep ==>
                && Contents() == old(Contents()) && written == old(written)
                && sleepingWriters == old(sleepingWriters) + {t} && wokenWriters == old(wokenWriters) - {t}
    {
      wake := None;
      wokenWriters := wokenWriters - {t};
      if maxsize - usedSize < size {
        sleepingWriters := sleepingWriters + {t};
        wants := wants[t := size];
        return Asleep, wake;
      }
      if maxsize == 0 {
        return Crash, wake;    // FrontPlace + size modulo 0
      }
      CopyIn(data, size);
      written := written + data[..size];
      wake := SignalReader();
      outcome := Finished;
    }

    // One pass of Read by thread t: asleep on NotEmpty, or all read and one writer signalled.
    method Read(t: Thread, data: array<char>, size: nat) returns (outcome: Outcome, ghost wake: Option<Thread>)
      requires Valid() && data != buffer && size <= data.Length
      modifies this, data
      ensures outcome == if size > old(usedSize) then Asleep else if maxsize == 0 then Crash else Finished
      ensures outcome != Crash ==> Valid() && View() == M.Take(old(View()), M.TryRead(t, size, wake))
      ensures outcome == Finished ==>
                && M.Wakes(wake, old(sleepingWriters))
                && data[..size] == old(Contents())[..size] && data[size..] == old(data[size..])
                && Contents() == old(Contents())[size..] && read == old(read) + data[..size]
                && wokenReaders == old(wokenReaders) - {t} && sleepingReaders == old(sleepingReaders)
      ensures outcome == Asleep ==>
                && data[..] == old(data[..]) && Contents() == old(Contents()) && read == old(read)
                && sleepingReaders == old(sleepingReaders) + {t} && wokenReaders == old(wokenReaders) - {t}
    {
      wake := None;
      wokenReaders := wokenReaders - {t};
      if usedSize < size {
        sleepingReaders := sleepingReaders + {t};
        wants := wants[t := size];
        return Asleep, wake;
      }
      if maxsize == 0 {
        return Crash, wake;    // BackPlace + size modulo 0
      }
      CopyOut(data, size);
      read := read + data[..size];
      wake := SignalWriter();
      outcome := Finished;
    }
  }
}
