/** The bounded buffer as a monitor: any threads reading and writing any sizes, sleeping on NotEmpty and NotFull. */
module Monitor {
  import opened Common
  import opened Sums

  // sleeping: asleep on NotFull or NotEmpty.  woken: signalled and not yet back in the loop.
  // wants: the sizes threads have gone to sleep for.
  datatype Buffer = Buffer(
    maxsize: nat,
    content: seq<char>,
    written: seq<char>,
    read: seq<char>,
    sleepingWriters: set<Thread>,
    wokenWriters: set<Thread>,
    sleepingReaders: set<Thread>,
    wokenReaders: set<Thread>,
    wants: map<Thread, nat>)

  function Wants(b: Buffer, t: Thread): nat {
    if t in b.wants then b.wants[t] else 0
  }

  // One pass of the waiting loop and, if it lets the thread through, the rest of the operation.
  // wake: whom the final Signal makes ready.
  datatype Step =
    | TryWrite(t: Thread, data: seq<char>, wake: Option<Thread>)
    | TryRead(t: Thread, size: nat, wake: Option<Thread>)

  function Size(step: Step): nat {
    match step
    case TryWrite(_, data, _) => |data|
    case TryRead(_, size, _) => size
  }

  // Signal wakes one sleeper if there is one.
  predicate Wakes(wake: Option<Thread>, sleepers: set<Thread>) {
    match wake
    case None => sleepers == {}
    case Some(u) => u in sleepers
  }

  // A woken thread goes on with the transfer it went to sleep in.  The empty transfer crashes on a buffer of size 0.
  predicate CanStep(b: Buffer, step: Step) {
    && (b.maxsize > 0 || Size(step) > 0)
    && step.t !in b.sleepingWriters && step.t !in b.sleepingReaders
    && (step.t in b.wokenWriters || step.t in b.wokenReaders ==> Size(step) == Wants(b, step.t))
    && match step
       case TryWrite(t, _, wake) => t !in b.wokenReaders && Wakes(wake, b.sleepingReaders)
       case TryRead(t, _, wake) => t !in b.wokenWriters && Wakes(wake, b.sleepingWriters)
  }

  function Chosen(wake: Option<Thread>): set<Thread> {
    match wake
    case None => {}
    case Some(u) => {u}
  }

  predicate Passes(b: Buffer, step: Step) {
    match step
    case TryWrite(_, data, _) => |data| <= b.maxsize - |b.content|
    case TryRead(_, size, _) => size <= |b.content|
  }

  function Take(b: Buffer, step: Step): Buffer {
    match step
    case TryWrite(t, data, wake) =>
      if !Passes(b, step) then
        b.(sleepingWriters := b.sleepingWriters + {t}, wokenWriters := b.wokenWriters - {t},
           wants := b.wants[t := |data|])
      else
        b.(content := b.content + data, written := b.written + data, wokenWriters := b.wokenWriters - {t},
           sleepingReaders := b.sleepingReaders - Chosen(wake), wokenReaders := b.wokenReaders + Chosen(wake))
    case TryRead(t, size, wake) =>
      if !Passes(b, step) then
        b.(sleepingReaders := b.sleepingReaders + {t}, wokenReaders := b.wokenReaders - {t},
           wants := b.wants[t := size])
      else
        b.(content := b.content[size..], read := b.read + b.content[..size], wokenReaders := b.wokenReaders - {t},
           sleepingWriters := b.sleepingWriters - Chosen(wake), wokenWriters := b.wokenWriters + Chosen(wake))
  }

  function NewBuffer(maxsize: nat): Buffer {
    Buffer(maxsize, [], [], [], {}, {}, {}, {}, map[])
  }

  function Exec(maxsize: nat, steps: seq<Step>): Buffer {
    if steps == [] then NewBuffer(maxsize) else Take(Exec(maxsize, steps[..|steps| - 1]), steps[|steps| - 1])
  }

  predicate IsRun(maxsize: nat, steps: seq<Step>) {
    steps == [] ||
    (IsRun(maxsize, steps[..|steps| - 1]) && CanStep(Exec(maxsize, steps[..|steps| - 1]), steps[|steps| - 1]))
  }

  lemma RunExtends(maxsize: nat, steps: seq<Step>, step: Step)
    requires IsRun(maxsize, steps) && CanStep(Exec(maxsize, steps), step)
    ensures IsRun(maxsize, steps + [step]) && Exec(maxsize, steps + [step]) == Take(Exec(maxsize, steps), step)
  {
    assert (steps + [step])[..|steps|] == steps;
  }

  // ---------- The byte stream ----------

  // The bytes of all the writes of the run that found room, one after the other.
  function PutIn(maxsize: nat, steps: seq<Step>): seq<char> {
    if steps == [] then []
    else
      var front, last := steps[..|steps| - 1], steps[|steps| - 1];
      PutIn(maxsize, front) +
      if last.TryWrite? && |last.data| <= maxsize - |Exec(maxsize, front).content| then last.data else []
  }

  // The bytes that all the reads of the run that found enough took from the front of the buffer.
  function HandedOut(maxsize: nat, steps: seq<Step>): seq<char> {
    if steps == [] then []
    else
      var front, last := steps[..|steps| - 1], steps[|steps| - 1];
      var content := Exec(maxsize, front).content;
      HandedOut(maxsize, front) +
      if last.TryRead? && last.size <= |content| then content[..last.size] else []
  }

  // Over every interleaving of reads and writes of any sizes, what was put in is what was handed out and then the
  // content.
  lemma {:induction false} ByteStream(maxsize: nat, steps: seq<Step>)
    requires IsRun(maxsize, steps)
    ensures var b := Exec(maxsize, steps);
            && b.maxsize == maxsize && |b.content| <= maxsize
            && PutIn(maxsize, steps) == HandedOut(maxsize, steps) + b.content
            && b.written == PutIn(maxsize, steps) && b.read == HandedOut(maxsize, steps)
  {
    if steps != [] {
      var n := |steps| - 1;
      var front := steps[..n];
      ByteStream(maxsize, front);
      StreamStep(Exec(maxsize, front), steps[n], PutIn(maxsize, front), HandedOut(maxsize, front));
    }
  }

  lemma StreamStep(b: Buffer, step: Step, put: seq<char>, out: seq<char>)
    requires |b.content| <= b.maxsize && put == out + b.content && b.written == put && b.read == out
    ensures var c := Take(b, step);
            && c.maxsize == b.maxsize && |c.content| <= c.maxsize
            && c.written == put + (if step.TryWrite? && |step.data| <= b.maxsize - |b.content| then step.data else [])
            && c.read == out + (if step.TryRead? && step.size <= |b.content| then b.content[..step.size] else [])
            && c.written == c.read + c.content
  {
    if Passes(b, step) {
      if step.TryRead? {
        assert b.content == b.content[..step.size] + b.content[step.size..];
        assert (out + b.content[..step.size]) + b.content[step.size..] == out + b.content;
      } else {
        assert out + (b.content + step.data) == (out + b.content) + step.data;
      }
    }
  }

  // ---------- Equal sizes: the buffer does not get stuck ----------

  ghost predicate AllOfSize(steps: seq<Step>, k: nat) {
    forall i | 0 <= i < |steps| :: Size(steps[i]) == k
  }

  // Every step moves nothing or k bytes.
  ghost predicate NothingOr(steps: seq<Step>, k: nat) {
    forall i | 0 <= i < |steps| :: Size(steps[i]) == 0 || Size(steps[i]) == k
  }

  // The buffer holds `full` transfers and has room for `room` more, and a spare too small for another one.
  ghost predicate FlowInv(b: Buffer, k: nat, full: nat, room: nat, spare: nat) {
    && |b.content| == Worth(full, k) && b.maxsize - |b.content| == Worth(room, k) + spare && spare < k
    && b.sleepingReaders !! b.wokenReaders
    && b.sleepingWriters !! b.wokenWriters
    && (b.sleepingReaders != {} ==> full <= |b.wokenReaders|)
    && (b.sleepingWriters != {} ==> room <= |b.wokenWriters|)
  }

  predicate Waiting(b: Buffer, t: Thread) {
    t in b.sleepingReaders || t in b.wokenReaders || t in b.sleepingWriters || t in b.wokenWriters
  }

  // Everybody who sleeps or has been woken is in a transfer of size k.
  ghost predicate AllWant(b: Buffer, k: nat) {
    forall t | Waiting(b, t) :: Wants(b, t) == k
  }

  lemma WantsKept(b: Buffer, step: Step, k: nat)
    requires AllWant(b, k) && CanStep(b, step) && |b.content| <= b.maxsize && (Size(step) == 0 || Size(step) == k)
    ensures AllWant(Take(b, step), k)
  {
    var c := Take(b, step);
    forall t | Waiting(c, t) ensures Wants(c, t) == k {
      if t != step.t { assert Waiting(b, t) && Wants(b, t) == k; }
    }
  }

  lemma WriteFlows(b: Buffer, t: Thread, data: seq<char>, wake: Option<Thread>, k: nat,
                   full: nat, room: nat, spare: nat)
    returns (full': nat, room': nat)
    requires FlowInv(b, k, full, room, spare) && CanStep(b, TryWrite(t, data, wake))
    requires |data| == k || (|data| == 0 && t !in b.wokenWriters)
    ensures FlowInv(Take(b, TryWrite(t, data, wake)), k, full', room', spare)
  {
    full', room' := full, room;
    SetCounts(b.wokenWriters, t);
    if |data| == 0 {
      if wake.Some? { SetCounts(b.wokenReaders, wake.value); }
    } else if room > 0 {
      full', room' := full + 1, room - 1;
      if wake.Some? { SetCounts(b.wokenReaders, wake.value); }
    }
  }

  lemma ReadFlows(b: Buffer, t: Thread, size: nat, wake: Option<Thread>, k: nat,
                  full: nat, room: nat, spare: nat)
    returns (full': nat, room': nat)
    requires FlowInv(b, k, full, room, spare) && CanStep(b, TryRead(t, size, wake))
    requires size == k || (size == 0 && t !in b.wokenReaders)
    ensures FlowInv(Take(b, TryRead(t, size, wake)), k, full', room', spare)
  {
    full', room' := full, room;
    SetCounts(b.wokenReaders, t);
    if size == 0 {
      if wake.Some? { SetCounts(b.wokenWriters, wake.value); }
    } else if full > 0 {
      full', room' := full - 1, room + 1;
      if wake.Some? { SetCounts(b.wokenWriters, wake.value); }
    }
  }

  lemma {:induction false} UnitsDivide(maxsize: nat, k: nat) returns (room: nat, spare: nat)
    requires k > 0
    ensures maxsize == Worth(room, k) + spare && spare < k
  {
    if maxsize < k {
      room, spare := 0, maxsize;
    } else {
      room, spare := UnitsDivide(maxsize - k, k);
      room := room + 1;
    }
  }

  lemma {:induction false} RunFlows(maxsize: nat, steps: seq<Step>, k: nat) returns (full: nat, room: nat, spare: nat)
    requires IsRun(maxsize, steps) && NothingOr(steps, k) && k > 0
    ensures FlowInv(Exec(maxsize, steps), k, full, room, spare) && Exec(maxsize, steps).maxsize == maxsize
    ensures AllWant(Exec(maxsize, steps), k)
  {
    if steps == [] {
      full := 0;
      room, spare := UnitsDivide(maxsize, k);
    } else {
      var n := |steps| - 1;
      full, room, spare := RunFlows(maxsize, steps[..n], k);
      var b := Exec(maxsize, steps[..n]);
      assert Waiting(b, steps[n].t) ==> Wants(b, steps[n].t) == k;
      WantsKept(b, steps[n], k);
      match steps[n] {
        case TryWrite(t, data, wake) => full, room := WriteFlows(b, t, data, wake, k, full, room, spare);
        case TryRead(t, size, wake) => full, room := ReadFlows(b, t, size, wake, k, full, room, spare);
      }
    }
  }

  lemma WorthIsQuotient(x: nat, n: nat, k: nat)
    requires Worth(n, k) <= x < Worth(n, k) + k
    ensures x / k == n
  {
    var q := x / k;
    WorthIsProduct(q, k);
    assert Worth(q, k) <= x < Worth(q, k) + k;
    if q < n {
      WorthGrows(q, n, k);
    } else if n < q {
      WorthGrows(n, q, k);
    }
  }

  // A sleeping reader leaves no more full transfers in the buffer than there are readers on their way, and a sleeping
  // writer no more room than there are writers on their way.
  ghost predicate EnoughAwake(b: Buffer, k: nat)
    requires k > 0
  {
    && (b.sleepingReaders != {} ==> |b.content| / k <= |b.wokenReaders|)
    && (b.sleepingWriters != {} ==> (b.maxsize - |b.content|) / k <= |b.wokenWriters|)
  }

  lemma FlowQuotients(b: Buffer, k: nat, full: nat, room: nat, spare: nat)
    requires FlowInv(b, k, full, room, spare) && k > 0
    ensures EnoughAwake(b, k)
  {
    WorthIsQuotient(|b.content|, full, k);
    WorthIsQuotient(b.maxsize - |b.content|, room, k);
  }

  // When every transfer has the same size, each Signal to one thread is enough.
  lemma {:induction false} EqualSizesWakeEnough(maxsize: nat, steps: seq<Step>, k: nat)
    requires IsRun(maxsize, steps) && AllOfSize(steps, k) && 1 <= k <= maxsize
    ensures EnoughAwake(Exec(maxsize, steps), k)
  {
    var full, room, spare := RunFlows(maxsize, steps, k);
    FlowQuotients(Exec(maxsize, steps), k, full, room, spare);
  }

  // So readers and writers are never all asleep.
  lemma EqualSizesNeverGetStuck(maxsize: nat, steps: seq<Step>, k: nat)
    requires IsRun(maxsize, steps) && AllOfSize(steps, k) && 1 <= k <= maxsize
    ensures var b := Exec(maxsize, steps);
            b.sleepingReaders != {} && b.sleepingWriters != {} ==> b.wokenReaders + b.wokenWriters != {}
  {
    var full, room, spare := RunFlows(maxsize, steps, k);
    var b := Exec(maxsize, steps);
    if b.sleepingReaders != {} && b.sleepingWriters != {} {
      assert full == 0 && room == 0 ==> maxsize < k;
      assert |b.wokenReaders| > 0 || |b.wokenWriters| > 0;
    }
  }

  // ---------- Different sizes: when one Signal per transfer is not enough ----------

  // States that runs with sizes in K lead to.
  ghost predicate Reachable(maxsize: nat, K: set<nat>, b: Buffer) {
    exists steps :: IsRun(maxsize, steps) && SizesIn(steps, K) && Exec(maxsize, steps) == b
  }

  ghost predicate SizesIn(steps: seq<Step>, K: set<nat>) {
    forall i | 0 <= i < |steps| :: Size(steps[i]) in K
  }

  // A reader sleeps although its bytes are there, and no reader is on its way.
  ghost predicate ReaderStranded(b: Buffer) {
    b.wokenReaders == {} && exists t | t in b.sleepingReaders :: Wants(b, t) <= |b.content|
  }

  // A writer sleeps although there is room, and no writer is on its way.
  ghost predicate WriterStranded(b: Buffer) {
    b.wokenWriters == {} && exists t | t in b.sleepingWriters :: Wants(b, t) <= b.maxsize - |b.content|
  }

  // No two sizes differ, but for the empty transfer, unless both are too large for the buffer.
  predicate OneSize(maxsize: nat, K: set<nat>) {
    forall j, k | j in K && k in K && 0 < j < k :: j > maxsize
  }

  // Signalling one thread per transfer is enough for a set of sizes exactly if it is in effect one size.
  lemma {:induction false} OneSignalIsEnough(maxsize: nat, K: set<nat>)
    ensures (forall b | Reachable(maxsize, K, b) :: !ReaderStranded(b)) <==> OneSize(maxsize, K)
    ensures (forall b | Reachable(maxsize, K, b) :: !WriterStranded(b)) <==> OneSize(maxsize, K)
  {
    if OneSize(maxsize, K) {
      forall b | Reachable(maxsize, K, b) ensures !ReaderStranded(b) && !WriterStranded(b) {
        OneSizeStrandsNobody(maxsize, K, b);
      }
    } else {
      var j, k :| j in K && k in K && 0 < j < k && j <= maxsize;
      var b := MixedSizesCanStrandAReader(maxsize, j, k);
      var c := MixedSizesCanStrandAWriter(maxsize, j, k);
      FewerSizes(maxsize, {j, k}, K, b);
      FewerSizes(maxsize, {j, k}, K, c);
    }
  }

  lemma FewerSizes(maxsize: nat, J: set<nat>, K: set<nat>, b: Buffer)
    requires J <= K && Reachable(maxsize, J, b)
    ensures Reachable(maxsize, K, b)
  {
    var steps :| IsRun(maxsize, steps) && SizesIn(steps, J) && Exec(maxsize, steps) == b;
    assert SizesIn(steps, K);
  }

  lemma OneSizeStrandsNobody(maxsize: nat, K: set<nat>, b: Buffer)
    requires OneSize(maxsize, K) && Reachable(maxsize, K, b)
    ensures !ReaderStranded(b) && !WriterStranded(b)
  {
    var steps :| IsRun(maxsize, steps) && SizesIn(steps, K) && Exec(maxsize, steps) == b;
    if k :| k in K && 0 < k <= maxsize {
      assert NothingOr(steps, k);
      var full, room, spare := RunFlows(maxsize, steps, k);
      FullOrNot(full, k);
      FullOrNot(room, k);
    } else {
      NothingFits(maxsize, steps);
    }
  }

  lemma FullOrNot(n: nat, k: nat)
    ensures n == 0 ==> Worth(n, k) == 0
    ensures n > 0 ==> Worth(n, k) >= k
  {
  }

  // Where nothing but the empty transfer fits, whoever sleeps wants more than the buffer can ever hold.
  lemma {:induction false} NothingFits(maxsize: nat, steps: seq<Step>)
    requires IsRun(maxsize, steps)
    requires forall i | 0 <= i < |steps| :: Size(steps[i]) == 0 || Size(steps[i]) > maxsize
    ensures var b := Exec(maxsize, steps);
            && b.maxsize == maxsize && b.content == []
            && forall t | t in b.sleepingReaders || t in b.sleepingWriters :: Wants(b, t) > maxsize
  {
    if steps != [] {
      NothingFits(maxsize, steps[..|steps| - 1]);
    }
  }

  lemma Reach(maxsize: nat, K: set<nat>, b: Buffer, step: Step)
    requires Reachable(maxsize, K, b) && CanStep(b, step) && Size(step) in K
    ensures Reachable(maxsize, K, Take(b, step))
  {
    var steps :| IsRun(maxsize, steps) && SizesIn(steps, K) && Exec(maxsize, steps) == b;
    RunExtends(maxsize, steps, step);
    assert SizesIn(steps + [step], K);
  }

  function Bytes(n: nat): seq<char> {
    seq(n, _ => 'x')
  }

  // Thread 1 wants the larger size and thread 2 the smaller one; the bytes thread 3 writes wake thread 1, which sleeps
  // again, and thread 2 sleeps on although it could read.
  lemma MixedSizesCanStrandAReader(maxsize: nat, small: nat, big: nat) returns (b: Buffer)
    requires 0 < small < big && small <= maxsize
    ensures Reachable(maxsize, {small, big}, b) && ReaderStranded(b)
    ensures b.content == Bytes(small) && b.sleepingReaders == {1, 2} && Wants(b, 1) == big && Wants(b, 2) == small
  {
    var K := {small, big};
    var b0 := NewBuffer(maxsize);
    StartReachable(maxsize, K);
    Reach(maxsize, K, b0, TryRead(1, big, None));
    var b1 := b0.(sleepingReaders := {1}, wants := b0.wants[1 := big]);
    assert Take(b0, TryRead(1, big, None)) == b1;
    Reach(maxsize, K, b1, TryRead(2, small, None));
    var b2 := b1.(sleepingReaders := {1, 2}, wants := b1.wants[2 := small]);
    assert Take(b1, TryRead(2, small, None)) == b2;
    Reach(maxsize, K, b2, TryWrite(3, Bytes(small), Some(1)));
    var b3 := b2.(sleepingReaders := {2}, wokenReaders := {1}, content := b2.content + Bytes(small),
                  written := b2.written + Bytes(small));
    assert Take(b2, TryWrite(3, Bytes(small), Some(1))) == b3;
    Reach(maxsize, K, b3, TryRead(1, big, None));
    b := Take(b3, TryRead(1, big, None));
    assert 2 in b.sleepingReaders && Wants(b, 2) <= |b.content|;
  }

  lemma StartReachable(maxsize: nat, K: set<nat>)
    ensures Reachable(maxsize, K, NewBuffer(maxsize))
  {
    var steps: seq<Step> := [];
    assert IsRun(maxsize, steps) && SizesIn(steps, K) && Exec(maxsize, steps) == NewBuffer(maxsize);
  }

  // Nobody sleeps and nobody has been woken.
  predicate Quiet(b: Buffer) {
    b.sleepingWriters == {} && b.wokenWriters == {} && b.sleepingReaders == {} && b.wokenReaders == {}
  }

  // Transfers that never wait.
  datatype Move = Put(size: nat) | Get(size: nat)

  function After(level: int, move: Move): int {
    match move
    case Put(size) => level + size
    case Get(size) => level - size
  }

  function Level(level: int, moves: seq<Move>): int
    decreases |moves|
  {
    if moves == [] then level else Level(After(level, moves[0]), moves[1..])
  }

  ghost predicate Fits(maxsize: nat, K: set<nat>, level: int, moves: seq<Move>)
    decreases |moves|
  {
    && 0 <= level <= maxsize
    && (moves == [] ||
        (moves[0].size in K && moves[0].size > 0 && Fits(maxsize, K, After(level, moves[0]), moves[1..])))
  }

  // Writing the smaller size while it fits, then reading it and writing the larger one while that fits.
  lemma {:induction false} FillUp(maxsize: nat, level: nat, small: nat, big: nat) returns (moves: seq<Move>)
    requires 0 < small < big && small <= level <= maxsize
    ensures Fits(maxsize, {small, big}, level, moves) && Level(level, moves) >= small
    ensures var free := maxsize - Level(level, moves); 0 <= free < small && free + small < big
    decreases maxsize - level
  {
    var free := maxsize - level;
    if free >= small {
      var rest := FillUp(maxsize, level + small, small, big);
      moves := [Put(small)] + rest;
      assert moves[1..] == rest;
    } else if free + small >= big {
      var rest := FillUp(maxsize, level - small + big, small, big);
      moves := [Get(small), Put(big)] + rest;
      assert moves[1..] == [Put(big)] + rest && moves[1..][1..] == rest;
    } else {
      moves := [];
    }
  }

  // From the empty buffer to one in which a read of the smaller size leaves too little room for the larger one.
  lemma FullBuffer(maxsize: nat, small: nat, big: nat) returns (moves: seq<Move>)
    requires 0 < small < big && small <= maxsize
    ensures Fits(maxsize, {small, big}, 0, moves)
    ensures var free := maxsize - Level(0, moves); 0 <= free < small && free + small < big
    ensures Level(0, moves) >= small
  {
    var size := if big <= maxsize then big else small;
    var rest := FillUp(maxsize, size, small, big);
    moves := [Put(size)] + rest;
    assert moves[1..] == rest;
  }

  lemma {:induction false} Perform(maxsize: nat, K: set<nat>, b: Buffer, moves: seq<Move>) returns (c: Buffer)
    requires Reachable(maxsize, K, b) && Quiet(b) && b.maxsize == maxsize && Fits(maxsize, K, |b.content|, moves)
    ensures Reachable(maxsize, K, c) && Quiet(c) && c.maxsize == maxsize && |c.content| == Level(|b.content|, moves)
    decreases |moves|
  {
    if moves == [] {
      c := b;
    } else {
      assert 0 <= After(|b.content|, moves[0]) <= maxsize;
      c := PerformOne(maxsize, K, b, moves[0]);
      c := Perform(maxsize, K, c, moves[1..]);
    }
  }

  lemma PerformOne(maxsize: nat, K: set<nat>, b: Buffer, move: Move) returns (c: Buffer)
    requires Reachable(maxsize, K, b) && Quiet(b) && b.maxsize == maxsize && move.size in K && move.size > 0
    requires 0 <= After(|b.content|, move) <= maxsize
    ensures Reachable(maxsize, K, c) && Quiet(c) && c.maxsize == maxsize && |c.content| == After(|b.content|, move)
  {
    var step := match move
      case Put(size) => TryWrite(0, Bytes(size), None)
      case Get(size) => TryRead(0, size, None);
    Reach(maxsize, K, b, step);
    c := Take(b, step);
  }

  // Writers likewise: thread 1 wants room for the larger size and thread 2 for the smaller one; the read by thread 3
  // wakes thread 1, which sleeps again.
  lemma MixedSizesCanStrandAWriter(maxsize: nat, small: nat, big: nat) returns (b: Buffer)
    requires 0 < small < big && small <= maxsize
    ensures Reachable(maxsize, {small, big}, b) && WriterStranded(b)
  {
    var K := {small, big};
    var moves := FullBuffer(maxsize, small, big);
    StartReachable(maxsize, K);
    var b0 := Perform(maxsize, K, NewBuffer(maxsize), moves);
    Reach(maxsize, K, b0, TryWrite(1, Bytes(big), None));
    var b1 := b0.(sleepingWriters := {1}, wants := b0.wants[1 := big]);
    assert Take(b0, TryWrite(1, Bytes(big), None)) == b1;
    Reach(maxsize, K, b1, TryWrite(2, Bytes(small), None));
    var b2 := b1.(sleepingWriters := {1, 2}, wants := b1.wants[2 := small]);
    assert Take(b1, TryWrite(2, Bytes(small), None)) == b2;
    Reach(maxsize, K, b2, TryRead(3, small, Some(1)));
    var b3 := b2.(sleepingWriters := {2}, wokenWriters := {1}, content := b2.content[small..],
                  read := b2.read + b2.content[..small]);
    assert Take(b2, TryRead(3, small, Some(1))) == b3;
    Reach(maxsize, K, b3, TryWrite(1, Bytes(big), None));
    b := Take(b3, TryWrite(1, Bytes(big), None));
    assert 2 in b.sleepingWriters && Wants(b, 2) <= b.maxsize - |b.content|;
  }

  // ---------- Sizes above maxsize ----------

  ghost predicate CanPass(maxsize: nat, steps: seq<Step>, step: Step) {
    IsRun(maxsize, steps) && CanStep(Exec(maxsize, steps), step) && Passes(Exec(maxsize, steps), step)
  }

  // A transfer can ever complete exactly if it fits into the buffer, whatever the header says about larger ones.
  lemma OnlyFittingTransfersComplete(maxsize: nat, data: seq<char>, t: Thread)
    ensures (exists steps, wake :: CanPass(maxsize, steps, TryWrite(t, data, wake))) <==>
            (0 < maxsize && |data| <= maxsize)
    ensures (exists steps, wake :: CanPass(maxsize, steps, TryRead(t, |data|, wake))) <==>
            (0 < maxsize && |data| <= maxsize)
  {
    forall steps, step | CanPass(maxsize, steps, step) ensures 0 < maxsize && Size(step) <= maxsize {
      ByteStream(maxsize, steps);
    }
    if 0 < maxsize && |data| <= maxsize {
      var s0: seq<Step> := [];
      assert CanPass(maxsize, s0, TryWrite(t, data, None));
      RunExtends(maxsize, s0, TryWrite(t, data, None));
      var s1 := s0 + [TryWrite(t, data, None)];
      assert CanPass(maxsize, s1, TryRead(t, |data|, None));
    }
  }
}
