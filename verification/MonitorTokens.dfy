/** The bounded buffer on the conditions that are built from semaphores.

    One pass of a waiting loop is a step: the test in sem->P, by a thread that sleeps or has been woken, the test of the
    loop, and then either the transfer with its signal or another wait.  A thread that gets through its wait at once,
    with a token meant for somebody else, looks again in its next step. */
module MonitorTokens {
  import opened Common
  import opened Sums
  import C = Conditions
  import M = Monitor

  // wants: the sizes threads have gone to sleep for.
  datatype Buffer = Buffer(
    maxsize: nat,
    content: seq<char>,
    written: seq<char>,
    read: seq<char>,
    notFull: C.Cond,
    notEmpty: C.Cond,
    wants: map<Thread, nat>)

  datatype Step = TryWrite(t: Thread, data: seq<char>) | TryRead(t: Thread, size: nat)

  function Size(step: Step): nat {
    match step
    case TryWrite(_, data) => |data|
    case TryRead(_, size) => size
  }

  function Wants(b: Buffer, t: Thread): nat {
    if t in b.wants then b.wants[t] else 0
  }

  // A thread that sleeps or has been woken goes on with its transfer.  The empty transfer crashes on a buffer of
  // size 0.
  predicate CanStep(b: Buffer, step: Step) {
    && (b.maxsize > 0 || Size(step) > 0)
    && step.t !in b.notFull.sem.queue && step.t !in b.notEmpty.sem.queue
    && (step.t in b.notFull.counted || step.t in b.notEmpty.counted ==> Size(step) == Wants(b, step.t))
    && match step
       case TryWrite(t, _) => t !in b.notEmpty.counted
       case TryRead(t, _) => t !in b.notFull.counted
  }

  // Out of sem->P with a token, back to sleep without one, or newly come.
  function Tested(c: C.Cond, t: Thread): C.Cond {
    if t in c.counted then C.Resume(c, t) else c
  }

  function Take(b: Buffer, step: Step): Buffer {
    match step
    case TryWrite(t, data) =>
      var c := Tested(b.notFull, t);
      if t in c.counted then b.(notFull := c)
      else if |data| > b.maxsize - |b.content| then b.(notFull := C.Enter(c, t), wants := b.wants[t := |data|])
      else b.(content := b.content + data, written := b.written + data, notFull := c,
              notEmpty := C.Take(b.notEmpty, C.Signal))
    case TryRead(t, size) =>
      var c := Tested(b.notEmpty, t);
      if t in c.counted then b.(notEmpty := c)
      else if size > |b.content| then b.(notEmpty := C.Enter(c, t), wants := b.wants[t := size])
      else b.(content := b.content[size..], read := b.read + b.content[..size], notEmpty := c,
              notFull := C.Take(b.notFull, C.Signal))
  }

  function NewBuffer(maxsize: nat): Buffer {
    Buffer(maxsize, [], [], [], C.NewCond(), C.NewCond(), map[])
  }

  function Exec(maxsize: nat, steps: seq<Step>): Buffer {
    if steps == [] then NewBuffer(maxsize) else Take(Exec(maxsize, steps[..|steps| - 1]), steps[|steps| - 1])
  }

  predicate IsRun(maxsize: nat, steps: seq<Step>) {
    steps == [] ||
    (IsRun(maxsize, steps[..|steps| - 1]) && CanStep(Exec(maxsize, steps[..|steps| - 1]), steps[|steps| - 1]))
  }

  lemma RunExtends(maxsize: nat, steps: seq<Step>, step: Step)
    requires IsRun(maxsize, steps) && CanStep(Exec(maxsize, steps), step)
    ensures IsRun(maxsize, steps + [step]) && Exec(maxsize, steps + [step]) == Take(Exec(maxsize, steps), step)
  {
    assert (steps + [step])[..|steps|] == steps;
  }

  // ---------- Invariant ----------

  ghost predicate Inv(b: Buffer) {
    && C.CondInv(b.notFull) && C.CondInv(b.notEmpty)
    && |b.content| <= b.maxsize && b.written == b.read + b.content
  }

  lemma TestedKeeps(c: C.Cond, t: Thread)
    requires C.CondInv(c) && t !in c.sem.queue
    ensures C.CondInv(Tested(c, t))
    ensures Tested(c, t).blockNum == c.blockNum
    ensures t !in Tested(c, t).counted ==>
              Tested(c, t).counted == c.counted - {t} &&
              Tested(c, t).sem.value == if t in c.counted then c.sem.value - 1 else c.sem.value
    ensures t in Tested(c, t).counted ==>
              c.sem.value == 0 && Tested(c, t).counted == c.counted && Tested(c, t).sem.value == 0
  {
    if t in c.counted { C.TakeKeeps(c, C.Test(t)); }
  }

  lemma EnterKeeps(c: C.Cond, t: Thread)
    requires C.CondInv(c) && t !in c.counted
    ensures C.CondInv(C.Enter(c, t)) && C.Enter(c, t).counted <= c.counted + {t}
  {
    C.TakeKeeps(c, C.Count(t));
    C.TakeKeeps(C.Take(c, C.Count(t)), C.Test(t));
  }

  lemma WriteKeeps(b: Buffer, t: Thread, data: seq<char>)
    requires Inv(b) && CanStep(b, TryWrite(t, data))
    ensures Inv(Take(b, TryWrite(t, data)))
  {
    var c := Tested(b.notFull, t);
    TestedKeeps(b.notFull, t);
    if t !in c.counted {
      if |data| > b.maxsize - |b.content| {
        EnterKeeps(c, t);
      } else {
        C.TakeKeeps(b.notEmpty, C.Signal);
        assert b.read + (b.content + data) == b.written + data;
      }
    }
  }

  lemma ReadKeeps(b: Buffer, t: Thread, size: nat)
    requires Inv(b) && CanStep(b, TryRead(t, size))
    ensures Inv(Take(b, TryRead(t, size)))
  {
    var c := Tested(b.notEmpty, t);
    TestedKeeps(b.notEmpty, t);
    if t !in c.counted {
      if size > |b.content| {
        EnterKeeps(c, t);
      } else {
        C.TakeKeeps(b.notFull, C.Signal);
        assert b.content == b.content[..size] + b.content[size..];
        assert b.written == (b.read + b.content[..size]) + b.content[size..];
      }
    }
  }

  // The thread gets through its wait, or does not wait, and its transfer fits.
  predicate Transfers(b: Buffer, step: Step) {
    match step
    case TryWrite(t, data) =>
      (t !in b.notFull.counted || b.notFull.sem.value != 0) && |data| <= b.maxsize - |b.content|
    case TryRead(t, size) =>
      (t !in b.notEmpty.counted || b.notEmpty.sem.value != 0) && size <= |b.content|
  }

  // The bytes of all the writes of the run, one after the other.
  function PutIn(maxsize: nat, steps: seq<Step>): seq<char> {
    if steps == [] then []
    else
      var front, last := steps[..|steps| - 1], steps[|steps| - 1];
      PutIn(maxsize, front) + if last.TryWrite? && Transfers(Exec(maxsize, front), last) then last.data else []
  }

  // The bytes that all the reads of the run took from the front of the buffer.
  function HandedOut(maxsize: nat, steps: seq<Step>): seq<char> {
    if steps == [] then []
    else
      var front, last := steps[..|steps| - 1], steps[|steps| - 1];
      HandedOut(maxsize, front) +
      if last.TryRead? && Transfers(Exec(maxsize, front), last) then Exec(maxsize, front).content[..last.size] else []
  }

  // Over every interleaving, barging or not, what was put in is what was handed out and then the content.
  lemma {:induction false} ByteStream(maxsize: nat, steps: seq<Step>)
    requires IsRun(maxsize, steps)
    ensures var b := Exec(maxsize, steps);
            && b.maxsize == maxsize && |b.content| <= maxsize && Inv(b)
            && PutIn(maxsize, steps) == HandedOut(maxsize, steps) + b.content
            && b.written == PutIn(maxsize, steps) && b.read == HandedOut(maxsize, steps)
  {
    if steps != [] {
      var n := |steps| - 1;
      var front := steps[..n];
      ByteStream(maxsize, front);
      StreamStep(Exec(maxsize, front), steps[n]);
      match steps[n] {
        case TryWrite(t, data) => WriteKeeps(Exec(maxsize, front), t, data);
        case TryRead(t, size) => ReadKeeps(Exec(maxsize, front), t, size);
      }
    }
  }

  lemma StreamStep(b: Buffer, step: Step)
    requires Inv(b) && CanStep(b, step)
    ensures var c := Take(b, step);
            && c.maxsize == b.maxsize
            && c.written == b.written + (if step.TryWrite? && Transfers(b, step) then step.data else [])
            && c.read == b.read + (if step.TryRead? && Transfers(b, step) then b.content[..step.size] else [])
  {
    TestedKeeps(if step.TryWrite? then b.notFull else b.notEmpty, step.t);
  }

  // ---------- One size ----------

  ghost predicate NothingOr(steps: seq<Step>, k: nat) {
    forall i | 0 <= i < |steps| :: Size(steps[i]) == 0 || Size(steps[i]) == k
  }

  // While somebody waits without having been signalled, there is a token for each of the n transfers that could be
  // made.
  predicate Covers(c: C.Cond, n: nat) {
    c.blockNum > 0 ==> n <= c.sem.value
  }

  // The buffer holds `full` transfers and has room for `room` more, and a spare too small for another one.
  ghost predicate FlowInv(b: Buffer, k: nat, full: nat, room: nat, spare: nat) {
    && |b.content| == Worth(full, k) && b.maxsize - |b.content| == Worth(room, k) + spare && spare < k
    && Covers(b.notEmpty, full) && Covers(b.notFull, room)
  }

  ghost predicate AllWant(b: Buffer, k: nat) {
    forall t | Counted(b, t) :: Wants(b, t) == k
  }

  lemma SignalCovers(c: C.Cond, n: nat)
    requires Covers(c, n) && c.blockNum >= 0
    ensures Covers(C.Take(c, C.Signal), n + 1)
    ensures Covers(C.Take(c, C.Signal), n)
  {
  }

  lemma TestedCovers(c: C.Cond, t: Thread, n: nat)
    requires C.CondInv(c) && t !in c.sem.queue && Covers(c, n)
    ensures n > 0 && t !in Tested(c, t).counted ==> Covers(Tested(c, t), n - 1)
    ensures t in Tested(c, t).counted || t !in c.counted ==> Covers(Tested(c, t), n)
    ensures C.CondInv(Tested(c, t))
  {
    TestedKeeps(c, t);
  }

  lemma EnterCoversNone(c: C.Cond, t: Thread)
    requires C.CondInv(c) && t !in c.counted
    ensures Covers(C.Enter(c, t), 0)
  {
    EnterKeeps(c, t);
  }

  lemma WriteFlows(b: Buffer, t: Thread, data: seq<char>, k: nat, full: nat, room: nat, spare: nat)
    returns (full': nat, room': nat)
    requires Inv(b) && FlowInv(b, k, full, room, spare) && CanStep(b, TryWrite(t, data))
    requires |data| == k || (|data| == 0 && t !in b.notFull.counted)
    ensures FlowInv(Take(b, TryWrite(t, data)), k, full', room', spare)
  {
    full', room' := full, room;
    var c := Tested(b.notFull, t);
    TestedKeeps(b.notFull, t);
    TestedCovers(b.notFull, t, room);
    if t !in c.counted {
      SignalCovers(b.notEmpty, full);
      if |data| > 0 && room == 0 {
        EnterCoversNone(c, t);
      } else if |data| > 0 {
        full', room' := full + 1, room - 1;
      }
    }
  }

  lemma ReadFlows(b: Buffer, t: Thread, size: nat, k: nat, full: nat, room: nat, spare: nat)
    returns (full': nat, room': nat)
    requires Inv(b) && FlowInv(b, k, full, room, spare) && CanStep(b, TryRead(t, size))
    requires size == k || (size == 0 && t !in b.notEmpty.counted)
    ensures FlowInv(Take(b, TryRead(t, size)), k, full', room', spare)
  {
    full', room' := full, room;
    var c := Tested(b.notEmpty, t);
    TestedKeeps(b.notEmpty, t);
    TestedCovers(b.notEmpty, t, full);
    if t !in c.counted {
      SignalCovers(b.notFull, room);
      if size > 0 && full == 0 {
        EnterCoversNone(c, t);
      } else if size > 0 {
        full', room' := full - 1, room + 1;
      }
    }
  }

  predicate Counted(b: Buffer, t: Thread) {
    t in b.notFull.counted || t in b.notEmpty.counted
  }

  // Whoever is counted after a step was counted before, for the same size, or has just come and does not fit.
  lemma WriteCounts(b: Buffer, t: Thread, data: seq<char>, u: Thread)
    requires Inv(b) && CanStep(b, TryWrite(t, data)) && Counted(Take(b, TryWrite(t, data)), u)
    ensures var d := Take(b, TryWrite(t, data));
            (Counted(b, u) && Wants(d, u) == Wants(b, u)) || (Wants(d, u) == |data| > b.maxsize - |b.content|)
  {
    var c := Tested(b.notFull, t);
    TestedKeeps(b.notFull, t);
    if t !in c.counted { EnterKeeps(c, t); }
  }

  lemma ReadCounts(b: Buffer, t: Thread, size: nat, u: Thread)
    requires Inv(b) && CanStep(b, TryRead(t, size)) && Counted(Take(b, TryRead(t, size)), u)
    ensures var d := Take(b, TryRead(t, size));
            (Counted(b, u) && Wants(d, u) == Wants(b, u)) || (Wants(d, u) == size > |b.content|)
  {
    var c := Tested(b.notEmpty, t);
    TestedKeeps(b.notEmpty, t);
    if t !in c.counted { EnterKeeps(c, t); }
  }

  lemma StepCounts(b: Buffer, step: Step, u: Thread)
    requires Inv(b) && CanStep(b, step) && Counted(Take(b, step), u)
    ensures (Counted(b, u) && Wants(Take(b, step), u) == Wants(b, u)) || (Wants(Take(b, step), u) == Size(step) > 0)
  {
    match step {
      case TryWrite(t, data) => WriteCounts(b, t, data, u);
      case TryRead(t, size) => ReadCounts(b, t, size, u);
    }
  }

  lemma WantsKept(b: Buffer, step: Step, k: nat)
    requires Inv(b) && AllWant(b, k) && CanStep(b, step) && (Size(step) == 0 || Size(step) == k)
    ensures AllWant(Take(b, step), k)
  {
    forall u | Counted(Take(b, step), u) ensures Wants(Take(b, step), u) == k {
      StepCounts(b, step, u);
    }
  }

  lemma {:induction false} RunFlows(maxsize: nat, steps: seq<Step>, k: nat) returns (full: nat, room: nat, spare: nat)
    requires IsRun(maxsize, steps) && NothingOr(steps, k) && k > 0
    ensures FlowInv(Exec(maxsize, steps), k, full, room, spare) && AllWant(Exec(maxsize, steps), k)
  {
    if steps == [] {
      full := 0;
      room, spare := M.UnitsDivide(maxsize, k);
    } else {
      var n := |steps| - 1;
      full, room, spare := RunFlows(maxsize, steps[..n], k);
      var b := Exec(maxsize, steps[..n]);
      ByteStream(maxsize, steps[..n]);
      assert Counted(b, steps[n].t) ==> Wants(b, steps[n].t) == k;
      WantsKept(b, steps[n], k);
      match steps[n] {
        case TryWrite(t, data) => full, room := WriteFlows(b, t, data, k, full, room, spare);
        case TryRead(t, size) => full, room := ReadFlows(b, t, size, k, full, room, spare);
      }
    }
  }

  // Whoever sleeps has not been signalled.
  lemma SleeperIsBlocked(c: C.Cond)
    requires C.CondInv(c) && c.sem.queue != []
    ensures c.blockNum > 0 && c.sem.value <= |c.sem.woken|
  {
    C.QueueFits(c.sem.queue, c.sem.woken, c.counted);
  }

  // There are tokens, and woken threads, for all transfers that could be made.
  ghost predicate EnoughTokens(b: Buffer, k: nat)
    requires k > 0
  {
    && (b.notEmpty.sem.queue != [] ==> |b.content| / k <= b.notEmpty.sem.value <= |b.notEmpty.sem.woken|)
    && (b.notFull.sem.queue != [] ==> (b.maxsize - |b.content|) / k <= b.notFull.sem.value <= |b.notFull.sem.woken|)
  }

  // With one size, what holds on documented conditions holds on these, barging or not.
  lemma {:induction false} EqualSizesWakeEnough(maxsize: nat, steps: seq<Step>, k: nat)
    requires IsRun(maxsize, steps) && NothingOr(steps, k) && k > 0
    ensures EnoughTokens(Exec(maxsize, steps), k)
  {
    var b := Exec(maxsize, steps);
    var full, room, spare := RunFlows(maxsize, steps, k);
    ByteStream(maxsize, steps);
    FlowQuotients(b, k, full, room, spare);
  }

  lemma FlowQuotients(b: Buffer, k: nat, full: nat, room: nat, spare: nat)
    requires Inv(b) && FlowInv(b, k, full, room, spare) && k > 0
    ensures EnoughTokens(b, k)
  {
    M.WorthIsQuotient(|b.content|, full, k);
    M.WorthIsQuotient(b.maxsize - |b.content|, room, k);
    if b.notEmpty.sem.queue != [] { SleeperIsBlocked(b.notEmpty); }
    if b.notFull.sem.queue != [] { SleeperIsBlocked(b.notFull); }
  }

  // ---------- When one Signal per transfer is enough ----------

  ghost predicate Reachable(maxsize: nat, K: set<nat>, b: Buffer) {
    exists steps :: IsRun(maxsize, steps) && SizesIn(steps, K) && Exec(maxsize, steps) == b
  }

  ghost predicate SizesIn(steps: seq<Step>, K: set<nat>) {
    forall i | 0 <= i < |steps| :: Size(steps[i]) in K
  }

  // A reader sleeps although its bytes are there, and there is no token to get anybody through.
  ghost predicate ReaderStranded(b: Buffer) {
    b.notEmpty.sem.value == 0 && exists t | t in b.notEmpty.sem.queue :: Wants(b, t) <= |b.content|
  }

  ghost predicate WriterStranded(b: Buffer) {
    b.notFull.sem.value == 0 && exists t | t in b.notFull.sem.queue :: Wants(b, t) <= b.maxsize - |b.content|
  }

  // It is for the same sets of sizes as on documented conditions.
  lemma {:induction false} OneSignalIsEnough(maxsize: nat, K: set<nat>)
    ensures (forall b | Reachable(maxsize, K, b) :: !ReaderStranded(b)) <==> M.OneSize(maxsize, K)
    ensures (forall b | Reachable(maxsize, K, b) :: !WriterStranded(b)) <==> M.OneSize(maxsize, K)
  {
    if M.OneSize(maxsize, K) {
      forall b | Reachable(maxsize, K, b) ensures !ReaderStranded(b) && !WriterStranded(b) {
        OneSizeStrandsNobody(maxsize, K, b);
      }
    } else {
      var j, k :| j in K && k in K && 0 < j < k && j <= maxsize;
      var b := MixedSizesCanStrandAReader(maxsize, j, k);
      var c := MixedSizesCanStrandAWriter(maxsize, j, k);
      FewerSizes(maxsize, {j, k}, K, b);
      FewerSizes(maxsize, {j, k}, K, c);
    }
  }

  lemma FewerSizes(maxsize: nat, J: set<nat>, K: set<nat>, b: Buffer)
    requires J <= K && Reachable(maxsize, J, b)
    ensures Reachable(maxsize, K, b)
  {
    var steps :| IsRun(maxsize, steps) && SizesIn(steps, J) && Exec(maxsize, steps) == b;
    assert SizesIn(steps, K);
  }

  lemma OneSizeStrandsNobody(maxsize: nat, K: set<nat>, b: Buffer)
    requires M.OneSize(maxsize, K) && Reachable(maxsize, K, b)
    ensures !ReaderStranded(b) && !WriterStranded(b)
  {
    var steps :| IsRun(maxsize, steps) && SizesIn(steps, K) && Exec(maxsize, steps) == b;
    ByteStream(maxsize, steps);
    if k :| k in K && 0 < k <= maxsize {
      assert NothingOr(steps, k);
      var full, room, spare := RunFlows(maxsize, steps, k);
      FlowStrandsNobody(b, k, full, room, spare);
    } else {
      NothingFits(maxsize, steps);
      assert forall t | t in b.notEmpty.sem.queue || t in b.notFull.sem.queue :: Counted(b, t);
    }
  }

  lemma FlowStrandsNobody(b: Buffer, k: nat, full: nat, room: nat, spare: nat)
    requires Inv(b) && FlowInv(b, k, full, room, spare) && AllWant(b, k)
    ensures !ReaderStranded(b) && !WriterStranded(b)
  {
    M.FullOrNot(full, k);
    M.FullOrNot(room, k);
    if b.notEmpty.sem.queue != [] { SleeperIsBlocked(b.notEmpty); }
    if b.notFull.sem.queue != [] { SleeperIsBlocked(b.notFull); }
    assert forall t | t in b.notEmpty.sem.queue || t in b.notFull.sem.queue :: Counted(b, t) && Wants(b, t) == k;
  }

  ghost predicate AllTooLarge(b: Buffer) {
    forall t | Counted(b, t) :: Wants(b, t) > b.maxsize
  }

  lemma TooLargeKept(b: Buffer, step: Step)
    requires Inv(b) && AllTooLarge(b) && b.content == [] && CanStep(b, step)
    requires Size(step) == 0 || Size(step) > b.maxsize
    ensures AllTooLarge(Take(b, step)) && Take(b, step).content == []
  {
    forall u | Counted(Take(b, step), u) ensures Wants(Take(b, step), u) > b.maxsize {
      StepCounts(b, step, u);
    }
  }

  lemma {:induction false} NothingFits(maxsize: nat, steps: seq<Step>)
    requires IsRun(maxsize, steps)
    requires forall i | 0 <= i < |steps| :: Size(steps[i]) == 0 || Size(steps[i]) > maxsize
    ensures AllTooLarge(Exec(maxsize, steps)) && Exec(maxsize, steps).content == []
  {
    if steps != [] {
      var n := |steps| - 1;
      NothingFits(maxsize, steps[..n]);
      ByteStream(maxsize, steps[..n]);
      TooLargeKept(Exec(maxsize, steps[..n]), steps[n]);
    }
  }

  // ---------- Two sizes ----------

  lemma StartReachable(maxsize: nat, K: set<nat>)
    ensures Reachable(maxsize, K, NewBuffer(maxsize))
  {
    var steps: seq<Step> := [];
    assert IsRun(maxsize, steps) && SizesIn(steps, K) && Exec(maxsize, steps) == NewBuffer(maxsize);
  }

  lemma Reach(maxsize: nat, K: set<nat>, b: Buffer, step: Step)
    requires Reachable(maxsize, K, b) && CanStep(b, step) && Size(step) in K
    ensures Reachable(maxsize, K, Take(b, step))
  {
    var steps :| IsRun(maxsize, steps) && SizesIn(steps, K) && Exec(maxsize, steps) == b;
    RunExtends(maxsize, steps, step);
    assert SizesIn(steps + [step], K);
  }

  predicate Quiet(b: Buffer) {
    b.notFull == C.NewCond() && b.notEmpty == C.NewCond()
  }

  lemma {:induction false} Perform(maxsize: nat, K: set<nat>, b: Buffer, moves: seq<M.Move>) returns (c: Buffer)
    requires Reachable(maxsize, K, b) && Quiet(b) && b.maxsize == maxsize && M.Fits(maxsize, K, |b.content|, moves)
    ensures Reachable(maxsize, K, c) && Quiet(c) && c.maxsize == maxsize
    ensures |c.content| == M.Level(|b.content|, moves)
    decreases |moves|
  {
    if moves == [] {
      c := b;
    } else {
      assert 0 <= M.After(|b.content|, moves[0]) <= maxsize;
      c := PerformOne(maxsize, K, b, moves[0]);
      c := Perform(maxsize, K, c, moves[1..]);
    }
  }

  lemma PerformOne(maxsize: nat, K: set<nat>, b: Buffer, move: M.Move) returns (c: Buffer)
    requires Reachable(maxsize, K, b) && Quiet(b) && b.maxsize == maxsize && move.size in K && move.size > 0
    requires 0 <= M.After(|b.content|, move) <= maxsize
    ensures Reachable(maxsize, K, c) && Quiet(c) && c.maxsize == maxsize && |c.content| == M.After(|b.content|, move)
  {
    var step := match move
      case Put(size) => TryWrite(0, M.Bytes(size))
      case Get(size) => TryRead(0, size);
    Reach(maxsize, K, b, step);
    c := Take(b, step);
  }

  // Threads 1 and 2 asleep one after the other on a condition nobody else waits on.
  lemma TwoSleep()
    ensures var c := C.Enter(C.Enter(C.NewCond(), 1), 2);
            && c.counted == {1, 2} && c.sem.queue == [1, 2] && c.sem.value == 0 && c.blockNum == 2
    ensures C.Enter(C.NewCond(), 1).counted == {1} && C.Enter(C.NewCond(), 1).sem.queue == [1]
  {
  }

  // A signal wakes the first of them, which takes the token and waits again.
  lemma FirstSleepsAgain(c: C.Cond)
    requires c.counted == {1, 2} && c.sem.queue == [1, 2] && c.sem.value == 0 && c.blockNum == 2
    ensures var d := C.Take(c, C.Signal);
            && d.counted == {1, 2} && d.sem.queue == [2] && 1 !in Tested(d, 1).counted
            && C.Enter(Tested(d, 1), 1).sem.queue == [2, 1] && C.Enter(Tested(d, 1), 1).sem.value == 0
  {
  }

  lemma MixedSizesCanStrandAReader(maxsize: nat, small: nat, big: nat) returns (b: Buffer)
    requires 0 < small < big && small <= maxsize
    ensures Reachable(maxsize, {small, big}, b) && ReaderStranded(b)
  {
    var K := {small, big};
    TwoSleep();
    var b0 := NewBuffer(maxsize);
    StartReachable(maxsize, K);
    Reach(maxsize, K, b0, TryRead(1, big));
    var b1 := b0.(notEmpty := C.Enter(C.NewCond(), 1), wants := b0.wants[1 := big]);
    assert Take(b0, TryRead(1, big)) == b1;
    Reach(maxsize, K, b1, TryRead(2, small));
    var c := C.Enter(C.Enter(C.NewCond(), 1), 2);
    var b2 := b1.(notEmpty := c, wants := b1.wants[2 := small]);
    assert Take(b1, TryRead(2, small)) == b2;
    FirstSleepsAgain(c);
    Reach(maxsize, K, b2, TryWrite(3, M.Bytes(small)));
    var b3 := b2.(notEmpty := C.Take(c, C.Signal), content := b2.content + M.Bytes(small),
                  written := b2.written + M.Bytes(small));
    assert Take(b2, TryWrite(3, M.Bytes(small))) == b3;
    Reach(maxsize, K, b3, TryRead(1, big));
    b := Take(b3, TryRead(1, big));
    assert b.notEmpty.sem.queue == [2, 1];
    assert 2 in b.notEmpty.sem.queue && Wants(b, 2) <= |b.content|;
  }

  lemma MixedSizesCanStrandAWriter(maxsize: nat, small: nat, big: nat) returns (b: Buffer)
    requires 0 < small < big && small <= maxsize
    ensures Reachable(maxsize, {small, big}, b) && WriterStranded(b)
  {
    var K := {small, big};
    TwoSleep();
    var moves := M.FullBuffer(maxsize, small, big);
    StartReachable(maxsize, K);
    var b0 := Perform(maxsize, K, NewBuffer(maxsize), moves);
    Reach(maxsize, K, b0, TryWrite(1, M.Bytes(big)));
    var b1 := b0.(notFull := C.Enter(C.NewCond(), 1), wants := b0.wants[1 := big]);
    assert Take(b0, TryWrite(1, M.Bytes(big))) == b1;
    Reach(maxsize, K, b1, TryWrite(2, M.Bytes(small)));
    var c := C.Enter(C.Enter(C.NewCond(), 1), 2);
    var b2 := b1.(notFull := c, wants := b1.wants[2 := small]);
    assert Take(b1, TryWrite(2, M.Bytes(small))) == b2;
    FirstSleepsAgain(c);
    Reach(maxsize, K, b2, TryRead(3, small));
    var b3 := b2.(notFull := C.Take(c, C.Signal), content := b2.content[small..],
                  read := b2.read + b2.content[..small]);
    assert Take(b2, TryRead(3, small)) == b3;
    Reach(maxsize, K, b3, TryWrite(1, M.Bytes(big)));
    b := Take(b3, TryWrite(1, M.Bytes(big)));
    assert b.notFull.sem.queue == [2, 1];
    assert 2 in b.notFull.sem.queue && Wants(b, 2) <= b.maxsize - |b.content|;
  }
}
