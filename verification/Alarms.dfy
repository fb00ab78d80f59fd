/** The alarm: a queue of sleeping threads ordered by due time, checked by the timer while a clock ticks. */
module Alarms {
  import opened Common
  import opened DLLists
  import opened KeyedLists

  // ---------- What one check does ----------

  // The entries one check wakes, in the order it wakes them.
  function Due<T>(queue: seq<Entry<T>>, now: int): seq<Entry<T>> {
    queue[..Place(queue, now)]
  }

  // The entries it leaves: the first one that is not due has been taken out and put back.
  function Left<T>(queue: seq<Entry<T>>, now: int): seq<Entry<T>> {
    var p := Place(queue, now);
    if p == |queue| then [] else Insert(queue[p + 1..], queue[p].0, queue[p].1)
  }

  // What the loop of a check ends with, given what it has made ready and the entry it has in hand.
  function Loop<T>(ready: seq<Entry<T>>, hand: Option<Entry<T>>, queue: seq<Entry<T>>, now: int)
    : (seq<Entry<T>>, seq<Entry<T>>)
    decreases |queue|
  {
    if hand == None then (ready, queue)
    else if hand.value.0 > now then (ready, Insert(queue, hand.value.0, hand.value.1))
    else if queue == [] then (ready + [hand.value], [])
    else Loop(ready + [hand.value], Some(queue[0]), queue[1..], now)
  }

  // A turn of the loop makes the entry in hand ready and takes the next one out.
  lemma LoopTurns<T>(ready: seq<Entry<T>>, entry: Entry<T>, queue: seq<Entry<T>>, now: int,
                     next: Option<Entry<T>>, rest: seq<Entry<T>>)
    requires entry.0 <= now
    requires if queue == [] then next == None && rest == [] else next == Some(queue[0]) && rest == queue[1..]
    ensures Loop(ready, Some(entry), queue, now) == Loop(ready + [entry], next, rest, now)
  {
  }

  lemma {:induction false} LoopIsCheck<T>(ready: seq<Entry<T>>, queue: seq<Entry<T>>, now: int)
    requires queue != []
    ensures Loop(ready, Some(queue[0]), queue[1..], now).0 == ready + Due(queue, now)
    ensures Loop(ready, Some(queue[0]), queue[1..], now).1 == Left(queue, now)
    decreases |queue|
  {
    var rest := queue[1..];
    if queue[0].0 > now {
      assert ready + Due(queue, now) == ready;
    } else {
      var p := Place(rest, now);
      assert Place(queue, now) == p + 1 by {
        assert forall i | 1 <= i < p + 1 :: queue[i] == rest[i - 1];
        assert p < |rest| ==> queue[p + 1] == rest[p];
        assert forall i | 0 <= i < p && i + 1 < |queue| :: rest[i] == queue[i + 1];
      }
      assert queue[..p + 1] == [queue[0]] + rest[..p];
      assert ready + Due(queue, now) == (ready + [queue[0]]) + Due(rest, now);
      if rest != [] {
        LoopIsCheck(ready + [queue[0]], rest, now);
        if p < |rest| { assert queue[p + 2..] == rest[p + 1..]; }
      } else {
        assert ready + Due(queue, now) == ready + [queue[0]];
      }
    }
  }

  // The whole check, starting with the removal of the first entry.
  function CheckOutcome<T>(queue: seq<Entry<T>>, now: int): (seq<Entry<T>>, seq<Entry<T>>) {
    if queue == [] then Loop([], None, [], now) else Loop([], Some(queue[0]), queue[1..], now)
  }

  lemma CheckIsLoop<T>(queue: seq<Entry<T>>, now: int)
    ensures CheckOutcome(queue, now) == (Due(queue, now), Left(queue, now))
  {
    if queue != [] {
      LoopIsCheck([], queue, now);
      assert [] + Due(queue, now) == Due(queue, now);
    }
  }

  lemma TailIsSorted<T>(queue: seq<Entry<T>>, n: nat)
    requires Sorted(queue) && n <= |queue|
    ensures Sorted(queue[..n]) && Sorted(queue[n..])
  {
    var tail := queue[n..];
    forall i, j | 0 <= i < j < |tail| ensures tail[i].0 <= tail[j].0 {
      assert tail[i] == queue[n + i] && tail[j] == queue[n + j];
    }
  }

  lemma LeftIsLater<T>(queue: seq<Entry<T>>, now: int, i: nat)
    requires Sorted(queue) && i < |Left(queue, now)|
    ensures Left(queue, now)[i].0 > now
  {
    var p := Place(queue, now);
    var tail := queue[p + 1..];
    var q := Place(tail, queue[p].0);
    InsertAt(tail, queue[p].0, queue[p].1);
    if i < q {
      assert tail[i] == queue[p + 1 + i] && queue[p].0 <= queue[p + 1 + i].0;
    } else if i > q {
      assert tail[i - 1] == queue[p + i] && queue[p].0 <= queue[p + i].0;
    }
  }

  lemma LeftIsSorted<T>(queue: seq<Entry<T>>, now: int)
    requires Sorted(queue)
    ensures Sorted(Left(queue, now))
  {
    var p := Place(queue, now);
    if p < |queue| {
      TailIsSorted(queue, p + 1);
      PutBackIsSorted(queue, queue[p + 1..], now);
    }
  }

  lemma PutBackIsSorted<T>(queue: seq<Entry<T>>, tail: seq<Entry<T>>, now: int)
    requires var p := Place(queue, now); p < |queue| && tail == queue[p + 1..] && Sorted(tail)
    ensures Sorted(Left(queue, now))
  {
    var p := Place(queue, now);
    InsertKeepsSorted(tail, queue[p].0, queue[p].1);
  }

  // A check wakes exactly the threads whose time has come, earliest first.
  lemma {:induction false} CheckIsExact<T>(queue: seq<Entry<T>>, now: int)
    requires Sorted(queue)
    ensures Due(queue, now) <= queue
    ensures Sorted(Due(queue, now)) && Sorted(Left(queue, now))
    ensures forall i | 0 <= i < |Due(queue, now)| :: Due(queue, now)[i].0 <= now
    ensures forall i | 0 <= i < |Left(queue, now)| :: Left(queue, now)[i].0 > now
  {
    assert Sorted(Due(queue, now)) by { TailIsSorted(queue, Place(queue, now)); }
    LeftIsSorted(queue, now);
    forall i | 0 <= i < |Left(queue, now)| ensures Left(queue, now)[i].0 > now {
      LeftIsLater(queue, now, i);
    }
  }

  // It loses nobody.
  lemma CheckLosesNobody<T>(queue: seq<Entry<T>>, now: int)
    ensures multiset(queue) == multiset(Due(queue, now)) + multiset(Left(queue, now))
  {
    var p := Place(queue, now);
    if p == |queue| {
      assert queue == queue[..p];
    } else {
      var tail := queue[p + 1..];
      InsertAdds(tail, queue[p]);
      assert queue == queue[..p] + ([queue[p]] + tail);
    }
  }

  lemma InsertAdds<T>(s: seq<Entry<T>>, e: Entry<T>)
    ensures multiset(Insert(s, e.0, e.1)) == multiset([e] + s)
  {
    var p := Place(s, e.0);
    assert s == s[..p] + s[p..];
  }

  // The order among equal due times is not kept: the entry that is put back goes behind its equals.
  lemma EqualDeadlinesRotate(a: nat, b: nat)
    ensures Left([(5, a), (5, b)], 3) == [(5, b), (5, a)]
  {
    var s := [(5, a), (5, b)];
    assert s[1..] == [(5, b)];
    assert Place([(5, b)], 5) == 1 by {
      assert [(5, b)][1..] == [];
    }
    assert Insert(s[1..], 5, a) == [(5, b), (5, a)];
  }

  // Entry 0 goes behind its q equals.
  ghost predicate Rotated<T>(rest: seq<Entry<T>>, t: seq<Entry<T>>, q: nat) {
    && q < |rest| == |t|
    && (forall i | 0 <= i < q :: t[i] == rest[i + 1]) && t[q] == rest[0]
    && (forall i | q < i < |t| :: t[i] == rest[i])
    && (forall i | 0 <= i < |rest| :: rest[i].0 == rest[0].0 <==> i <= q)
  }

  lemma InsertRotates<T>(rest: seq<Entry<T>>, tail: seq<Entry<T>>)
    requires rest != [] && tail == rest[1..] && Sorted(rest)
    ensures Rotated(rest, Insert(tail, rest[0].0, rest[0].1), Place(tail, rest[0].0))
  {
    var q := Place(tail, rest[0].0);
    InsertAt(tail, rest[0].0, rest[0].1);
    assert forall i | 0 <= i < |tail| :: tail[i] == rest[i + 1];
    forall i: nat | i < |rest| ensures rest[i].0 == rest[0].0 <==> i <= q {
      EqualsComeFirst(rest, tail, i);
    }
  }

  lemma EqualsComeFirst<T>(rest: seq<Entry<T>>, tail: seq<Entry<T>>, i: nat)
    requires rest != [] && tail == rest[1..] && Sorted(rest) && i < |rest|
    ensures rest[i].0 == rest[0].0 <==> i <= Place(tail, rest[0].0)
  {
    var q := Place(tail, rest[0].0);
    if 0 < i {
      assert rest[i] == tail[i - 1] && rest[0].0 <= rest[i].0;
      if q < i { assert tail[q] == rest[q + 1] && rest[q + 1].0 <= rest[i].0; }
    }
  }

  lemma LeftIsRotated<T>(queue: seq<Entry<T>>, now: int)
    requires Sorted(queue) && Place(queue, now) < |queue|
    ensures var p := Place(queue, now);
            Rotated(queue[p..], Left(queue, now), Place(queue[p + 1..], queue[p].0))
  {
    var p := Place(queue, now);
    var rest := queue[p..];
    assert rest[1..] == queue[p + 1..];
    InsertRotates(rest, queue[p + 1..]);
  }

  // It is kept exactly if the entries left with the earliest due time are all the same.
  lemma {:induction false} OrderKeptUnlessEqual<T>(queue: seq<Entry<T>>, now: int)
    requires Sorted(queue) && Place(queue, now) < |queue|
    ensures var rest := queue[Place(queue, now)..];
            Left(queue, now) == rest <==>
            forall i | 0 <= i < |rest| && rest[i].0 == rest[0].0 :: rest[i] == rest[0]
  {
    var p := Place(queue, now);
    LeftIsRotated(queue, now);
    RotationFixes(queue[p..], Left(queue, now), Place(queue[p + 1..], queue[p].0));
  }

  lemma RotationFixes<T>(rest: seq<Entry<T>>, t: seq<Entry<T>>, q: nat)
    requires Rotated(rest, t, q)
    ensures t == rest <==> forall i | 0 <= i < |rest| && rest[i].0 == rest[0].0 :: rest[i] == rest[0]
  {
    if t == rest {
      RotationIsConstant(rest, t, q);
    } else if forall i | 0 <= i < |rest| && rest[i].0 == rest[0].0 :: rest[i] == rest[0] {
      forall i | 0 <= i < |rest| ensures t[i] == rest[i] {
        if i < q { assert rest[i + 1] == rest[0]; }
        if i <= q { assert rest[i] == rest[0]; }
      }
    }
  }

  lemma {:induction false} RotationIsConstant<T>(s: seq<T>, t: seq<T>, q: nat)
    requires q < |s| && s == t
    requires forall i | 0 <= i < q :: t[i] == s[i + 1]
    ensures forall i | 0 <= i <= q :: s[i] == s[0]
  {
    if q > 0 {
      RotationIsConstant(s, t, q - 1);
      assert t[q - 1] == s[q];
    }
  }

  // ---------- The alarm over a ticking clock ----------

  datatype Sleeper = Sleeper(thread: Thread, begun: int, howLong: int)

  datatype Wakening = Wakening(sleeper: Sleeper, at: int)

  // ticks: TimerTicks.  period: the timer runs a check at least every so many ticks.
  // checkThreads: threads in `check` that have not finished.
  // paused: the entries of all the calls of Pause so far; served: those woken, in order.
  datatype State = State(
    ticks: nat,
    period: nat,
    now: int,
    lastCheck: int,
    queue: seq<Entry<Sleeper>>,
    waiters: int,
    checkThreads: nat,
    woken: seq<Wakening>,
    paused: multiset<Entry<Sleeper>>,
    served: seq<Entry<Sleeper>>)

  datatype Step = Tick(n: nat) | Pause(thread: Thread, howLong: int) | TimerCheck | CheckThread

  predicate CanStep(s: State, step: Step) {
    match step
    case Tick(n) => s.now + n <= s.lastCheck + s.period
    case Pause(_, _) => true
    case TimerCheck => true
    case CheckThread => s.checkThreads > 0
  }

  function Wakenings(due: seq<Entry<Sleeper>>, at: int): seq<Wakening> {
    seq(|due|, i requires 0 <= i < |due| => Wakening(due[i].1, at))
  }

  function DueTime(ticks: nat, sleeper: Sleeper): int {
    sleeper.begun + ticks * sleeper.howLong
  }

  // The due time, or the call itself when the due time is past already (howLong negative).
  function Owed(ticks: nat, sleeper: Sleeper): int {
    if DueTime(ticks, sleeper) < sleeper.begun then sleeper.begun else DueTime(ticks, sleeper)
  }

  function Take(s: State, step: Step): State {
    match step
    case Tick(n) => s.(now := s.now + n)
    case Pause(thread, howLong) =>
      var sleeper := Sleeper(thread, s.now, howLong);
      s.(waiters := s.waiters + 1,
         checkThreads := if s.waiters + 1 == 1 then s.checkThreads + 1 else s.checkThreads,
         queue := Insert(s.queue, DueTime(s.ticks, sleeper), sleeper),
         paused := s.paused + multiset{(DueTime(s.ticks, sleeper), sleeper)})
    case TimerCheck =>
      s.(lastCheck := s.now,
         queue := Left(s.queue, s.now),
         waiters := s.waiters - |Due(s.queue, s.now)|,
         woken := s.woken + Wakenings(Due(s.queue, s.now), s.now),
         served := s.served + Due(s.queue, s.now))
    case CheckThread => if s.waiters == 0 && s.checkThreads > 0 then s.(checkThreads := s.checkThreads - 1) else s
  }

  function NewAlarm(ticks: nat, period: nat, now: int): State {
    State(ticks, period, now, now, [], 0, 0, [], multiset{}, [])
  }

  function Exec(s: State, steps: seq<Step>): State {
    if steps == [] then s else Take(Exec(s, steps[..|steps| - 1]), steps[|steps| - 1])
  }

  predicate IsRun(s: State, steps: seq<Step>) {
    steps == [] ||
    (IsRun(s, steps[..|steps| - 1]) && CanStep(Exec(s, steps[..|steps| - 1]), steps[|steps| - 1]))
  }

  ghost predicate QueueInv(s: State) {
    && Sorted(s.queue)
    && forall i | 0 <= i < |s.queue| ::
         s.queue[i].0 == DueTime(s.ticks, s.queue[i].1) && s.lastCheck <= Owed(s.ticks, s.queue[i].1)
  }

  // Neither early nor more than a period late.
  predicate OnTime(ticks: nat, period: nat, w: Wakening) {
    DueTime(ticks, w.sleeper) <= w.at <= Owed(ticks, w.sleeper) + period
  }

  ghost predicate Inv(s: State) {
    && QueueInv(s)
    && s.lastCheck <= s.now <= s.lastCheck + s.period
    && (forall i | 0 <= i < |s.woken| :: OnTime(s.ticks, s.period, s.woken[i]))
    && s.waiters == |s.queue|
    && (s.waiters > 0 ==> s.checkThreads > 0)
  }

  // Every call of Pause has been woken once, or is still asleep.
  ghost predicate NobodyLost(s: State) {
    && s.paused == multiset(s.served) + multiset(s.queue)
    && |s.woken| == |s.served| && forall i | 0 <= i < |s.woken| :: s.woken[i].sleeper == s.served[i].1
  }

  lemma PauseLosesNobody(s: State, thread: Thread, howLong: int)
    requires NobodyLost(s)
    ensures NobodyLost(Take(s, Pause(thread, howLong)))
  {
    var sleeper := Sleeper(thread, s.now, howLong);
    var entry := (DueTime(s.ticks, sleeper), sleeper);
    InsertAdds(s.queue, entry);
    assert multiset([entry] + s.queue) == multiset{entry} + multiset(s.queue);
  }

  lemma TimerCheckLosesNobody(s: State)
    requires NobodyLost(s)
    ensures NobodyLost(Take(s, TimerCheck))
  {
    CheckLosesNobody(s.queue, s.now);
    var due := Due(s.queue, s.now);
    var t := Take(s, TimerCheck);
    assert multiset(t.served) == multiset(s.served) + multiset(due);
    forall i | 0 <= i < |t.woken| ensures t.woken[i].sleeper == t.served[i].1 {
      if i < |s.woken| {
        assert t.woken[i] == s.woken[i] && t.served[i] == s.served[i];
      } else {
        assert t.woken[i].sleeper == due[i - |s.woken|].1 && t.served[i] == due[i - |s.woken|];
      }
    }
  }

  lemma NobodyGetsLost(s: State, step: Step)
    requires NobodyLost(s)
    ensures NobodyLost(Take(s, step))
  {
    match step {
      case Pause(thread, howLong) => PauseLosesNobody(s, thread, howLong);
      case TimerCheck => TimerCheckLosesNobody(s);
      case Tick(_) =>
      case CheckThread =>
    }
  }

  lemma PauseKeeps(s: State, thread: Thread, howLong: int)
    requires Inv(s)
    ensures Inv(Take(s, Pause(thread, howLong)))
  {
    var sleeper := Sleeper(thread, s.now, howLong);
    InsertKeepsSorted(s.queue, DueTime(s.ticks, sleeper), sleeper);
    InsertAt(s.queue, DueTime(s.ticks, sleeper), sleeper);
  }

  lemma LeftIsFromQueue<T>(queue: seq<Entry<T>>, now: int)
    ensures |Left(queue, now)| == |queue| - |Due(queue, now)|
    ensures forall i | 0 <= i < |Left(queue, now)| :: Left(queue, now)[i] in queue
  {
    var p := Place(queue, now);
    if p < |queue| {
      var tail := queue[p + 1..];
      InsertAt(tail, queue[p].0, queue[p].1);
      assert forall i | 0 <= i < |tail| :: tail[i] == queue[p + 1 + i];
    }
  }

  lemma {:induction false} TimerCheckKeeps(s: State)
    requires Inv(s)
    ensures Inv(Take(s, TimerCheck))
  {
    CheckIsExact(s.queue, s.now);
    LeftIsFromQueue(s.queue, s.now);
    forall i | 0 <= i < |Due(s.queue, s.now)|
      ensures OnTime(s.ticks, s.period, Wakening(Due(s.queue, s.now)[i].1, s.now))
    {
      assert Due(s.queue, s.now)[i] == s.queue[i];
    }
  }

  lemma {:induction false} RunKeeps(s: State, steps: seq<Step>)
    requires Inv(s) && NobodyLost(s) && IsRun(s, steps)
    ensures Inv(Exec(s, steps)) && NobodyLost(Exec(s, steps))
    ensures Exec(s, steps).ticks == s.ticks && Exec(s, steps).period == s.period
  {
    if steps != [] {
      var n := |steps| - 1;
      RunKeeps(s, steps[..n]);
      NobodyGetsLost(Exec(s, steps[..n]), steps[n]);
      match steps[n] {
        case Tick(_) =>
        case Pause(thread, howLong) => PauseKeeps(Exec(s, steps[..n]), thread, howLong);
        case TimerCheck => TimerCheckKeeps(Exec(s, steps[..n]));
        case CheckThread =>
      }
    }
  }

  // ---------- What a run does, read off its steps ----------

  function TicksOf(step: Step): nat {
    match step
    case Tick(n) => n
    case _ => 0
  }

  // The ticks of the clock so far.
  function Ticked(steps: seq<Step>): nat {
    if steps == [] then 0
    else Ticked(steps[..|steps| - 1]) + TicksOf(steps[|steps| - 1])
  }

  // A call of Pause, with the time it is to end.
  function Begun(ticks: nat, now: int, step: Step): multiset<Entry<Sleeper>> {
    match step
    case Pause(thread, howLong) => multiset{(now + ticks * howLong, Sleeper(thread, now, howLong))}
    case _ => multiset{}
  }

  // All the calls so far.
  function Pauses(ticks: nat, start: int, steps: seq<Step>): multiset<Entry<Sleeper>> {
    if steps == [] then multiset{}
    else
      var front := steps[..|steps| - 1];
      Pauses(ticks, start, front) + Begun(ticks, start + Ticked(front), steps[|steps| - 1])
  }

  // alarm: a new one.
  lemma {:induction false} PausedAreSteps(alarm: State, steps: seq<Step>)
    requires alarm.paused == multiset{}
    ensures var s := Exec(alarm, steps);
            && s.ticks == alarm.ticks && s.now == alarm.now + Ticked(steps)
            && s.paused == Pauses(alarm.ticks, alarm.now, steps)
  {
    if steps != [] {
      var front, last := steps[..|steps| - 1], steps[|steps| - 1];
      PausedAreSteps(alarm, front);
      PausedStep(Exec(alarm, front), last);
      assert Exec(alarm, steps) == Take(Exec(alarm, front), last);
    }
  }

  lemma PausedStep(s: State, step: Step)
    ensures var t := Take(s, step);
            && t.ticks == s.ticks && t.now == s.now + TicksOf(step)
            && t.paused == s.paused + Begun(s.ticks, s.now, step)
  {
  }

  lemma OwedInTicks(ticks: nat, sleeper: Sleeper)
    ensures DueTime(ticks, sleeper) == sleeper.begun + ticks * sleeper.howLong
    ensures sleeper.howLong >= 0 ==> Owed(ticks, sleeper) == sleeper.begun + ticks * sleeper.howLong
    ensures sleeper.howLong < 0 ==> Owed(ticks, sleeper) == sleeper.begun
  {
    Signs(ticks, sleeper.howLong);
  }

  lemma Signs(n: nat, k: int)
    ensures k >= 0 ==> n * k >= 0
    ensures k <= 0 ==> n * k <= 0
  {
  }

  // Neither early nor more than a period late; a negative length counts as none.
  predicate InTime(ticks: nat, period: nat, sleeper: Sleeper, at: int) {
    && sleeper.begun + ticks * sleeper.howLong <= at
    && NotLate(ticks, period, sleeper, at)
  }

  predicate NotLate(ticks: nat, period: nat, sleeper: Sleeper, at: int) {
    && (sleeper.howLong >= 0 ==> at <= sleeper.begun + ticks * sleeper.howLong + period)
    && (sleeper.howLong < 0 ==> at <= sleeper.begun + period)
  }

  // Whoever begins Pause(h) at time t is woken once, no earlier than t + TimerTicks * h and, if h is not negative, at
  // most a period later (otherwise at most a period after t); nobody still asleep is later than that.  The count of
  // waiters is right, and while it is positive a thread that keeps the system from halting is alive.
  lemma {:induction false} PausesEndOnTime(ticks: nat, period: nat, start: int, steps: seq<Step>)
    requires IsRun(NewAlarm(ticks, period, start), steps)
    ensures var s := Exec(NewAlarm(ticks, period, start), steps);
            && s.now == start + Ticked(steps)
            && Pauses(ticks, start, steps) == multiset(s.served) + multiset(s.queue)
            && |s.woken| == |s.served|
            && (forall i | 0 <= i < |s.woken| :: s.woken[i].sleeper == s.served[i].1)
            && (forall i | 0 <= i < |s.woken| :: InTime(ticks, period, s.woken[i].sleeper, s.woken[i].at))
            && (forall i | 0 <= i < |s.queue| :: NotLate(ticks, period, s.queue[i].1, s.now))
            && s.waiters == |s.queue|
            && (s.waiters > 0 ==> s.checkThreads > 0)
  {
    RunKeeps(NewAlarm(ticks, period, start), steps);
    PausedAreSteps(NewAlarm(ticks, period, start), steps);
    var s := Exec(NewAlarm(ticks, period, start), steps);
    forall i | 0 <= i < |s.woken| ensures InTime(ticks, period, s.woken[i].sleeper, s.woken[i].at) {
      assert OnTime(ticks, period, s.woken[i]);
      OwedInTicks(ticks, s.woken[i].sleeper);
    }
    forall i | 0 <= i < |s.queue| ensures NotLate(ticks, period, s.queue[i].1, s.now) {
      OwedInTicks(ticks, s.queue[i].1);
    }
  }

  predicate DueBy(ticks: nat, sleeper: Sleeper, now: int) {
    sleeper.begun + ticks * sleeper.howLong <= now
  }

  lemma DueByKey(s: State, e: Entry<Sleeper>)
    requires QueueInv(s) && e in s.queue
    ensures DueBy(s.ticks, e.1, s.now) <==> e.0 <= s.now
  {
    var i :| 0 <= i < |s.queue| && s.queue[i] == e;
    OwedInTicks(s.ticks, e.1);
  }

  // A timer check takes out of the queue exactly the entries whose time has come, and makes them ready there and then.
  ghost predicate WakesTheDue(s: State, t: State) {
    && s.served <= t.served && s.woken <= t.woken
    && var ready := t.served[|s.served|..];
    && multiset(s.queue) == multiset(ready) + multiset(t.queue)
    && (forall e | e in ready :: DueBy(s.ticks, e.1, s.now))
    && (forall e | e in t.queue :: !DueBy(s.ticks, e.1, s.now))
    && |t.woken| == |s.woken| + |ready|
    && forall i | |s.woken| <= i < |t.woken| :: t.woken[i].at == s.now
  }

  lemma CheckWakes(s: State)
    requires Inv(s)
    ensures WakesTheDue(s, Take(s, TimerCheck))
  {
    var t := Take(s, TimerCheck);
    var due := Due(s.queue, s.now);
    assert t.served[|s.served|..] == due;
    CheckLosesNobody(s.queue, s.now);
    forall e | e in due ensures DueBy(s.ticks, e.1, s.now) {
      DueIsDue(s, e);
    }
    forall e | e in t.queue ensures !DueBy(s.ticks, e.1, s.now) {
      LeftIsNotDue(s, e);
    }
  }

  lemma DueIsDue(s: State, e: Entry<Sleeper>)
    requires Inv(s) && e in Due(s.queue, s.now)
    ensures DueBy(s.ticks, e.1, s.now)
  {
    CheckIsExact(s.queue, s.now);
    DueByKey(s, e);
  }

  lemma LeftIsNotDue(s: State, e: Entry<Sleeper>)
    requires Inv(s) && e in Left(s.queue, s.now)
    ensures !DueBy(s.ticks, e.1, s.now)
  {
    CheckIsExact(s.queue, s.now);
    LeftIsFromQueue(s.queue, s.now);
    DueByKey(s, e);
  }

  // That is what a check does in every run, and no other step wakes anybody.
  lemma {:induction false} ChecksWakeTheDue(ticks: nat, period: nat, start: int, steps: seq<Step>, step: Step)
    requires IsRun(NewAlarm(ticks, period, start), steps)
    ensures var s := Exec(NewAlarm(ticks, period, start), steps);
            var t := Take(s, step);
            && s.served <= t.served && s.woken <= t.woken
            && if step.TimerCheck? then WakesTheDue(s, t)
               else t.woken == s.woken && t.served == s.served && forall e | e in s.queue :: e in t.queue
  {
    var s := Exec(NewAlarm(ticks, period, start), steps);
    RunKeeps(NewAlarm(ticks, period, start), steps);
    match step {
      case TimerCheck => CheckWakes(s);
      case Pause(thread, howLong) => PauseAdds(s, thread, howLong);
      case Tick(_) =>
      case CheckThread =>
    }
  }

  // A thread that keeps the system alive is started exactly by a call of Pause that finds nobody asleep, and such
  // threads end only while nobody is.
  lemma {:induction false} CheckThreadsAreSteps(ticks: nat, period: nat, start: int, steps: seq<Step>, step: Step)
    requires IsRun(NewAlarm(ticks, period, start), steps)
    ensures var s := Exec(NewAlarm(ticks, period, start), steps);
            var t := Take(s, step);
            match step
            case Pause(_, _) => t.checkThreads == s.checkThreads + if s.queue == [] then 1 else 0
            case CheckThread => t.checkThreads == s.checkThreads - if s.queue == [] && s.checkThreads > 0 then 1 else 0
            case _ => t.checkThreads == s.checkThreads
  {
    RunKeeps(NewAlarm(ticks, period, start), steps);
  }

  lemma PauseAdds(s: State, thread: Thread, howLong: int)
    ensures forall e | e in s.queue :: e in Take(s, Pause(thread, howLong)).queue
  {
    var sleeper := Sleeper(thread, s.now, howLong);
    var key := DueTime(s.ticks, sleeper);
    forall e | e in s.queue ensures e in Insert(s.queue, key, sleeper) {
      InsertKeepsEntry(s.queue, key, sleeper, e);
    }
  }

  lemma InsertKeepsEntry<T>(s: seq<Entry<T>>, key: int, item: T, e: Entry<T>)
    requires e in s
    ensures e in Insert(s, key, item)
  {
    var p := Place(s, key);
    assert s == s[..p] + s[p..];
  }

  // ---------- The class ----------

  class Alarm {
    const timerTicks: nat
    const queue: DLList<Sleeper>
    var waiters: int
    var checkThreads: nat

    ghost predicate Valid()
      reads this, queue, queue.nodes
    {
      queue.Valid() && Sorted(queue.Contents()) && waiters == |queue.Contents()|
    }

    constructor (timerTicks: nat)
      ensures Valid() && waiters == 0 && checkThreads == 0 && this.timerTicks == timerTicks
      ensures fresh(queue) && queue.nodes == []
    {
      this.timerTicks := timerTicks;
      queue := new DLList();
      waiters, checkThreads := 0, 0;
    }

    // Up to falling asleep.
    method Pause(thread: Thread, howLong: int, totalTicks: int)
      requires Valid()
      modifies this, queue, queue.nodes
      ensures Valid() && (forall n | n in queue.nodes :: n in old(queue.nodes) || fresh(n))
      ensures queue.Contents() == Insert(old(queue.Contents()), totalTicks + timerTicks * howLong,
                                         Sleeper(thread, totalTicks, howLong))
      ensures waiters == old(waiters) + 1
      ensures checkThreads == if waiters == 1 then old(checkThreads) + 1 else old(checkThreads)
    {
      ghost var was := queue.Contents();
      waiters := waiters + 1;
      if waiters == 1 {
        checkThreads := checkThreads + 1;
      }
      var sleeper := Sleeper(thread, totalTicks, howLong);
      InsertKeepsSorted(was, DueTime(timerTicks, sleeper), sleeper);
      InsertAt(was, DueTime(timerTicks, sleeper), sleeper);
      queue.SortedInsert(sleeper, DueTime(timerTicks, sleeper));
    }

    // Make one thread ready and take the next one out.
    method WakeOne(ready: seq<Entry<Sleeper>>, entry: Entry<Sleeper>, totalTicks: int)
      returns (ready': seq<Entry<Sleeper>>, next: Option<Entry<Sleeper>>)
      requires queue.Valid() && entry.0 <= totalTicks
      modifies this`waiters, queue, queue.nodes
      ensures queue.Valid() && (forall n | n in queue.nodes :: n in old(queue.nodes))
      ensures ready' == ready + [entry] && waiters == old(waiters) - 1
      ensures next == None ==> queue.Contents() == []
      ensures |queue.Contents()| < |old(queue.Contents())| || next == None
      ensures |queue.Contents()| <= |old(queue.Contents())|
      ensures Loop(ready', next, queue.Contents(), totalTicks) ==
              Loop(ready, Some(entry), old(queue.Contents()), totalTicks)
    {
      ghost var was := queue.Contents();
      waiters := waiters - 1;
      ready' := ready + [entry];
      next := queue.Remove();
      LoopTurns(ready, entry, was, totalTicks, next, queue.Contents());
    }

    // The loop of CheckIfDue.
    method WakeDue(totalTicks: int) returns (ready: seq<Entry<Sleeper>>)
      requires queue.Valid()
      modifies this`waiters, queue, queue.nodes
      ensures queue.Valid() && (ready, queue.Contents()) == CheckOutcome(old(queue.Contents()), totalTicks)
      ensures waiters == old(waiters) - |ready|
    {
      ready := [];
      var thread := queue.Remove();
      while thread != None
        invariant queue.Valid() && (forall n | n in queue.nodes :: n in old(queue.nodes))
        invariant thread == None ==> queue.Contents() == []
        invariant Loop(ready, thread, queue.Contents(), totalTicks) == CheckOutcome(old(queue.Contents()), totalTicks)
        invariant waiters == old(waiters) - |ready|
        decreases |queue.Contents()|, thread != None
      {
        assert forall k | 0 <= k < |queue.nodes| :: queue.nodes[k] in queue.nodes;
        if thread.value.0 - totalTicks <= 0 {
          ready, thread := WakeOne(ready, thread.value, totalTicks);
        } else {
          queue.SortedInsert(thread.value.1, thread.value.0);
          break;
        }
      }
    }

    // Make ready every thread whose time has come.
    method CheckIfDue(totalTicks: int) returns (ready: seq<Entry<Sleeper>>)
      requires Valid()
      modifies this`waiters, queue, queue.nodes
      ensures Valid()
      ensures ready == Due(old(queue.Contents()), totalTicks)
      ensures queue.Contents() == Left(old(queue.Contents()), totalTicks)
      ensures waiters == old(waiters) - |ready|
    {
      CheckIsLoop(queue.Contents(), totalTicks);
      CheckIsExact(queue.Contents(), totalTicks);
      LeftIsFromQueue(queue.Contents(), totalTicks);
      ready := WakeDue(totalTicks);
    }

    // One turn of the loop of a `check` thread; true: it finishes.
    method Check() returns (finished: bool)
      requires checkThreads > 0
      modifies this`checkThreads
      ensures finished <==> waiters == 0
      ensures checkThreads == if finished then old(checkThreads) - 1 else old(checkThreads)
    {
      if waiters != 0 {
        return false;
      }
      checkThreads := checkThreads - 1;
      return true;
    }
  }
}
