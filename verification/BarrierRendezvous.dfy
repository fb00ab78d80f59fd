/** What the event barrier promises on the conditions that are built from semaphores: when each promise is kept. */
module BarrierRendezvous {
  import opened Common
  import C = Conditions
  import opened BarrierTokens
  import opened Sums

  // ---------- Invariant of every run, with barging or without ----------

  ghost predicate Inv(s: State) {
    && C.CondInv(s.event) && C.CondInv(s.comp)
    && s.event.counted !! s.comp.counted && s.passed !! s.event.counted && s.passed !! s.comp.counted
    && (s.signaller.Some? ==> s.signaller.value in s.comp.counted)
    && s.waiternum == |s.event.counted| + |s.passed|
    && (s.signaled ==> s.event.blockNum == 0)
  }

  // Asleep after v is what it was before, with possible newcomers.
  predicate StillAsleep(c: C.Cond, d: C.Cond) {
    forall v | v in c.sem.queue :: v in d.sem.queue
  }

  lemma EnterKeeps(c: C.Cond, t: Thread)
    requires C.CondInv(c) && t !in c.counted
    ensures var d := C.Enter(c, t);
            && C.CondInv(d) && StillAsleep(c, d)
            && d.counted == (if c.sem.value == 0 then c.counted + {t} else c.counted)
            && (t in d.sem.queue <==> c.sem.value == 0)
  {
    C.TakeKeeps(c, C.Count(t));
    C.TakeKeeps(C.Take(c, C.Count(t)), C.Test(t));
  }

  lemma ResumeKeeps(c: C.Cond, t: Thread)
    requires C.CondInv(c) && C.CanStep(c, C.Test(t))
    ensures var d := C.Resume(c, t);
            && C.CondInv(d) && StillAsleep(c, d)
            && d.counted == if c.sem.value == 0 then c.counted else c.counted - {t}
  {
    C.TakeKeeps(c, C.Test(t));
  }

  // Barging or not, Broadcast leaves nobody asleep.
  lemma {:induction false} BroadcastKeeps(c: C.Cond)
    requires C.CondInv(c)
    ensures C.CondInv(Broadcast(c)) && Broadcast(c).counted == c.counted
    ensures Broadcast(c).sem.queue == [] && Broadcast(c).blockNum == 0
    decreases c.blockNum
  {
    if c.blockNum <= 0 {
      if c.sem.queue != [] {
        C.QueueFits(c.sem.queue, c.sem.woken, c.counted);
        assert false;
      }
    } else {
      C.TakeKeeps(c, C.Signal);
      BroadcastKeeps(C.Take(c, C.Signal));
    }
  }

  lemma WaitKeeps(s: State, t: Thread)
    requires Inv(s) && CanStep(s, BeginWait(t))
    ensures Inv(Take(s, BeginWait(t)))
  {
    SetCounts(s.event.counted, t);
    SetCounts(s.passed, t);
    if !s.signaled { EnterKeeps(s.event, t); }
  }

  lemma WaitReturnKeeps(s: State, t: Thread)
    requires Inv(s) && CanStep(s, EndWait(t))
    ensures Inv(Take(s, EndWait(t)))
  {
    SetCounts(s.event.counted, t);
    SetCounts(s.passed, t);
    ResumeKeeps(s.event, t);
  }

  lemma SignalKeeps(s: State, t: Thread)
    requires Inv(s) && CanStep(s, BeginSignal(t))
    ensures Inv(Take(s, BeginSignal(t)))
  {
    BroadcastKeeps(s.event);
    EnterKeeps(s.comp, t);
  }

  lemma CompleteKeeps(s: State, t: Thread)
    requires Inv(s) && CanStep(s, BeginComplete(t))
    ensures Inv(Take(s, BeginComplete(t)))
  {
    SetCounts(s.passed, t);
    if s.waiternum == 1 { BroadcastKeeps(s.comp); } else { EnterKeeps(s.comp, t); }
  }

  lemma TakeKeeps(s: State, step: Step)
    requires Inv(s) && CanStep(s, step)
    ensures Inv(Take(s, step))
  {
    match step {
      case BeginWait(t) => WaitKeeps(s, t);
      case EndWait(t) => WaitReturnKeeps(s, t);
      case BeginSignal(t) => SignalKeeps(s, t);
      case EndSignal => ResumeKeeps(s.comp, s.signaller.value);
      case BeginComplete(t) => CompleteKeeps(s, t);
      case EndComplete(t) => ResumeKeeps(s.comp, t);
    }
  }

  lemma {:induction false} RunKeeps(steps: seq<Step>)
    requires IsRun(steps)
    ensures Inv(Exec(steps))
  {
    if steps != [] {
      RunKeeps(steps[..|steps| - 1]);
      TakeKeeps(Exec(steps[..|steps| - 1]), steps[|steps| - 1]);
    }
  }

  function StateAt(steps: seq<Step>, i: nat): State
    requires i <= |steps|
  {
    Exec(steps[..i])
  }

  lemma {:induction false} PrefixRuns(steps: seq<Step>, i: nat)
    requires IsRun(steps) && i <= |steps|
    ensures IsRun(steps[..i])
  {
    if i == |steps| {
      assert steps[..i] == steps;
    } else {
      PrefixRuns(steps[..|steps| - 1], i);
      assert steps[..|steps| - 1][..i] == steps[..i];
    }
  }

  lemma StepAt(steps: seq<Step>, i: nat)
    requires IsRun(steps) && i < |steps|
    ensures Inv(StateAt(steps, i)) && CanStep(StateAt(steps, i), steps[i])
    ensures StateAt(steps, i + 1) == Take(StateAt(steps, i), steps[i])
  {
    PrefixRuns(steps, i);
    RunKeeps(steps[..i]);
    PrefixRuns(steps, i + 1);
    assert steps[..i + 1][..i] == steps[..i];
  }

  // ---------- Who gets out of a sleep ----------

  // Sleep on comp ends only when everybody has responded, and then for everybody.
  lemma CompWakes(s: State, step: Step)
    requires Inv(s) && CanStep(s, step)
    ensures var u := Take(s, step);
            if step.BeginComplete? && u.waiternum == 0 then u.comp.sem.queue == []
            else StillAsleep(s.comp, u.comp)
  {
    match step {
      case BeginWait(_) =>
      case EndWait(_) =>
      case BeginSignal(t) => EnterKeeps(s.comp, t);
      case EndSignal => ResumeKeeps(s.comp, s.signaller.value);
      case BeginComplete(t) => if s.waiternum == 1 { BroadcastKeeps(s.comp); } else { EnterKeeps(s.comp, t); }
      case EndComplete(t) => ResumeKeeps(s.comp, t);
    }
  }

  // Sleep on event ends only when the barrier is signalled.
  lemma EventWakes(s: State, step: Step)
    requires Inv(s) && CanStep(s, step) && !step.BeginSignal?
    ensures StillAsleep(s.event, Take(s, step).event)
  {
    match step {
      case BeginWait(t) => if !s.signaled { EnterKeeps(s.event, t); }
      case EndWait(t) => ResumeKeeps(s.event, t);
      case EndSignal =>
      case BeginComplete(_) =>
      case EndComplete(_) =>
    }
  }

  ghost predicate EmptyBetween(steps: seq<Step>, i: nat, j: nat)
    requires i <= j <= |steps|
  {
    exists k | i < k <= j :: StateAt(steps, k).waiternum == 0
  }

  ghost predicate SignalledBetween(steps: seq<Step>, i: nat, j: nat)
    requires i <= j <= |steps|
  {
    exists k | i < k < j :: steps[k].BeginSignal?
  }

  lemma {:induction false} LeavingComp(steps: seq<Step>, i: nat, j: nat, t: Thread)
    requires IsRun(steps) && i <= j <= |steps|
    requires t in StateAt(steps, i).comp.sem.queue && t !in StateAt(steps, j).comp.sem.queue
    ensures EmptyBetween(steps, i, j)
    decreases j
  {
    StepAt(steps, j - 1);
    if t in StateAt(steps, j - 1).comp.sem.queue {
      CompWakes(StateAt(steps, j - 1), steps[j - 1]);
      assert StateAt(steps, j).waiternum == 0;
    } else {
      LeavingComp(steps, i, j - 1, t);
      EmptyLonger(steps, i, i, j - 1, j);
    }
  }

  lemma EmptyLonger(steps: seq<Step>, h: nat, i: nat, j: nat, k: nat)
    requires h <= i <= j <= k <= |steps| && EmptyBetween(steps, i, j)
    ensures EmptyBetween(steps, h, k)
  {
    var m :| i < m <= j && StateAt(steps, m).waiternum == 0;
    assert StateAt(steps, m).waiternum == 0;
  }

  // i: the state after BeginWait.
  lemma {:induction false} LeavingEvent(steps: seq<Step>, i: nat, j: nat, t: Thread)
    requires IsRun(steps) && 0 < i <= j <= |steps|
    requires t in StateAt(steps, i).event.sem.queue && t !in StateAt(steps, j).event.sem.queue
    ensures SignalledBetween(steps, i - 1, j)
    decreases j
  {
    StepAt(steps, j - 1);
    if t !in StateAt(steps, j - 1).event.sem.queue {
      LeavingEvent(steps, i, j - 1, t);
      SignalledLonger(steps, i - 1, j - 1, j);
    } else {
      LeavingNow(StateAt(steps, j - 1), steps[j - 1], t);
      assert i - 1 < j - 1 < j && steps[j - 1].BeginSignal?;
    }
  }

  lemma LeavingNow(s: State, step: Step, t: Thread)
    requires Inv(s) && CanStep(s, step) && t in s.event.sem.queue && t !in Take(s, step).event.sem.queue
    ensures step.BeginSignal?
  {
    if !step.BeginSignal? { EventWakes(s, step); }
  }

  lemma SignalledLonger(steps: seq<Step>, i: nat, j: nat, k: nat)
    requires i <= j <= k <= |steps| && SignalledBetween(steps, i, j)
    ensures SignalledBetween(steps, i, k)
  {
    var m :| i < m < j && steps[m].BeginSignal?;
    assert steps[m].BeginSignal?;
  }

  // ---------- The rendezvous ----------

  predicate BargesAt(steps: seq<Step>, i: nat)
    requires i < |steps|
  {
    Barges(StateAt(steps, i), steps[i])
  }

  // Thread t, which called Complete at i, is not asleep in it at j: it has been woken, or it is back.
  predicate OutOfComplete(steps: seq<Step>, i: nat, j: nat, t: Thread) {
    i < j <= |steps| && steps[i] == BeginComplete(t) && t !in StateAt(steps, j).comp.sem.queue
  }

  // No thread gets out of Complete before an instant after its call at which everybody has responded.
  ghost predicate CompletesMeet(steps: seq<Step>) {
    forall i: nat, j: nat, t | OutOfComplete(steps, i, j, t) :: EmptyBetween(steps, i, j)
  }

  // This promise is kept in a run if and only if no thread that has to sleep in Complete takes somebody's token.
  lemma {:induction false} CompleteIsARendezvous(steps: seq<Step>)
    requires IsRun(steps)
    ensures CompletesMeet(steps) <==> forall i: nat | i < |steps| && steps[i].BeginComplete? :: !BargesAt(steps, i)
  {
    if i: nat :| i < |steps| && steps[i].BeginComplete? && BargesAt(steps, i) {
      CompleteMisses(steps, i);
    } else {
      forall i: nat, j: nat, t | OutOfComplete(steps, i, j, t) ensures EmptyBetween(steps, i, j) {
        CompleteMeets(steps, i, j, t);
      }
    }
  }

  lemma CompleteMisses(steps: seq<Step>, i: nat)
    requires IsRun(steps) && i < |steps| && steps[i].BeginComplete? && BargesAt(steps, i)
    ensures !CompletesMeet(steps)
  {
    StepAt(steps, i);
    CompleteGoesThrough(StateAt(steps, i), steps[i].t);
    OutTooEarly(steps, i, steps[i].t);
  }

  lemma OutTooEarly(steps: seq<Step>, i: nat, t: Thread)
    requires i < |steps| && OutOfComplete(steps, i, i + 1, t) && StateAt(steps, i + 1).waiternum != 0
    ensures !CompletesMeet(steps)
  {
    assert !EmptyBetween(steps, i, i + 1);
  }

  lemma CompleteGoesThrough(s: State, t: Thread)
    requires Inv(s) && CanStep(s, BeginComplete(t)) && Barges(s, BeginComplete(t))
    ensures var u := Take(s, BeginComplete(t)); u.waiternum != 0 && t !in u.comp.sem.queue
  {
    EnterKeeps(s.comp, t);
    assert Take(s, BeginComplete(t)).comp == C.Enter(s.comp, t);
  }

  lemma CompleteMeets(steps: seq<Step>, i: nat, j: nat, t: Thread)
    requires IsRun(steps) && OutOfComplete(steps, i, j, t) && !BargesAt(steps, i)
    ensures EmptyBetween(steps, i, j)
  {
    StepAt(steps, i);
    if StateAt(steps, i).waiternum == 1 {
      assert StateAt(steps, i + 1).waiternum == 0;
    } else {
      EnterKeeps(StateAt(steps, i).comp, t);
      LeavingComp(steps, i + 1, j, t);
      EmptyLonger(steps, i, i + 1, j, j);
    }
  }

  // Thread t, which called Signal at i, is not asleep in it at j.
  predicate OutOfSignal(steps: seq<Step>, i: nat, j: nat, t: Thread) {
    i < j <= |steps| && steps[i] == BeginSignal(t) && t !in StateAt(steps, j).comp.sem.queue
  }

  // No signaller gets out of Signal before an instant at or after its call at which everybody has responded.
  ghost predicate SignalsMeet(steps: seq<Step>) {
    forall i: nat, j: nat, t | OutOfSignal(steps, i, j, t) :: EmptyBetween(steps, i, j)
  }

  // This one is kept if and only if no signaller takes somebody's token while there is somebody to wait for.
  lemma {:induction false} SignalIsARendezvous(steps: seq<Step>)
    requires IsRun(steps)
    ensures SignalsMeet(steps) <==>
            forall i: nat | i < |steps| && steps[i].BeginSignal? && BargesAt(steps, i) ::
              StateAt(steps, i).waiternum == 0
  {
    if i: nat :| i < |steps| && steps[i].BeginSignal? && BargesAt(steps, i) && StateAt(steps, i).waiternum != 0 {
      SignalMisses(steps, i);
    } else {
      forall i: nat, j: nat, t | OutOfSignal(steps, i, j, t) ensures EmptyBetween(steps, i, j) {
        SignalMeets(steps, i, j, t);
      }
    }
  }

  lemma SignalMisses(steps: seq<Step>, i: nat)
    requires IsRun(steps) && i < |steps| && steps[i].BeginSignal? && BargesAt(steps, i)
    requires StateAt(steps, i).waiternum != 0
    ensures !SignalsMeet(steps)
  {
    StepAt(steps, i);
    EnterKeeps(StateAt(steps, i).comp, steps[i].t);
    assert OutOfSignal(steps, i, i + 1, steps[i].t);
    assert !EmptyBetween(steps, i, i + 1);
  }

  lemma SignalMeets(steps: seq<Step>, i: nat, j: nat, t: Thread)
    requires IsRun(steps) && OutOfSignal(steps, i, j, t)
    requires BargesAt(steps, i) ==> StateAt(steps, i).waiternum == 0
    ensures EmptyBetween(steps, i, j)
  {
    StepAt(steps, i);
    if StateAt(steps, i).waiternum == 0 {
      assert StateAt(steps, i + 1).waiternum == 0;
    } else {
      EnterKeeps(StateAt(steps, i).comp, t);
      LeavingComp(steps, i + 1, j, t);
      EmptyLonger(steps, i, i + 1, j, j);
    }
  }

  // ---------- The closed barrier ----------

  // Thread t, which came to the closed barrier at i, is not asleep in Wait at j.
  predicate OutOfWait(steps: seq<Step>, i: nat, j: nat, t: Thread) {
    && i < j <= |steps| && steps[i] == BeginWait(t)
    && !StateAt(steps, i).signaled && t !in StateAt(steps, j).event.sem.queue
  }

  // No thread that comes to the closed barrier gets out of Wait before a later Signal.
  ghost predicate WaitsHold(steps: seq<Step>) {
    forall i: nat, j: nat, t | OutOfWait(steps, i, j, t) :: SignalledBetween(steps, i, j)
  }

  // And this one if and only if no thread that has to sleep in Wait takes somebody's token.
  lemma {:induction false} ClosedBarrierHolds(steps: seq<Step>)
    requires IsRun(steps)
    ensures WaitsHold(steps) <==> forall i: nat | i < |steps| && steps[i].BeginWait? :: !BargesAt(steps, i)
  {
    if i: nat :| i < |steps| && steps[i].BeginWait? && BargesAt(steps, i) {
      WaitSlips(steps, i);
    } else {
      forall i: nat, j: nat, t | OutOfWait(steps, i, j, t) ensures SignalledBetween(steps, i, j) {
        WaitHolds(steps, i, j, t);
      }
    }
  }

  lemma WaitSlips(steps: seq<Step>, i: nat)
    requires IsRun(steps) && i < |steps| && steps[i].BeginWait? && BargesAt(steps, i)
    ensures !WaitsHold(steps)
  {
    StepAt(steps, i);
    EnterKeeps(StateAt(steps, i).event, steps[i].t);
    assert OutOfWait(steps, i, i + 1, steps[i].t);
    assert !SignalledBetween(steps, i, i + 1);
  }

  lemma WaitHolds(steps: seq<Step>, i: nat, j: nat, t: Thread)
    requires IsRun(steps) && OutOfWait(steps, i, j, t) && !BargesAt(steps, i)
    ensures SignalledBetween(steps, i, j)
  {
    StepAt(steps, i);
    EnterKeeps(StateAt(steps, i).event, t);
    LeavingEvent(steps, i + 1, j, t);
  }

  // ---------- Who may be asleep ----------

  // Whoever sleeps in Complete has somebody left to wait for.
  ghost predicate SleepersAwaited(s: State) {
    s.waiternum > 0 || forall t | t in s.comp.sem.queue :: s.signaller == Some(t)
  }

  // A thread woken from Complete finds no token, and nobody is left to respond.
  predicate CompleterStranded(s: State, step: Step) {
    step.EndComplete? && s.comp.sem.value == 0 && s.waiternum == 0
  }

  lemma StepAwaits(s: State, step: Step)
    requires Inv(s) && CanStep(s, step) && SleepersAwaited(s)
    ensures SleepersAwaited(Take(s, step)) <==> !CompleterStranded(s, step)
  {
    TakeKeeps(s, step);
    match step {
      case BeginWait(_) =>
      case EndWait(_) =>
      case BeginSignal(t) => EnterAdds(s.comp, t);
      case EndSignal => ResumeAdds(s.comp, s.signaller.value);
      case BeginComplete(t) => CompWakes(s, step);
      case EndComplete(t) => ResumeAdds(s.comp, t);
    }
  }

  lemma EnterAdds(c: C.Cond, t: Thread)
    ensures forall v | v in C.Enter(c, t).sem.queue :: v in c.sem.queue || v == t
  {
  }

  lemma ResumeAdds(c: C.Cond, t: Thread)
    ensures forall v | v in C.Resume(c, t).sem.queue :: v in c.sem.queue || v == t
    ensures t in C.Resume(c, t).sem.queue <==> c.sem.value == 0 || t in c.sem.queue
  {
  }

  // In every state of the run.
  ghost predicate AlwaysAwaited(steps: seq<Step>) {
    SleepersAwaited(Exec(steps)) && (steps == [] || AlwaysAwaited(steps[..|steps| - 1]))
  }

  // At no step of the run.
  predicate NobodyStranded(steps: seq<Step>) {
    steps == [] ||
    (NobodyStranded(steps[..|steps| - 1]) && !CompleterStranded(Exec(steps[..|steps| - 1]), steps[|steps| - 1]))
  }

  // So it is throughout a run if and only if every thread woken from Complete finds a token while nobody is left.
  lemma {:induction false} SleepersAreAwaited(steps: seq<Step>)
    requires IsRun(steps)
    ensures AlwaysAwaited(steps) <==> NobodyStranded(steps)
  {
    if steps != [] {
      var front := steps[..|steps| - 1];
      SleepersAreAwaited(front);
      RunKeeps(front);
      if AlwaysAwaited(front) { StepAwaits(Exec(front), steps[|steps| - 1]); }
    }
  }

  // Barging or not, nobody sleeps at the open barrier, and waiternum counts those that have yet to respond.
  lemma {:induction false} OpenBarrierHoldsNobody(steps: seq<Step>)
    requires IsRun(steps) && Exec(steps).signaled
    ensures Exec(steps).event.sem.queue == []
    ensures Exec(steps).waiternum == |Exec(steps).event.counted| + |Exec(steps).passed|
  {
    RunKeeps(steps);
    var c := Exec(steps).event;
    if c.sem.queue != [] {
      C.QueueFits(c.sem.queue, c.sem.woken, c.counted);
      assert false;
    }
  }

  // ---------- Runs in which they fail ----------

  // Thread 1's Complete wakes signaller 0, threads 2 and 3 come through the open barrier, and thread 3 takes 0's token
  // and returns from Complete at once, although thread 2 has not responded.
  lemma BargingBreaksTheRendezvous()
    ensures var steps := [BeginWait(1), BeginSignal(0), EndWait(1), BeginComplete(1), BeginWait(2), BeginWait(3),
                          BeginComplete(3)];
            && IsRun(steps) && BargesAt(steps, 6)
            && Outside(Exec(steps), 3) && Exec(steps).passed == {2} && !EmptyBetween(steps, 6, 7)
  {
    var s4 := OpenWithAToken();
    RunExtends(s4, BeginWait(2));
    var s5 := s4 + [BeginWait(2)];
    RunExtends(s5, BeginWait(3));
    var s6 := s5 + [BeginWait(3)];
    RunExtends(s6, BeginComplete(3));
    var s7 := s6 + [BeginComplete(3)];
    assert s7 == [BeginWait(1), BeginSignal(0), EndWait(1), BeginComplete(1), BeginWait(2), BeginWait(3),
                  BeginComplete(3)];
    assert s7[..6] == s6 && s7[..7] == s7;
  }

  // The signaller has been woken by the last response, and its token is about.
  lemma OpenWithAToken() returns (steps: seq<Step>)
    ensures steps == [BeginWait(1), BeginSignal(0), EndWait(1), BeginComplete(1)] && IsRun(steps)
    ensures var s := Exec(steps);
            && s.waiternum == 0 && s.signaled && s.signaller == Some(0) && s.passed == {}
            && s.event.counted == {} && s.comp.counted == {0}
            && s.comp.sem.value == 1 && s.comp.sem.queue == [] && s.comp.blockNum == 0
  {
    var s0: seq<Step> := [];
    RunExtends(s0, BeginWait(1));
    var s1 := s0 + [BeginWait(1)];
    RunExtends(s1, BeginSignal(0));
    var s2 := s1 + [BeginSignal(0)];
    RunExtends(s2, EndWait(1));
    var s3 := s2 + [EndWait(1)];
    RunExtends(s3, BeginComplete(1));
    steps := s3 + [BeginComplete(1)];
    assert steps == [BeginWait(1), BeginSignal(0), EndWait(1), BeginComplete(1)];
  }

  // Threads 1 and 2 have responded and 0 is back from Signal, but 1 has not resumed, and its token is about.
  lemma ClosedWithAToken() returns (steps: seq<Step>)
    ensures steps == [BeginWait(1), BeginWait(2), BeginSignal(0), EndWait(1), EndWait(2), BeginComplete(1),
                      BeginComplete(2), EndSignal]
    ensures IsRun(steps)
    ensures var s := Exec(steps);
            && s.waiternum == 0 && !s.signaled && s.signaller == None && s.passed == {}
            && s.event.counted == {} && s.event.sem.value == 0 && s.event.sem.queue == [] && s.event.blockNum == 0
            && s.comp.counted == {1} && s.comp.sem.value == 1 && s.comp.sem.queue == [] && s.comp.blockNum == 0
  {
    var s5 := TwoPass();
    RunExtends(s5, BeginComplete(1));
    var s6 := s5 + [BeginComplete(1)];
    var c := Exec(s6).comp;
    assert c.counted == {0, 1} && c.sem.queue == [0, 1] && c.sem.value == 0 && c.blockNum == 2;
    BroadcastTwo(c);
    RunExtends(s6, BeginComplete(2));
    var s7 := s6 + [BeginComplete(2)];
    RunExtends(s7, EndSignal);
    steps := s7 + [EndSignal];
  }

  lemma BroadcastTwo(c: C.Cond)
    requires c.counted == {0, 1} && c.sem.queue == [0, 1] && c.sem.value == 0 && c.blockNum == 2
    ensures var d := Broadcast(c); d.counted == {0, 1} && d.sem.queue == [] && d.sem.value == 2 && d.blockNum == 0
  {
    var d := C.Take(c, C.Signal);
    assert d.sem.queue == [1] && d.blockNum == 1 && d.sem.value == 1;
    var e := C.Take(d, C.Signal);
    assert e.sem.queue == [] && e.blockNum == 0 && e.sem.value == 2;
    assert Broadcast(d) == Broadcast(e) == e;
  }

  // A Signal on the idle barrier takes thread 1's token, and thread 1 goes back to sleep with nobody left to respond.
  lemma BargingStrandsACompleter()
    ensures var steps := [BeginWait(1), BeginWait(2), BeginSignal(0), EndWait(1), EndWait(2), BeginComplete(1),
                          BeginComplete(2), EndSignal, BeginSignal(0), EndComplete(1)];
            && IsRun(steps) && CompleterStranded(StateAt(steps, 9), steps[9])
            && Exec(steps).waiternum == 0 && Exec(steps).comp.sem.queue == [1] && Exec(steps).signaller == None
  {
    var s8 := ClosedWithAToken();
    RunExtends(s8, BeginSignal(0));
    var s9 := s8 + [BeginSignal(0)];
    RunExtends(s9, EndComplete(1));
    var s10 := s9 + [EndComplete(1)];
    assert s10[..9] == s9;
    assert s10 == [BeginWait(1), BeginWait(2), BeginSignal(0), EndWait(1), EndWait(2), BeginComplete(1),
                   BeginComplete(2), EndSignal, BeginSignal(0), EndComplete(1)];
  }

  lemma TwoPass() returns (steps: seq<Step>)
    ensures steps == [BeginWait(1), BeginWait(2), BeginSignal(0), EndWait(1), EndWait(2)] && IsRun(steps)
    ensures var s := Exec(steps);
            && s.waiternum == 2 && s.signaled && s.signaller == Some(0) && s.passed == {1, 2}
            && s.event.counted == {} && s.event.sem.value == 0 && s.event.sem.queue == [] && s.event.blockNum == 0
            && s.comp.counted == {0} && s.comp.sem.value == 0 && s.comp.sem.queue == [0] && s.comp.blockNum == 1
  {
    var s0: seq<Step> := [];
    RunExtends(s0, BeginWait(1));
    var s1 := s0 + [BeginWait(1)];
    RunExtends(s1, BeginWait(2));
    var s2 := s1 + [BeginWait(2)];
    RunExtends(s2, BeginSignal(0));
    var s3 := s2 + [BeginSignal(0)];
    RunExtends(s3, EndWait(1));
    var s4 := s3 + [EndWait(1)];
    RunExtends(s4, EndWait(2));
    steps := s4 + [EndWait(2)];
  }

  lemma SignalOnATokenReturns(s: State)
    requires s.waiternum == 1 && s.signaller == None && s.passed == {}
    requires s.event.counted == {3} && s.event.sem.queue == [3] && s.event.sem.value == 0 && s.event.blockNum == 1
    requires s.comp.counted == {1} && s.comp.sem.value == 1
    ensures var u := Take(s, BeginSignal(0));
            && Outside(u, 0) && u.waiternum == 1 && !u.signaled && u.passed == {}
            && u.event.counted == {3} && u.event.sem.value == 1 && u.comp.counted == {1} && u.signaller == None
  {
    var e := C.Take(s.event, C.Signal);
    assert e.blockNum == 0 && e.sem.value == 1 && e.counted == {3};
    assert Broadcast(s.event) == Broadcast(e) == e;
    assert C.Enter(s.comp, 0).counted == {1};
  }

  // Thread 3 waits at the closed barrier; the next Signal takes thread 1's token and returns at once, although thread 3
  // has not responded.  The barrier is closed again, 3's token is about, and thread 4 passes it with no Signal to come.
  lemma BargingBreaksSignalAndWait()
    ensures var steps := [BeginWait(1), BeginWait(2), BeginSignal(0), EndWait(1), EndWait(2), BeginComplete(1),
                          BeginComplete(2), EndSignal, BeginWait(3), BeginSignal(0), BeginWait(4)];
            && IsRun(steps)
            && BargesAt(steps, 9) && Outside(StateAt(steps, 10), 0) && !EmptyBetween(steps, 9, 10)
            && BargesAt(steps, 10) && !StateAt(steps, 10).signaled && 4 in Exec(steps).passed
  {
    var s8 := ClosedWithAToken();
    RunExtends(s8, BeginWait(3));
    var s9 := s8 + [BeginWait(3)];
    SignalOnATokenReturns(Exec(s9));
    RunExtends(s9, BeginSignal(0));
    var s10 := s9 + [BeginSignal(0)];
    RunExtends(s10, BeginWait(4));
    var s11 := s10 + [BeginWait(4)];
    assert s11[..9] == s9 && s11[..10] == s10 && s11[..11] == s11;
    assert s11 == [BeginWait(1), BeginWait(2), BeginSignal(0), EndWait(1), EndWait(2), BeginComplete(1),
                   BeginComplete(2), EndSignal, BeginWait(3), BeginSignal(0), BeginWait(4)];
  }
}
