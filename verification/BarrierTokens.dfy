/** The event barrier on the conditions that are built from semaphores.

    Module EventBarriers takes conditions by their documented contract: who is woken resumes.  Here both conditions
    hand out tokens, and a thread that begins to wait while a token is about takes it.  The barrier follows
    EventBarriers step by step exactly as long as that does not happen.  Every section that the lock protects is one
    step. */
module BarrierTokens {
  import opened Common
  import C = Conditions
  import E = EventBarriers

  // signaller: the thread inside Signal.  passed: threads back from Wait that have not called Complete.
  datatype State = State(
    waiternum: int,
    signaled: bool,
    signaller: Option<Thread>,
    event: C.Cond,
    comp: C.Cond,
    passed: set<Thread>)

  datatype Step =
    | BeginWait(t: Thread)
    | EndWait(t: Thread)
    | BeginSignal(t: Thread)
    | EndSignal
    | BeginComplete(t: Thread)
    | EndComplete(t: Thread)

  function Broadcast(c: C.Cond): C.Cond
    decreases c.blockNum
  {
    if c.blockNum <= 0 then c else Broadcast(C.Take(c, C.Signal))
  }

  predicate Outside(s: State, t: Thread) {
    t !in s.event.counted && t !in s.comp.counted && t !in s.passed && s.signaller != Some(t)
  }

  predicate CanStep(s: State, step: Step) {
    match step
    case BeginWait(t) => Outside(s, t)
    case EndWait(t) => C.CanStep(s.event, C.Test(t))
    case BeginSignal(t) => Outside(s, t) && s.signaller == None
    case EndSignal => s.signaller.Some? && s.signaller.value !in s.comp.sem.queue
    case BeginComplete(t) => t in s.passed
    case EndComplete(t) => C.CanStep(s.comp, C.Test(t)) && s.signaller != Some(t)
  }

  function Take(s: State, step: Step): State {
    match step
    case BeginWait(t) =>
      var s' := s.(waiternum := s.waiternum + 1);
      if s.signaled then s'.(passed := s.passed + {t}) else Waited(s', C.Enter(s.event, t), t)
    case EndWait(t) => Waited(s, C.Resume(s.event, t), t)
    case BeginSignal(t) => Signalled(s.(event := Broadcast(s.event), signaled := true), C.Enter(s.comp, t), t)
    case EndSignal =>
      if s.signaller == None then s else Signalled(s, C.Resume(s.comp, s.signaller.value), s.signaller.value)
    case BeginComplete(t) =>
      var s' := s.(waiternum := s.waiternum - 1, passed := s.passed - {t});
      s'.(comp := if s'.waiternum == 0 then Broadcast(s.comp) else C.Enter(s.comp, t))
    case EndComplete(t) => s.(comp := C.Resume(s.comp, t))
  }

  // Back from Wait, unless it sleeps.
  function Waited(s: State, event: C.Cond, t: Thread): State {
    s.(event := event, passed := if t in event.counted then s.passed else s.passed + {t})
  }

  // Back from Signal with the barrier closed, unless it sleeps.
  function Signalled(s: State, comp: C.Cond, t: Thread): State {
    if t in comp.counted then s.(comp := comp, signaller := Some(t))
    else s.(comp := comp, signaller := None, signaled := false)
  }

  function NewBarrier(): State {
    State(0, false, None, C.NewCond(), C.NewCond(), {})
  }

  function Exec(steps: seq<Step>): State {
    if steps == [] then NewBarrier() else Take(Exec(steps[..|steps| - 1]), steps[|steps| - 1])
  }

  predicate IsRun(steps: seq<Step>) {
    steps == [] || (IsRun(steps[..|steps| - 1]) && CanStep(Exec(steps[..|steps| - 1]), steps[|steps| - 1]))
  }

  lemma RunExtends(steps: seq<Step>, step: Step)
    requires IsRun(steps) && CanStep(Exec(steps), step)
    ensures IsRun(steps + [step]) && Exec(steps + [step]) == Take(Exec(steps), step)
  {
    assert (steps + [step])[..|steps|] == steps;
  }

  // ---------- What EventBarriers sees of a state ----------

  function Asleep(c: C.Cond): set<Thread> {
    set t | t in c.sem.queue
  }

  function Seen(s: State): E.Barrier {
    var signaller := if s.signaller == None then {} else {s.signaller.value};
    E.Barrier(
      s.waiternum,
      s.signaled,
      if s.signaller == None then E.Away else if s.signaller.value in s.comp.sem.queue then E.Asleep else E.Woken,
      Asleep(s.event),
      s.event.sem.woken,
      s.passed,
      Asleep(s.comp) - signaller,
      s.comp.sem.woken - signaller)
  }

  function SeenStep(step: Step): E.Step {
    match step
    case BeginWait(t) => E.BeginWait(t)
    case EndWait(t) => E.EndWait(t)
    case BeginSignal(_) => E.BeginSignal
    case EndSignal => E.EndSignal
    case BeginComplete(t) => E.BeginComplete(t)
    case EndComplete(t) => E.EndComplete(t)
  }

  // A thread begins to wait on a condition while a token is about, and takes it.
  predicate Barges(s: State, step: Step) {
    match step
    case BeginWait(_) => !s.signaled && s.event.sem.value > 0
    case BeginSignal(_) => s.comp.sem.value > 0
    case BeginComplete(_) => s.waiternum != 1 && s.comp.sem.value > 0
    case _ => false
  }

  // Every token is meant for a woken thread, and whoever is counted is asleep or has been woken.
  ghost predicate Aligned(c: C.Cond) {
    && C.CondInv(c)
    && c.sem.value == |c.sem.woken| && c.blockNum == |c.sem.queue|
    && forall t :: t in c.counted <==> t in c.sem.queue || t in c.sem.woken
  }

  lemma EnterSleeps(c: C.Cond, t: Thread)
    requires Aligned(c) && t !in c.counted && c.sem.value == 0
    ensures var d := C.Enter(c, t);
            && Aligned(d) && t in d.counted && t in d.sem.queue
            && Asleep(d) == Asleep(c) + {t} && d.sem.woken == c.sem.woken && d.counted == c.counted + {t}
  {
    C.TakeKeeps(c, C.Count(t));
    C.TakeKeeps(C.Take(c, C.Count(t)), C.Test(t));
    assert c.sem.woken - {t} == c.sem.woken;
  }

  lemma EnterBarges(c: C.Cond, t: Thread)
    requires Aligned(c) && t !in c.counted && c.sem.value > 0
    ensures t !in C.Enter(c, t).counted && t !in C.Enter(c, t).sem.queue
  {
  }

  lemma ResumeKeeps(c: C.Cond, t: Thread)
    requires Aligned(c) && C.CanStep(c, C.Test(t))
    ensures var d := C.Resume(c, t);
            && Aligned(d) && d.counted == c.counted - {t}
            && Asleep(d) == Asleep(c) && d.sem.woken == c.sem.woken - {t} && t in c.sem.woken
  {
    C.TakeKeeps(c, C.Test(t));
    assert |c.sem.woken - {t}| == |c.sem.woken| - 1;
  }

  lemma SignalKeeps(c: C.Cond)
    requires Aligned(c) && c.sem.queue != []
    ensures var d := C.Take(c, C.Signal);
            && Aligned(d) && d.counted == c.counted && d.sem.queue == c.sem.queue[1..]
            && d.sem.woken == c.sem.woken + {c.sem.queue[0]}
  {
    C.TakeKeeps(c, C.Signal);
    var first := c.sem.queue[0];
    assert first in c.sem.queue;
    assert |c.sem.woken + {first}| == |c.sem.woken| + 1;
    assert c.sem.queue == [first] + c.sem.queue[1..];
  }

  lemma AsleepFirst(c: C.Cond, d: C.Cond)
    requires c.sem.queue != [] && d.sem.queue == c.sem.queue[1..]
    ensures Asleep(c) == {c.sem.queue[0]} + Asleep(d)
  {
    assert c.sem.queue == [c.sem.queue[0]] + d.sem.queue;
  }

  lemma {:induction false} BroadcastKeeps(c: C.Cond)
    requires Aligned(c)
    ensures Aligned(Broadcast(c)) && Broadcast(c).counted == c.counted
    ensures Asleep(Broadcast(c)) == {} && Broadcast(c).sem.woken == c.sem.woken + Asleep(c)
    decreases c.blockNum
  {
    if c.sem.queue != [] {
      var d := C.Take(c, C.Signal);
      SignalKeeps(c);
      BroadcastKeeps(d);
      AsleepFirst(c, d);
      assert Broadcast(c) == Broadcast(d);
    } else {
      assert Broadcast(c) == c && Asleep(c) == {};
    }
  }

  ghost predicate Matching(s: State) {
    && Aligned(s.event) && Aligned(s.comp)
    && E.Inv(Seen(s))
    && SignallerApart(s)
  }

  // ---------- Refinement ----------

  // The step is the one that EventBarriers takes.
  ghost predicate Follows(s: State, step: Step) {
    Seen(Take(s, step)) == E.Take(Seen(s), SeenStep(step))
  }

  ghost predicate SignallerApart(s: State) {
    s.signaller.Some? ==>
      var t := s.signaller.value;
      t in s.comp.counted && t !in s.event.counted && t !in s.passed
  }

  lemma StillMatching(s: State, step: Step)
    requires Matching(s) && E.CanStep(Seen(s), SeenStep(step)) && Follows(s, step)
    requires Aligned(Take(s, step).event) && Aligned(Take(s, step).comp) && SignallerApart(Take(s, step))
    ensures Matching(Take(s, step))
  {
    E.TakeKeeps(Seen(s), SeenStep(step));
  }

  lemma WaitFollows(s: State, t: Thread)
    requires Matching(s) && CanStep(s, BeginWait(t))
    ensures Follows(s, BeginWait(t)) <==> !Barges(s, BeginWait(t))
    ensures !Barges(s, BeginWait(t)) ==> Matching(Take(s, BeginWait(t)))
  {
    if Barges(s, BeginWait(t)) {
      BargingWait(s, t);
    } else {
      if !s.signaled { SleepingWait(s, t); }
      StillMatching(s, BeginWait(t));
    }
  }

  lemma SleepingWait(s: State, t: Thread)
    requires Aligned(s.event) && t !in s.event.counted && !s.signaled && s.event.sem.value == 0
    ensures Follows(s, BeginWait(t)) && Aligned(C.Enter(s.event, t)) && t in C.Enter(s.event, t).counted
    ensures C.Enter(s.event, t).counted == s.event.counted + {t}
  {
    EnterSleeps(s.event, t);
    EventSleeps(s, C.Enter(s.event, t), t);
  }

  // One more thread sleeps on event.
  lemma EventSleeps(s: State, event: C.Cond, t: Thread)
    requires Asleep(event) == Asleep(s.event) + {t} && event.sem.woken == s.event.sem.woken
    ensures var b := Seen(s);
            Seen(s.(waiternum := s.waiternum + 1, event := event)) ==
            b.(waiternum := b.waiternum + 1, onEvent := b.onEvent + {t})
  {
  }

  lemma BargingWait(s: State, t: Thread)
    requires Aligned(s.event) && t !in s.event.counted && Barges(s, BeginWait(t))
    ensures !Follows(s, BeginWait(t))
  {
    EnterBarges(s.event, t);
    assert t !in Seen(Take(s, BeginWait(t))).onEvent;
    assert t in E.Take(Seen(s), E.BeginWait(t)).onEvent;
  }

  lemma WaitReturnFollows(s: State, t: Thread)
    requires Matching(s) && CanStep(s, EndWait(t))
    ensures Follows(s, EndWait(t)) && Matching(Take(s, EndWait(t)))
  {
    ResumeKeeps(s.event, t);
    StillMatching(s, EndWait(t));
  }

  lemma SignalFollows(s: State, t: Thread)
    requires Matching(s) && CanStep(s, BeginSignal(t))
    ensures Follows(s, BeginSignal(t)) <==> !Barges(s, BeginSignal(t))
    ensures !Barges(s, BeginSignal(t)) ==> Matching(Take(s, BeginSignal(t)))
  {
    BroadcastKeeps(s.event);
    if Barges(s, BeginSignal(t)) {
      EnterBarges(s.comp, t);
      assert Seen(Take(s, BeginSignal(t))).signaller == E.Away;
    } else {
      EnterSleeps(s.comp, t);
      SignallerSleeps(s, Broadcast(s.event), C.Enter(s.comp, t), t);
      StillMatching(s, BeginSignal(t));
    }
  }

  // The signaller sleeps on comp, and everybody else has been woken from event.
  lemma SignallerSleeps(s: State, event: C.Cond, comp: C.Cond, t: Thread)
    requires s.signaller == None && t !in Asleep(s.comp) && t !in s.comp.sem.woken
    requires Asleep(comp) == Asleep(s.comp) + {t} && t in comp.sem.queue && comp.sem.woken == s.comp.sem.woken
    requires Asleep(event) == {} && event.sem.woken == s.event.sem.woken + Asleep(s.event)
    ensures Seen(s.(event := event, comp := comp, signaled := true, signaller := Some(t))) ==
            E.Take(Seen(s), E.BeginSignal)
  {
    assert Asleep(comp) - {t} == Asleep(s.comp);
  }

  lemma SignalReturnFollows(s: State)
    requires Matching(s) && CanStep(s, EndSignal)
    ensures Follows(s, EndSignal) && Matching(Take(s, EndSignal))
  {
    var t := s.signaller.value;
    ResumeKeeps(s.comp, t);
    var u := Take(s, EndSignal);
    assert Seen(u).onComp == Seen(s).onComp;
    assert Seen(u).offComp == Seen(s).offComp;
    assert Follows(s, EndSignal);
    StillMatching(s, EndSignal);
  }

  lemma LastCompleteFollows(s: State, t: Thread)
    requires Matching(s) && CanStep(s, BeginComplete(t)) && s.waiternum == 1
    ensures Follows(s, BeginComplete(t)) && Matching(Take(s, BeginComplete(t)))
  {
    BroadcastKeeps(s.comp);
    var u := Take(s, BeginComplete(t));
    assert Seen(u).onComp == {};
    assert Seen(u).offComp == Seen(s).offComp + Seen(s).onComp;
    assert forall v :: v in u.comp.sem.queue ==> v in Asleep(u.comp);
    StillMatching(s, BeginComplete(t));
  }

  lemma EarlyCompleteFollows(s: State, t: Thread)
    requires Matching(s) && CanStep(s, BeginComplete(t)) && s.waiternum != 1 && s.comp.sem.value == 0
    ensures Follows(s, BeginComplete(t)) && Matching(Take(s, BeginComplete(t)))
  {
    PassedIsNotCounted(s, t);
    EnterSleeps(s.comp, t);
    EarlyCompleteSeen(s, C.Enter(s.comp, t), t);
    StillMatching(s, BeginComplete(t));
  }

  lemma EarlyCompleteSeen(s: State, comp: C.Cond, t: Thread)
    requires comp == C.Enter(s.comp, t) && Asleep(comp) == Asleep(s.comp) + {t} && comp.sem.woken == s.comp.sem.woken
    requires s.signaller != Some(t) && s.waiternum != 1
    ensures Follows(s, BeginComplete(t))
  {
    var u := s.(waiternum := s.waiternum - 1, passed := s.passed - {t}, comp := comp);
    assert Take(s, BeginComplete(t)) == u;
    CompSleeps(s, comp, t);
  }

  // One more thread, which is not the signaller, sleeps on comp.
  lemma CompSleeps(s: State, comp: C.Cond, t: Thread)
    requires Asleep(comp) == Asleep(s.comp) + {t} && comp.sem.woken == s.comp.sem.woken
    requires s.signaller != Some(t)
    ensures var b := Seen(s);
            Seen(s.(waiternum := s.waiternum - 1, passed := s.passed - {t}, comp := comp)) ==
            b.(waiternum := b.waiternum - 1, passed := b.passed - {t}, onComp := b.onComp + {t})
  {
    SameSignaller(s, s.(comp := comp), t);
    var signaller := if s.signaller == None then {} else {s.signaller.value};
    assert Asleep(comp) - signaller == (Asleep(s.comp) - signaller) + {t};
  }

  lemma SameSignaller(s: State, u: State, t: Thread)
    requires s.signaller == u.signaller != Some(t) && Asleep(u.comp) == Asleep(s.comp) + {t}
    ensures Seen(u).signaller == Seen(s).signaller
  {
    assert forall v :: v in u.comp.sem.queue <==> v in Asleep(u.comp);
    assert forall v :: v in s.comp.sem.queue <==> v in Asleep(s.comp);
  }

  lemma BargingComplete(s: State, t: Thread)
    requires Matching(s) && CanStep(s, BeginComplete(t)) && s.waiternum != 1 && s.comp.sem.value > 0
    ensures !Follows(s, BeginComplete(t))
  {
    PassedIsNotCounted(s, t);
    EnterBarges(s.comp, t);
    assert t !in Seen(Take(s, BeginComplete(t))).onComp;
    assert t in E.Take(Seen(s), E.BeginComplete(t)).onComp;
  }

  lemma PassedIsNotCounted(s: State, t: Thread)
    requires Matching(s) && t in s.passed
    ensures t !in s.comp.counted && s.signaller != Some(t)
  {
    assert t !in Seen(s).onComp && t !in Seen(s).offComp;
  }

  lemma CompleteFollows(s: State, t: Thread)
    requires Matching(s) && CanStep(s, BeginComplete(t))
    ensures Follows(s, BeginComplete(t)) <==> !Barges(s, BeginComplete(t))
    ensures !Barges(s, BeginComplete(t)) ==> Matching(Take(s, BeginComplete(t)))
  {
    if s.waiternum == 1 {
      LastCompleteFollows(s, t);
    } else if s.comp.sem.value == 0 {
      EarlyCompleteFollows(s, t);
    } else {
      BargingComplete(s, t);
    }
  }

  lemma CompleteReturnFollows(s: State, t: Thread)
    requires Matching(s) && CanStep(s, EndComplete(t))
    ensures Follows(s, EndComplete(t)) && Matching(Take(s, EndComplete(t)))
  {
    ResumeKeeps(s.comp, t);
    var u := Take(s, EndComplete(t));
    assert Seen(u).offComp == Seen(s).offComp - {t};
    assert Seen(u).onComp == Seen(s).onComp;
    StillMatching(s, EndComplete(t));
  }

  // A step is the one the contract allows if and only if it does not barge.
  lemma StepFollows(s: State, step: Step)
    requires Matching(s) && CanStep(s, step)
    ensures E.CanStep(Seen(s), SeenStep(step))
    ensures Follows(s, step) <==> !Barges(s, step)
    ensures !Barges(s, step) ==> Matching(Take(s, step))
  {
    match step {
      case BeginWait(t) => WaitFollows(s, t);
      case EndWait(t) => WaitReturnFollows(s, t);
      case BeginSignal(t) => SignalFollows(s, t);
      case EndSignal => SignalReturnFollows(s);
      case BeginComplete(t) => CompleteFollows(s, t);
      case EndComplete(t) => CompleteReturnFollows(s, t);
    }
  }

  function SeenSteps(steps: seq<Step>): seq<E.Step> {
    seq(|steps|, i requires 0 <= i < |steps| => SeenStep(steps[i]))
  }

  // In every state of the run.
  ghost predicate AlwaysSeen(steps: seq<Step>) {
    && Seen(Exec(steps)) == E.Exec(E.NewBarrier(), SeenSteps(steps))
    && (steps == [] || AlwaysSeen(steps[..|steps| - 1]))
  }

  // At no step of the run.
  predicate NobodyBarges(steps: seq<Step>) {
    steps == [] || (NobodyBarges(steps[..|steps| - 1]) && !Barges(Exec(steps[..|steps| - 1]), steps[|steps| - 1]))
  }

  // A run is a run of EventBarriers, state by state, if and only if nobody barges in it.
  lemma {:induction false} FollowsUnlessBarging(steps: seq<Step>)
    requires IsRun(steps)
    ensures AlwaysSeen(steps) <==> NobodyBarges(steps)
    ensures NobodyBarges(steps) ==> Matching(Exec(steps)) && E.IsRun(E.NewBarrier(), SeenSteps(steps))
  {
    if steps == [] {
      assert SeenSteps(steps) == [];
    } else {
      var n := |steps| - 1;
      var front := steps[..n];
      FollowsUnlessBarging(front);
      assert SeenSteps(steps)[..n] == SeenSteps(front);
      if NobodyBarges(front) { StepFollows(Exec(front), steps[n]); }
    }
  }
}
