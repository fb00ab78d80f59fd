/** The event barrier: a broadcast-and-acknowledge rendezvous, as a protocol over the sections its lock protects.

    The conditions follow the documented Mesa contract: a thread that waits is asleep until a broadcast on that
    condition and resumes some time later, when it gets the lock.  There is one signaller at a time. */
module EventBarriers {
  import opened Common

  datatype Signaller = Away | Asleep | Woken

  // onEvent, onComp: threads asleep on the two conditions.  offEvent, offComp: threads woken from them that have not
  // got the lock back.  passed: threads back from Wait that have not called Complete.
  datatype Barrier = Barrier(
    waiternum: int,
    signaled: bool,
    signaller: Signaller,
    onEvent: set<Thread>,
    offEvent: set<Thread>,
    passed: set<Thread>,
    onComp: set<Thread>,
    offComp: set<Thread>)

  datatype Step =
    | BeginWait(t: Thread)
    | EndWait(t: Thread)
    | BeginSignal
    | EndSignal
    | BeginComplete(t: Thread)
    | EndComplete(t: Thread)

  predicate Outside(b: Barrier, t: Thread) {
    t !in b.onEvent && t !in b.offEvent && t !in b.passed && t !in b.onComp && t !in b.offComp
  }

  predicate CanStep(b: Barrier, step: Step) {
    match step
    case BeginWait(t) => Outside(b, t)
    case EndWait(t) => t in b.offEvent
    case BeginSignal => b.signaller == Away
    case EndSignal => b.signaller == Woken
    case BeginComplete(t) => t in b.passed
    case EndComplete(t) => t in b.offComp
  }

  function Take(b: Barrier, step: Step): Barrier {
    match step
    case BeginWait(t) =>
      var c := b.(waiternum := b.waiternum + 1);
      if b.signaled then c.(passed := b.passed + {t}) else c.(onEvent := b.onEvent + {t})
    case EndWait(t) => b.(offEvent := b.offEvent - {t}, passed := b.passed + {t})
    case BeginSignal => b.(signaled := true, signaller := Asleep, onEvent := {}, offEvent := b.offEvent + b.onEvent)
    case EndSignal => b.(signaled := false, signaller := Away)
    case BeginComplete(t) =>
      var c := b.(waiternum := b.waiternum - 1, passed := b.passed - {t});
      if c.waiternum == 0 then
        c.(onComp := {}, offComp := b.offComp + b.onComp,
           signaller := if b.signaller == Asleep then Woken else b.signaller)
      else c.(onComp := b.onComp + {t})
    case EndComplete(t) => b.(offComp := b.offComp - {t})
  }

  function NewBarrier(): Barrier {
    Barrier(0, false, Away, {}, {}, {}, {}, {})
  }

  function Exec(b: Barrier, steps: seq<Step>): Barrier {
    if steps == [] then b else Take(Exec(b, steps[..|steps| - 1]), steps[|steps| - 1])
  }

  predicate IsRun(b: Barrier, steps: seq<Step>) {
    steps == [] ||
    (IsRun(b, steps[..|steps| - 1]) && CanStep(Exec(b, steps[..|steps| - 1]), steps[|steps| - 1]))
  }

  lemma RunExtends(b: Barrier, steps: seq<Step>, step: Step)
    requires IsRun(b, steps) && CanStep(Exec(b, steps), step)
    ensures IsRun(b, steps + [step]) && Exec(b, steps + [step]) == Take(Exec(b, steps), step)
  {
    assert (steps + [step])[..|steps|] == steps;
  }

  // ---------- Invariant ----------

  ghost predicate Apart(b: Barrier) {
    && b.onEvent !! b.offEvent && b.onEvent !! b.passed && b.onEvent !! b.onComp && b.onEvent !! b.offComp
    && b.offEvent !! b.passed && b.offEvent !! b.onComp && b.offEvent !! b.offComp
    && b.passed !! b.onComp && b.passed !! b.offComp
    && b.onComp !! b.offComp
  }

  ghost predicate Inv(b: Barrier) {
    && Apart(b)
    && b.waiternum == |b.onEvent| + |b.offEvent| + |b.passed|
    && (b.signaled <==> b.signaller != Away)
    && (b.signaled ==> b.onEvent == {})
    && (b.onComp != {} ==> b.waiternum > 0)
  }

  lemma WaitKeeps(b: Barrier, t: Thread)
    requires Inv(b) && Outside(b, t)
    ensures Inv(Take(b, BeginWait(t)))
  {
  }

  lemma WaitReturnKeeps(b: Barrier, t: Thread)
    requires Inv(b) && t in b.offEvent
    ensures Inv(Take(b, EndWait(t)))
  {
    assert |b.offEvent - {t}| == |b.offEvent| - 1;
    assert |b.passed + {t}| == |b.passed| + 1;
  }

  lemma SignalKeeps(b: Barrier)
    requires Inv(b) && b.signaller == Away
    ensures Inv(Take(b, BeginSignal))
  {
    assert |b.offEvent + b.onEvent| == |b.offEvent| + |b.onEvent|;
  }

  lemma CompleteKeeps(b: Barrier, t: Thread)
    requires Inv(b) && t in b.passed
    ensures Inv(Take(b, BeginComplete(t)))
  {
    assert |b.passed - {t}| == |b.passed| - 1;
  }

  lemma TakeKeeps(b: Barrier, step: Step)
    requires Inv(b) && CanStep(b, step)
    ensures Inv(Take(b, step))
  {
    match step {
      case BeginWait(t) => WaitKeeps(b, t);
      case EndWait(t) => WaitReturnKeeps(b, t);
      case BeginSignal => SignalKeeps(b);
      case EndSignal =>
      case BeginComplete(t) => CompleteKeeps(b, t);
      case EndComplete(t) =>
    }
  }

  lemma {:induction false} RunKeeps(b: Barrier, steps: seq<Step>)
    requires Inv(b) && IsRun(b, steps)
    ensures Inv(Exec(b, steps))
  {
    if steps != [] {
      RunKeeps(b, steps[..|steps| - 1]);
      TakeKeeps(Exec(b, steps[..|steps| - 1]), steps[|steps| - 1]);
    }
  }

  // ---------- Progress ----------

  // In every reachable state a completer asleep on comp has somebody left to wait for; and while the barrier is open
  // nobody sleeps on event, and the count is that of the released threads that have yet to call Complete.
  lemma {:induction false} OpenBarrierCounts(steps: seq<Step>)
    requires IsRun(NewBarrier(), steps)
    ensures var b := Exec(NewBarrier(), steps);
            && (b.onComp != {} ==> b.waiternum > 0)
            && (b.signaled ==> b.onEvent == {} && b.waiternum == |b.offEvent + b.passed|)
  {
    RunKeeps(NewBarrier(), steps);
  }

  // Neither a new arrival nor a new signal.
  predicate Closing(steps: seq<Step>) {
    forall i | 0 <= i < |steps| :: !steps[i].BeginWait? && steps[i] != BeginSignal
  }

  function Completes(steps: seq<Step>): nat {
    if steps == [] then 0
    else Completes(steps[..|steps| - 1]) + if steps[|steps| - 1].BeginComplete? then 1 else 0
  }

  // From a state with a sleeping signaller and threads to wait for, and with no new arrivals, exactly waiternum
  // calls of Complete wake the signaller: it sleeps before the last of them and not after.
  lemma {:induction false} ExactlyWaiternumCompletes(b: Barrier, steps: seq<Step>)
    requires Inv(b) && b.signaller == Asleep && b.waiternum > 0
    requires IsRun(b, steps) && Closing(steps)
    ensures Completes(steps) <= b.waiternum
    ensures Exec(b, steps).waiternum == b.waiternum - Completes(steps)
    ensures Exec(b, steps).signaller == Asleep <==> Completes(steps) < b.waiternum
  {
    if steps != [] {
      var n := |steps| - 1;
      ExactlyWaiternumCompletes(b, steps[..n]);
      RunKeeps(b, steps[..n]);
      var c := Exec(b, steps[..n]);
      if steps[n].BeginComplete? {
        assert steps[n].t in c.passed && c.passed != {};
      }
    }
  }

  // Until then somebody can always go on, and once the signaller is woken it closes the barrier.
  lemma SomebodyCanGoOn(b: Barrier, steps: seq<Step>)
    requires Inv(b) && b.signaller == Asleep && b.waiternum > 0
    requires IsRun(b, steps) && Closing(steps)
    ensures var c := Exec(b, steps);
            && (c.signaller == Asleep ==> exists t :: CanStep(c, EndWait(t)) || CanStep(c, BeginComplete(t)))
            && (c.signaller == Woken ==> CanStep(c, EndSignal) && !Take(c, EndSignal).signaled)
            && (c.signaller == Away ==> !c.signaled)
  {
    ExactlyWaiternumCompletes(b, steps);
    RunKeeps(b, steps);
    var c := Exec(b, steps);
    if c.signaller == Asleep {
      assert c.offEvent + c.passed != {};
      var t :| t in c.offEvent + c.passed;
      assert CanStep(c, EndWait(t)) || CanStep(c, BeginComplete(t));
    }
  }

  // ---------- Rendezvous ----------

  function StateAt(steps: seq<Step>, i: nat): Barrier
    requires i <= |steps|
  {
    Exec(NewBarrier(), steps[..i])
  }

  lemma StepAt(steps: seq<Step>, i: nat)
    requires IsRun(NewBarrier(), steps) && i < |steps|
    ensures CanStep(StateAt(steps, i), steps[i]) && StateAt(steps, i + 1) == Take(StateAt(steps, i), steps[i])
    decreases |steps| - i
  {
    assert steps[..i + 1][..i] == steps[..i];
    PrefixRuns(steps, i + 1);
  }

  lemma {:induction false} PrefixRuns(steps: seq<Step>, i: nat)
    requires IsRun(NewBarrier(), steps) && i <= |steps|
    ensures IsRun(NewBarrier(), steps[..i])
  {
    if i < |steps| {
      PrefixRuns(steps[..|steps| - 1], i);
      assert steps[..|steps| - 1][..i] == steps[..i];
    } else {
      assert steps[..i] == steps;
    }
  }

  ghost predicate EmptyBetween(steps: seq<Step>, i: nat, j: nat)
    requires i <= j <= |steps|
  {
    exists k | i < k <= j :: StateAt(steps, k).waiternum == 0
  }

  lemma {:induction false} LeavingComp(steps: seq<Step>, i: nat, j: nat, t: Thread)
    requires IsRun(NewBarrier(), steps) && i <= j <= |steps|
    requires t in StateAt(steps, i).onComp && t !in StateAt(steps, j).onComp
    ensures EmptyBetween(steps, i, j)
    decreases j
  {
    StepAt(steps, j - 1);
    if t in StateAt(steps, j - 1).onComp {
      assert StateAt(steps, j).waiternum == 0;
    } else {
      LeavingComp(steps, i, j - 1, t);
      var k :| i < k <= j - 1 && StateAt(steps, k).waiternum == 0;
      assert StateAt(steps, k).waiternum == 0;
    }
  }

  // No thread returns from Complete before an instant, after its call began, when everybody had responded.
  lemma CompleteIsARendezvous(steps: seq<Step>, i: nat, j: nat, t: Thread)
    requires IsRun(NewBarrier(), steps) && i < j <= |steps|
    requires steps[i] == BeginComplete(t) && t !in StateAt(steps, j).onComp
    ensures EmptyBetween(steps, i, j)
  {
    StepAt(steps, i);
    if t in StateAt(steps, i + 1).onComp {
      LeavingComp(steps, i + 1, j, t);
      var k :| i + 1 < k <= j && StateAt(steps, k).waiternum == 0;
      assert StateAt(steps, k).waiternum == 0;
    } else {
      assert StateAt(steps, i + 1).waiternum == 0;
    }
  }

  lemma {:induction false} SignallerWakes(steps: seq<Step>, i: nat, j: nat)
    requires IsRun(NewBarrier(), steps) && i <= j <= |steps|
    requires StateAt(steps, i).signaller == Asleep && StateAt(steps, j).signaller != Asleep
    ensures EmptyBetween(steps, i, j)
    decreases j
  {
    StepAt(steps, j - 1);
    if StateAt(steps, j - 1).signaller == Asleep {
      assert StateAt(steps, j).waiternum == 0;
    } else {
      SignallerWakes(steps, i, j - 1);
      var k :| i < k <= j - 1 && StateAt(steps, k).waiternum == 0;
      assert StateAt(steps, k).waiternum == 0;
    }
  }

  // Nor does a signaller return from Signal before such an instant.
  lemma SignalIsARendezvous(steps: seq<Step>, i: nat, j: nat)
    requires IsRun(NewBarrier(), steps) && i < j < |steps|
    requires steps[i] == BeginSignal && steps[j] == EndSignal
    ensures EmptyBetween(steps, i, j)
  {
    StepAt(steps, i);
    StepAt(steps, j);
    SignallerWakes(steps, i + 1, j);
    var k :| i + 1 < k <= j && StateAt(steps, k).waiternum == 0;
    assert StateAt(steps, k).waiternum == 0;
  }

  // A thread that arrives at a closed barrier does not leave Wait before a later signal.
  lemma {:induction false} ClosedBarrierHolds(steps: seq<Step>, i: nat, j: nat, t: Thread)
    requires IsRun(NewBarrier(), steps) && i < j <= |steps|
    requires steps[i] == BeginWait(t) && !StateAt(steps, i).signaled && t !in StateAt(steps, j).onEvent
    ensures exists k | i < k < j :: steps[k] == BeginSignal
    decreases j
  {
    StepAt(steps, j - 1);
    if j - 1 > i && t !in StateAt(steps, j - 1).onEvent {
      ClosedBarrierHolds(steps, i, j - 1, t);
    } else {
      StepAt(steps, i);
      assert steps[j - 1] == BeginSignal;
    }
  }

  // ---------- The late-arrival window ----------

  function Arrivals(steps: seq<Step>): nat {
    if steps == [] then 0
    else Arrivals(steps[..|steps| - 1]) + if steps[|steps| - 1].BeginWait? then 1 else 0
  }

  // Between the last Complete and the moment the signaller resumes, the barrier still lets everybody through:
  // the signal returns with nobody left to respond exactly if every thread that came in that window has completed.
  lemma {:induction false} LateArrivals(b: Barrier, steps: seq<Step>)
    requires Inv(b) && b.signaller == Woken && b.waiternum == 0
    requires IsRun(b, steps) && EndSignal !in steps
    ensures Exec(b, steps).signaller == Woken && Exec(b, steps).onEvent == {}
    ensures Exec(b, steps).waiternum == Arrivals(steps) - Completes(steps)
    ensures Take(Exec(b, steps), EndSignal).waiternum == 0 <==> Arrivals(steps) == Completes(steps)
  {
    if steps != [] {
      var n := |steps| - 1;
      LateArrivals(b, steps[..n]);
      RunKeeps(b, steps[..n]);
      assert steps[n] in steps;
    }
  }

  // The signaller may resume at any moment of the window.
  ghost predicate EmptyThroughout(b: Barrier, steps: seq<Step>) {
    forall i: nat | i <= |steps| :: EmptyAfter(b, steps, i)
  }

  ghost predicate EmptyAfter(b: Barrier, steps: seq<Step>, i: nat)
    requires i <= |steps|
  {
    Exec(b, steps[..i]).waiternum == 0
  }

  // Whenever that is, nobody is left to respond if and only if nobody calls Wait in the window.
  lemma {:induction false} NobodySlipsThrough(b: Barrier, steps: seq<Step>)
    requires Inv(b) && b.signaller == Woken && b.waiternum == 0
    requires IsRun(b, steps) && EndSignal !in steps
    ensures EmptyThroughout(b, steps) <==> forall i | 0 <= i < |steps| :: !steps[i].BeginWait?
  {
    if steps != [] {
      var n := |steps| - 1;
      var front := steps[..n];
      NobodySlipsThrough(b, front);
      LateArrivals(b, front);
      RunKeeps(b, front);
      LateArrivals(b, steps);
      assert front[..n] == front && steps[..n + 1] == steps;
      forall i: nat | i <= n ensures EmptyAfter(b, steps, i) <==> EmptyAfter(b, front, i) {
        assert steps[..i] == front[..i];
      }
      assert EmptyThroughout(b, steps) <==> EmptyThroughout(b, front) && EmptyAfter(b, steps, n + 1);
      if EmptyThroughout(b, front) {
        assert EmptyAfter(b, front, n);
      }
    } else {
      assert steps[..0] == [];
    }
  }

  // Such a window: thread 2 calls Wait after thread 1's Complete and goes through although no signal is to come;
  // then Signal returns while thread 2 has not responded.
  lemma LateArrivalSlipsThrough()
    ensures var steps := [BeginWait(1), BeginSignal, EndWait(1), BeginComplete(1), BeginWait(2), EndSignal];
            && IsRun(NewBarrier(), steps)
            && Exec(NewBarrier(), steps) == Barrier(1, false, Away, {}, {}, {2}, {}, {})
  {
    var b := NewBarrier();
    var s0: seq<Step> := [];
    RunExtends(b, s0, BeginWait(1));
    var s1 := s0 + [BeginWait(1)];
    RunExtends(b, s1, BeginSignal);
    var s2 := s1 + [BeginSignal];
    RunExtends(b, s2, EndWait(1));
    var s3 := s2 + [EndWait(1)];
    RunExtends(b, s3, BeginComplete(1));
    var s4 := s3 + [BeginComplete(1)];
    RunExtends(b, s4, BeginWait(2));
    var s5 := s4 + [BeginWait(2)];
    RunExtends(b, s5, EndSignal);
    assert s5 + [EndSignal] == [BeginWait(1), BeginSignal, EndWait(1), BeginComplete(1), BeginWait(2), EndSignal];
  }

  // ---------- The class ----------

  class EventBarrier {
    var waiternum: int
    var signaled: bool
    var signaller: Signaller
    var onEvent: set<Thread>
    var onComp: set<Thread>
    ghost var offEvent: set<Thread>
    ghost var passed: set<Thread>
    ghost var offComp: set<Thread>

    ghost function View(): Barrier
      reads this
    {
      Barrier(waiternum, signaled, signaller, onEvent, offEvent, passed, onComp, offComp)
    }

    constructor ()
      ensures View() == NewBarrier()
    {
      waiternum, signaled, signaller := 0, false, Away;
      onEvent, onComp, offEvent, passed, offComp := {}, {}, {}, {}, {};
    }

    // Up to the return of Wait, or to falling asleep on event.
    method Wait(t: Thread) returns (through: bool)
      modifies this
      ensures View() == Take(old(View()), BeginWait(t))
      ensures waiternum == old(waiternum) + 1 && signaled == old(signaled)
      ensures onEvent == if through then old(onEvent) else old(onEvent) + {t}
      ensures through <==> old(signaled)
    {
      waiternum := waiternum + 1;
      if signaled {
        passed := passed + {t};
        return true;
      } else {
        onEvent := onEvent + {t};
        return false;
      }
    }

    // Up to falling asleep on comp.
    method Signal()
      modifies this
      ensures View() == Take(old(View()), BeginSignal)
      ensures signaled && onEvent == {} && offEvent == old(offEvent) + old(onEvent)
      ensures signaller == Asleep && waiternum == old(waiternum)
    {
      signaled := true;
      offEvent := offEvent + onEvent;
      onEvent := {};
      signaller := Asleep;
    }

    // The rest of Signal, once woken.
    method Reset()
      modifies this
      ensures View() == Take(old(View()), EndSignal)
      ensures !signaled && signaller == Away && waiternum == old(waiternum)
    {
      signaller := Away;
      signaled := false;
    }

    // Up to the return of Complete, or to falling asleep on comp.
    method Complete(t: Thread) returns (through: bool)
      modifies this
      ensures View() == Take(old(View()), BeginComplete(t))
      ensures through <==> waiternum == 0
      ensures waiternum == old(waiternum) - 1 && signaled == old(signaled)
      ensures if through then onComp == {} && offComp == old(offComp) + old(onComp) && signaller != Asleep
              else onComp == old(onComp) + {t} && offComp == old(offComp) && signaller == old(signaller)
    {
      waiternum := waiternum - 1;
      passed := passed - {t};
      if waiternum == 0 {
        offComp := offComp + onComp;
        onComp := {};
        if signaller == Asleep {
          signaller := Woken;
        }
        return true;
      } else {
        onComp := onComp + {t};
        return false;
      }
    }
  }
}
