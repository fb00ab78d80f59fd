/** The condition variable built from a semaphore and a counter, interleaved at every access to either.

    Signal, and one turn of Broadcast's loop, is two accesses: blockNum-- and then sem->V.  It is one step here, because
    whatever other threads do in between could as well be done before the first (SignalHalvesCommute); the caller holds
    the lock, so that no other signal comes in between. */
module Conditions {
  import opened Common
  import opened Semaphores
  import opened Sums

  // counted: threads that have incremented blockNum and have not got through sem->P since.
  datatype Cond = Cond(sem: Sem, blockNum: int, counted: set<Thread>)

  datatype CondStep =
    | Count(t: Thread)      // Wait, after it released the lock: blockNum++
    | Test(t: Thread)       // Wait: one test of the loop in sem->P
    | Signal                // all of Signal, or one turn of Broadcast's loop

  predicate CanStep(c: Cond, step: CondStep) {
    match step
    case Count(t) => t !in c.counted
    case Test(t) => t in c.counted && t !in c.sem.queue
    case Signal => true
  }

  function Take(c: Cond, step: CondStep): Cond {
    match step
    case Count(t) => c.(blockNum := c.blockNum + 1, counted := c.counted + {t})
    case Test(t) =>
      c.(sem := Check(c.sem, t), counted := if c.sem.value == 0 then c.counted else c.counted - {t})
    case Signal => if c.blockNum > 0 then c.(blockNum := c.blockNum - 1, sem := Vee(c.sem)) else c
  }

  // Wait up to the first test of the semaphore.
  function Enter(c: Cond, t: Thread): Cond {
    Take(Take(c, Count(t)), Test(t))
  }

  // Another test, by a thread that has been woken.
  function Resume(c: Cond, t: Thread): Cond {
    Take(c, Test(t))
  }

  function NewCond(): Cond {
    Cond(NewSem(0), 0, {})
  }

  function ExecCond(steps: seq<CondStep>): Cond {
    if steps == [] then NewCond() else Take(ExecCond(steps[..|steps| - 1]), steps[|steps| - 1])
  }

  predicate IsCondRun(steps: seq<CondStep>) {
    steps == [] ||
    (IsCondRun(steps[..|steps| - 1]) && CanStep(ExecCond(steps[..|steps| - 1]), steps[|steps| - 1]))
  }

  lemma CondRunExtends(steps: seq<CondStep>, step: CondStep)
    requires IsCondRun(steps) && CanStep(ExecCond(steps), step)
    ensures IsCondRun(steps + [step]) && ExecCond(steps + [step]) == Take(ExecCond(steps), step)
  {
    assert (steps + [step])[..|steps|] == steps;
  }

  // ---------- Invariant ----------

  ghost predicate CondInv(c: Cond) {
    && SemInv(c.sem)
    && c.blockNum >= 0
    && |c.counted| == c.blockNum + c.sem.value
    && (forall t | t in c.sem.queue || t in c.sem.woken :: t in c.counted)
  }

  lemma TakeKeeps(c: Cond, step: CondStep)
    requires CondInv(c) && CanStep(c, step)
    ensures CondInv(Take(c, step))
  {
    match step {
      case Count(t) =>
      case Test(t) => CheckKeeps(c.sem, t);
      case Signal => VeeKeeps(c.sem);
    }
  }

  lemma {:induction false} CondRunKeeps(steps: seq<CondStep>)
    requires IsCondRun(steps)
    ensures CondInv(ExecCond(steps))
  {
    if steps != [] {
      CondRunKeeps(steps[..|steps| - 1]);
      TakeKeeps(ExecCond(steps[..|steps| - 1]), steps[|steps| - 1]);
    }
  }

  // ---------- The two halves of Signal ----------

  function Discount(c: Cond): Cond {
    c.(blockNum := c.blockNum - 1)
  }

  function Post(c: Cond): Cond {
    c.(sem := Vee(c.sem))
  }

  // A test or a count between the halves could as well come before the first, one after the other.
  lemma SignalHalvesCommute(c: Cond, t: Thread)
    ensures c.blockNum > 0 ==> Take(c, Signal) == Post(Discount(c))
    ensures CanStep(Discount(c), Test(t)) <==> CanStep(c, Test(t))
    ensures Take(Discount(c), Test(t)) == Discount(Take(c, Test(t)))
    ensures CanStep(Discount(c), Count(t)) <==> CanStep(c, Count(t))
    ensures Take(Discount(c), Count(t)) == Discount(Take(c, Count(t)))
    ensures Take(c, Count(t)).blockNum > c.blockNum && Take(c, Test(t)).blockNum == c.blockNum
    ensures CanStep(c, Count(t)) <==> CanStep(Post(c), Count(t))
    ensures Post(Take(c, Count(t))) == Take(Post(c), Count(t))
  {
  }

  // ---------- Theorems ----------

  // The threads between blockNum++ and the end of sem->P are as many as those not signalled and the tokens together;
  // so a condition nobody is counted at holds no token, and signalling it changes nothing.
  lemma {:induction false} TokensAreConserved(steps: seq<CondStep>)
    requires IsCondRun(steps)
    ensures var c := ExecCond(steps);
            && |c.counted| == c.blockNum + c.sem.value && c.blockNum >= 0 && c.sem.value >= 0
            && (c.counted == {} ==> c.sem.value == 0 && Take(c, Signal) == c)
  {
    CondRunKeeps(steps);
  }

  // Calls of Wait that have counted themselves.
  function Counts(steps: seq<CondStep>): nat {
    if steps == [] then 0
    else Counts(steps[..|steps| - 1]) + if steps[|steps| - 1].Count? then 1 else 0
  }

  // Signals that found somebody counted and not yet signalled.
  function Signals(steps: seq<CondStep>): nat {
    if steps == [] then 0
    else
      var front := steps[..|steps| - 1];
      Signals(front) + if steps[|steps| - 1].Signal? && ExecCond(front).blockNum > 0 then 1 else 0
  }

  // Tests that found a token.
  function Passes(steps: seq<CondStep>): nat {
    if steps == [] then 0
    else
      var front := steps[..|steps| - 1];
      Passes(front) + if steps[|steps| - 1].Test? && ExecCond(front).sem.value != 0 then 1 else 0
  }

  // In every interleaving, blockNum is the calls of Wait less the signals that found one of them, each such signal
  // hands out one token, and each token lets one call of Wait return.
  lemma {:induction false} OneTokenForEachSignal(steps: seq<CondStep>)
    requires IsCondRun(steps)
    ensures var c := ExecCond(steps);
            && c.blockNum == Counts(steps) - Signals(steps)
            && c.sem.value == Signals(steps) - Passes(steps)
            && |c.counted| == Counts(steps) - Passes(steps)
            && Passes(steps) <= Signals(steps) <= Counts(steps)
  {
    if steps != [] {
      OneTokenForEachSignal(steps[..|steps| - 1]);
    }
    TokensAreConserved(steps);
  }

  lemma QueueFits(queue: seq<Thread>, woken: set<Thread>, counted: set<Thread>)
    requires Distinct(queue) && woken <= counted
    requires forall t | t in queue :: t in counted && t !in woken
    ensures |queue| + |woken| <= |counted|
  {
    if queue == [] {
      assert counted == woken + (counted - woken);
    } else {
      var n := |queue| - 1;
      assert forall t | t in queue[..n] :: t in queue && t != queue[n];
      assert queue[n] in queue;
      QueueFits(queue[..n], woken, counted - {queue[n]});
    }
  }

  // When Broadcast leaves its loop (blockNum is 0) every counted thread has a token, nobody is asleep any more,
  // and whichever counted thread tests the semaphore next gets through and leaves it so for the others.
  lemma BroadcastFreesEverybody(steps: seq<CondStep>)
    requires IsCondRun(steps) && ExecCond(steps).blockNum == 0
    ensures var c := ExecCond(steps);
            && c.sem.value == |c.counted|
            && c.sem.queue == []
            && (forall t | t in c.counted :: CanStep(c, Test(t)) && Take(c, Test(t)).counted == c.counted - {t}
                                             && Take(c, Test(t)).blockNum == 0)
  {
    CondRunKeeps(steps);
    var c := ExecCond(steps);
    if c.sem.queue != [] {
      QueueFits(c.sem.queue, c.sem.woken, c.counted);
      assert false;
    }
    forall t | t in c.counted ensures c.sem.value != 0 {
      assert c.counted != {};
    }
  }

  // The semaphore does not promise its token to the thread it wakes: thread 1 waits and is signalled, thread 2 comes
  // later, takes the token and is gone, and thread 1 sleeps again.
  lemma TokenCanBeStolen()
    ensures var steps := [Count(1), Test(1), Signal, Count(2), Test(2), Test(1)];
            && IsCondRun(steps)
            && 2 !in ExecCond(steps).counted
            && 1 in ExecCond(steps).counted && ExecCond(steps).sem.queue == [1] && ExecCond(steps).sem.value == 0
  {
    var s0: seq<CondStep> := [];
    CondRunExtends(s0, Count(1));
    var s1 := s0 + [Count(1)];
    CondRunExtends(s1, Test(1));
    var s2 := s1 + [Test(1)];
    CondRunExtends(s2, Signal);
    var s3 := s2 + [Signal];
    CondRunExtends(s3, Count(2));
    var s4 := s3 + [Count(2)];
    CondRunExtends(s4, Test(2));
    var s5 := s4 + [Test(2)];
    CondRunExtends(s5, Test(1));
    assert s5 + [Test(1)] == [Count(1), Test(1), Signal, Count(2), Test(2), Test(1)];
  }

  // ---------- When a woken thread gets through ----------

  // A thread nobody has woken takes a token when there are just enough for those that have been woken.
  predicate Barges(c: Cond, step: CondStep) {
    step.Test? && step.t !in c.sem.woken && 0 < c.sem.value == |c.sem.woken|
  }

  // There is a token for every woken thread.
  predicate Served(c: Cond) {
    c.sem.value >= |c.sem.woken|
  }

  // Such a step, and no other, leaves a woken thread without a token.
  lemma StepServes(c: Cond, step: CondStep)
    requires CondInv(c) && Served(c) && CanStep(c, step)
    ensures Served(Take(c, step)) <==> !Barges(c, step)
  {
    match step {
      case Count(t) =>
      case Test(t) => SetCounts(c.sem.woken, t);
      case Signal =>
        if c.sem.queue != [] { SetCounts(c.sem.woken, c.sem.queue[0]); }
    }
  }

  // In every state of the run.
  predicate AlwaysServed(steps: seq<CondStep>) {
    Served(ExecCond(steps)) && (steps == [] || AlwaysServed(steps[..|steps| - 1]))
  }

  // At no step of the run.
  predicate NobodyBarges(steps: seq<CondStep>) {
    steps == [] ||
    (NobodyBarges(steps[..|steps| - 1]) && !Barges(ExecCond(steps[..|steps| - 1]), steps[|steps| - 1]))
  }

  // Throughout a run there is a token for every woken thread if and only if no step of it barges.
  lemma {:induction false} ServedUnlessBarging(steps: seq<CondStep>)
    requires IsCondRun(steps)
    ensures AlwaysServed(steps) <==> NobodyBarges(steps)
  {
    if steps != [] {
      var front := steps[..|steps| - 1];
      ServedUnlessBarging(front);
      CondRunKeeps(front);
      if AlwaysServed(front) { StepServes(ExecCond(front), steps[|steps| - 1]); }
    }
  }

  // Then a thread that has been woken gets through when it tests the semaphore.
  lemma WokenThreadGetsThrough(steps: seq<CondStep>, t: Thread)
    requires IsCondRun(steps) && NobodyBarges(steps) && t in ExecCond(steps).sem.woken
    ensures var c := ExecCond(steps);
            CanStep(c, Test(t)) && t !in Take(c, Test(t)).counted && t !in Take(c, Test(t)).sem.queue
  {
    CondRunKeeps(steps);
    ServedUnlessBarging(steps);
    SetCounts(ExecCond(steps).sem.woken, t);
  }

  // Steps of woken threads that go back to the semaphore.
  predicate TestsOfWoken(c: Cond, steps: seq<CondStep>)
    decreases |steps|
  {
    steps == [] ||
    (steps[0].Test? && steps[0].t in c.sem.woken && TestsOfWoken(Take(c, steps[0]), steps[1..]))
  }

  function Continue(c: Cond, steps: seq<CondStep>): Cond
    decreases |steps|
  {
    if steps == [] then c else Continue(Take(c, steps[0]), steps[1..])
  }

  // With fewer tokens than woken threads, the woken threads alone bring one of them back to sleep.
  lemma {:induction false} UnservedThreadSleepsAgain(c: Cond) returns (steps: seq<CondStep>, t: Thread)
    requires CondInv(c) && !Served(c)
    ensures TestsOfWoken(c, steps)
    ensures t in Continue(c, steps).sem.woken && t in Take(Continue(c, steps), Test(t)).sem.queue
    decreases c.sem.value
  {
    assert c.sem.woken != {};
    t :| t in c.sem.woken;
    steps := [];
    if c.sem.value > 0 {
      TakeKeeps(c, Test(t));
      SetCounts(c.sem.woken, t);
      var first := Test(t);
      var rest;
      rest, t := UnservedThreadSleepsAgain(Take(c, first));
      steps := [first] + rest;
      assert steps[1..] == rest;
    }
  }

  // ---------- The class ----------

  class Condition {
    const sem: Semaphore
    var blockNum: int
    ghost var counted: set<Thread>

    ghost function View(): Cond
      reads this, sem
    {
      Cond(sem.View(), blockNum, counted)
    }

    constructor ()
      ensures View() == NewCond() && fresh(sem)
    {
      sem := new Semaphore(0);
      blockNum := 0;
      counted := {};
    }

    // Wait from blockNum++ up to its first sleep, or to the end of sem->P.
    method BeginWait(t: Thread) returns (passed: bool)
      requires CondInv(View()) && t !in counted
      modifies this, sem
      ensures CondInv(View()) && View() == Enter(old(View()), t)
      ensures passed <==> t !in counted
      ensures blockNum == old(blockNum) + 1 && (passed <==> old(sem.value) != 0)
      ensures if passed then counted == old(counted) && sem.value == old(sem.value) - 1 && sem.queue == old(sem.queue)
              else counted == old(counted) + {t} && sem.value == 0 && sem.queue == old(sem.queue) + [t]
    {
      TakeKeeps(View(), Count(t));
      TakeKeeps(Take(View(), Count(t)), Test(t));
      blockNum := blockNum + 1;
      counted := counted + {t};
      passed := sem.TestValue(t);
      if passed {
        counted := counted - {t};
      }
    }

    method Signal()
      requires CondInv(View())
      modifies this, sem
      ensures CondInv(View()) && View() == Take(old(View()), CondStep.Signal)
      ensures if old(blockNum) == 0 then View() == old(View())
              else blockNum == old(blockNum) - 1 && sem.value == old(sem.value) + 1 && counted == old(counted)
                   && sem.queue == if old(sem.queue) == [] then [] else old(sem.queue)[1..]
    {
      TakeKeeps(View(), CondStep.Signal);
      if blockNum > 0 {
        blockNum := blockNum - 1;
        sem.V();
      }
    }

    // One token for every thread counted at the call; none of them is asleep afterwards.
    method Broadcast()
      requires CondInv(View())
      modifies this, sem
      ensures CondInv(View()) && counted == old(counted)
      ensures blockNum == 0 && sem.value == |counted| && sem.queue == []
    {
      while blockNum > 0
        invariant CondInv(View()) && counted == old(counted)
        decreases blockNum
      {
        TakeKeeps(View(), CondStep.Signal);
        blockNum := blockNum - 1;
        sem.V();
      }
      if sem.queue != [] {
        QueueFits(sem.queue, sem.woken, counted);
      }
    }
  }
}
