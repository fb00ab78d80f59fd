/** Nachos semaphores: P with its sleeping loop, V, and any interleaving of the two by any threads. */
module Semaphores {
  import opened Common

  // queue: threads asleep in P.  woken: threads V has made ready that have not tested value again.
  // ps, vs: completed calls so far.
  datatype Sem = Sem(value: int, queue: seq<Thread>, woken: set<Thread>, ps: nat, vs: nat)

  function NewSem(initial: nat): Sem {
    Sem(initial, [], {}, 0, 0)
  }

  // One test of the loop in P, up to falling asleep or to the end of P.
  function Check(s: Sem, t: Thread): Sem {
    if s.value == 0 then s.(queue := s.queue + [t], woken := s.woken - {t})
    else s.(value := s.value - 1, woken := s.woken - {t}, ps := s.ps + 1)
  }

  function Vee(s: Sem): Sem {
    var s' := if s.queue == [] then s else s.(queue := s.queue[1..], woken := s.woken + {s.queue[0]});
    s'.(value := s.value + 1, vs := s.vs + 1)
  }

  datatype Step = CheckStep(t: Thread) | VeeStep

  // A thread asleep in the queue does not run.
  predicate Enabled(s: Sem, step: Step) {
    step.CheckStep? ==> step.t !in s.queue
  }

  function Apply(s: Sem, step: Step): Sem {
    match step
    case CheckStep(t) => Check(s, t)
    case VeeStep => Vee(s)
  }

  function Exec(s: Sem, steps: seq<Step>): Sem {
    if steps == [] then s else Apply(Exec(s, steps[..|steps| - 1]), steps[|steps| - 1])
  }

  predicate IsRun(s: Sem, steps: seq<Step>) {
    steps == [] ||
    (IsRun(s, steps[..|steps| - 1]) && Enabled(Exec(s, steps[..|steps| - 1]), steps[|steps| - 1]))
  }

  lemma RunExtends(s: Sem, steps: seq<Step>, step: Step)
    requires IsRun(s, steps) && Enabled(Exec(s, steps), step)
    ensures IsRun(s, steps + [step])
    ensures Exec(s, steps + [step]) == Apply(Exec(s, steps), step)
  {
    assert (steps + [step])[..|steps|] == steps;
  }

  // ---------- Invariant ----------

  // A value nobody has been woken for is only there when nobody sleeps.
  ghost predicate SemInv(s: Sem) {
    && s.value >= 0
    && Distinct(s.queue)
    && (forall t | t in s.queue :: t !in s.woken)
    && (s.queue != [] ==> s.value <= |s.woken|)
  }

  lemma CheckKeeps(s: Sem, t: Thread)
    requires SemInv(s) && t !in s.queue
    ensures SemInv(Check(s, t))
  {
    if t in s.woken {
      assert |s.woken - {t}| == |s.woken| - 1;
    } else {
      assert s.woken - {t} == s.woken;
    }
  }

  lemma VeeKeeps(s: Sem)
    requires SemInv(s)
    ensures SemInv(Vee(s))
  {
    if s.queue != [] {
      assert s.queue[0] in s.queue;
      assert |s.woken + {s.queue[0]}| == |s.woken| + 1;
    }
  }

  lemma {:induction false} RunKeeps(initial: nat, steps: seq<Step>)
    requires IsRun(NewSem(initial), steps)
    ensures var s := Exec(NewSem(initial), steps);
            SemInv(s) && s.value == initial + s.vs - s.ps
  {
    if steps != [] {
      var front := steps[..|steps| - 1];
      RunKeeps(initial, front);
      var s := Exec(NewSem(initial), front);
      match steps[|steps| - 1] {
        case CheckStep(t) => CheckKeeps(s, t);
        case VeeStep => VeeKeeps(s);
      }
    }
  }

  // Over every interleaving: the value is what was put in less what was taken out and never negative,
  // and whenever a thread sleeps although the value is positive, a woken thread is about to test it.
  lemma NoWakeupIsLost(initial: nat, steps: seq<Step>)
    requires IsRun(NewSem(initial), steps)
    ensures var s := Exec(NewSem(initial), steps);
            && 0 <= s.value == initial + s.vs - s.ps
            && (s.queue != [] ==> s.value <= |s.woken|)
            && (s.queue != [] && s.value > 0 ==> exists t :: t in s.woken && Enabled(s, CheckStep(t)))
  {
    RunKeeps(initial, steps);
    var s := Exec(NewSem(initial), steps);
    if s.queue != [] && s.value > 0 {
      assert s.woken != {};
      var t :| t in s.woken;
      assert Enabled(s, CheckStep(t));
    }
  }

  // ---------- What a run does, read off its steps ----------

  // Calls of V.
  function Vees(steps: seq<Step>): nat {
    if steps == [] then 0
    else Vees(steps[..|steps| - 1]) + if steps[|steps| - 1].VeeStep? then 1 else 0
  }

  // Tests that found a value: each is the end of a call of P.
  function Takings(s: Sem, steps: seq<Step>): nat {
    if steps == [] then 0
    else
      var front := steps[..|steps| - 1];
      Takings(s, front) + if steps[|steps| - 1].CheckStep? && Exec(s, front).value != 0 then 1 else 0
  }

  // The threads whose test found none, in the order they fell asleep.
  function Sleepers(s: Sem, steps: seq<Step>): seq<Thread> {
    if steps == [] then []
    else
      var front, last := steps[..|steps| - 1], steps[|steps| - 1];
      if last.CheckStep? && Exec(s, front).value == 0 then Sleepers(s, front) + [last.t] else Sleepers(s, front)
  }

  // Calls of V that found somebody asleep.
  function Wakings(s: Sem, steps: seq<Step>): nat {
    if steps == [] then 0
    else
      var front := steps[..|steps| - 1];
      Wakings(s, front) + if steps[|steps| - 1].VeeStep? && Wakings(s, front) < |Sleepers(s, front)| then 1 else 0
  }

  // In every interleaving the value is the initial value plus the calls of V less the tests that found a value, and
  // the threads asleep are all that ever fell asleep but the first ones, one for each V that found somebody asleep:
  // threads are woken one at a time, in the order they fell asleep.
  lemma {:induction false} WokenInOrder(initial: nat, steps: seq<Step>)
    ensures var s := Exec(NewSem(initial), steps);
            && s.value == initial + Vees(steps) - Takings(NewSem(initial), steps)
            && s.vs == Vees(steps) && s.ps == Takings(NewSem(initial), steps)
            && Wakings(NewSem(initial), steps) <= |Sleepers(NewSem(initial), steps)|
            && s.queue == Sleepers(NewSem(initial), steps)[Wakings(NewSem(initial), steps)..]
  {
    if steps != [] {
      WokenInOrder(initial, steps[..|steps| - 1]);
    }
  }

  // ---------- The class ----------

  class Semaphore {
    var value: int
    var queue: seq<Thread>
    ghost var woken: set<Thread>
    ghost var ps: nat
    ghost var vs: nat

    ghost function View(): Sem
      reads this
    {
      Sem(value, queue, woken, ps, vs)
    }

    constructor (initialValue: nat)
      ensures View() == NewSem(initialValue)
    {
      value, queue := initialValue, [];
      woken, ps, vs := {}, 0, 0;
    }

    // One pass of the loop in P; false: the thread has put itself to sleep.
    method TestValue(t: Thread) returns (passed: bool)
      modifies this
      ensures View() == Check(old(View()), t)
      ensures if old(value) == 0 then value == 0 && queue == old(queue) + [t]
              else value == old(value) - 1 && queue == old(queue)
      ensures passed <==> old(value) != 0
    {
      woken := woken - {t};
      if value == 0 {
        queue := queue + [t];
        return false;
      }
      value := value - 1;
      ps := ps + 1;
      return true;
    }

    method V()
      modifies this
      ensures View() == Vee(old(View()))
      ensures value == old(value) + 1
      ensures queue == if old(queue) == [] then [] else old(queue)[1..]
    {
      if queue != [] {
        woken := woken + {queue[0]};
        queue := queue[1..];
      }
      value := value + 1;
      vs := vs + 1;
    }

    // What another thread does while the caller of P sleeps; a sleeping thread does nothing.
    method Others(step: Step, t: Thread) returns (ghost done: seq<Step>)
      modifies this
      ensures done == if step.CheckStep? && (step.t in old(queue) || step.t == t) then [] else [step]
      ensures View() == if done == [] then old(View()) else Apply(old(View()), step)
    {
      done := [];
      match step {
        case VeeStep =>
          V();
          done := [step];
        case CheckStep(u) =>
          if u !in queue && u != t {
            var passed := TestValue(u);
            done := [step];
          }
      }
    }

    // P by thread t while the other threads act according to a schedule.  It returns when it has taken the
    // semaphore, or sleeps for good when the schedule ends before it is woken with a value left for it.
    method P(t: Thread, schedule: seq<Step>) returns (taken: bool, ghost steps: seq<Step>)
      requires t !in queue
      modifies this
      ensures IsRun(old(View()), steps) && View() == Exec(old(View()), steps)
      ensures taken ==> steps != [] && steps[|steps| - 1] == CheckStep(t) && t !in queue
      ensures taken ==> Exec(old(View()), steps[..|steps| - 1]).value != 0
      ensures !taken ==> t in queue
    {
      steps := [];
      var used := 0;
      while value == 0
        invariant used <= |schedule| && t !in queue
        invariant IsRun(old(View()), steps) && View() == Exec(old(View()), steps)
        decreases |schedule| - used
      {
        RunExtends(old(View()), steps, CheckStep(t));
        var passed := TestValue(t);
        steps := steps + [CheckStep(t)];
        ghost var asleepSince := used;
        while t in queue && used < |schedule|
          invariant asleepSince <= used <= |schedule| && (t in queue || asleepSince < used)
          invariant IsRun(old(View()), steps) && View() == Exec(old(View()), steps)
          decreases |schedule| - used
        {
          ghost var before := steps;
          ghost var done := Others(schedule[used], t);
          if done != [] {
            RunExtends(old(View()), before, schedule[used]);
            steps := steps + [schedule[used]];
          }
          used := used + 1;
        }
        if t in queue {
          return false, steps;
        }
      }
      RunExtends(old(View()), steps, CheckStep(t));
      assert (steps + [CheckStep(t)])[..|steps|] == steps;
      taken := TestValue(t);
      steps := steps + [CheckStep(t)];
    }
  }
}
