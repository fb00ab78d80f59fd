/** The lock built from two semaphores, interleaved at every semaphore operation. */
module Locks {
  import opened Common
  import opened Semaphores
  import opened Sums

  // Where a thread is in Acquire or Release.
  //   Acquiring: in sem->P     Acquired: past it, LockHoder not yet set     Holding: returned from Acquire
  //   Releasing: in inte->P    Inside: past it                              Cleared: LockHoder is NULL, before sem->V
  //   Signalled: before inte->V
  datatype Pc = Idle | Acquiring | Acquired | Holding | Releasing | Inside | Cleared | Signalled

  datatype State = State(sem: Sem, inte: Sem, holder: Option<Thread>, pc: map<Thread, Pc>)

  function At(s: State, t: Thread): Pc {
    if t in s.pc then s.pc[t] else Idle
  }

  function Go(s: State, t: Thread, pc: Pc): State {
    s.(pc := s.pc[t := pc])
  }

  datatype LockStep =
    | BeginAcquire(t: Thread)   // asserts that t does not hold the lock
    | TestSem(t: Thread)
    | SetHolder(t: Thread)
    | BeginRelease(t: Thread)
    | TestInte(t: Thread)
    | Clear(t: Thread)          // asserts that t holds the lock
    | VeeSem(t: Thread)
    | VeeInte(t: Thread)

  // A thread asleep on a semaphore does not run.
  predicate CanStep(s: State, step: LockStep) {
    match step
    case BeginAcquire(t) => At(s, t) == Idle
    case TestSem(t) => At(s, t) == Acquiring && t !in s.sem.queue
    case SetHolder(t) => At(s, t) == Acquired
    case BeginRelease(t) => At(s, t) == Holding
    case TestInte(t) => At(s, t) == Releasing && t !in s.inte.queue
    case Clear(t) => At(s, t) == Inside
    case VeeSem(t) => At(s, t) == Cleared
    case VeeInte(t) => At(s, t) == Signalled
  }

  // What the source asserts at a step.
  predicate Asserted(s: State, step: LockStep) {
    match step
    case BeginAcquire(t) => s.holder != Some(t)
    case Clear(t) => s.holder == Some(t)
    case _ => true
  }

  function Take(s: State, step: LockStep): State {
    match step
    case BeginAcquire(t) => Go(s, t, Acquiring)
    case TestSem(t) => Go(s, t, if s.sem.value == 0 then Acquiring else Acquired).(sem := Check(s.sem, t))
    case SetHolder(t) => Go(s, t, Holding).(holder := Some(t))
    case BeginRelease(t) => Go(s, t, Releasing)
    case TestInte(t) => Go(s, t, if s.inte.value == 0 then Releasing else Inside).(inte := Check(s.inte, t))
    case Clear(t) => Go(s, t, Cleared).(holder := None)
    case VeeSem(t) => Go(s, t, Signalled).(sem := Vee(s.sem))
    case VeeInte(t) => Go(s, t, Idle).(inte := Vee(s.inte))
  }

  function NewLock(): State {
    State(NewSem(1), NewSem(1), None, map[])
  }

  function ExecLock(steps: seq<LockStep>): State {
    if steps == [] then NewLock() else Take(ExecLock(steps[..|steps| - 1]), steps[|steps| - 1])
  }

  predicate IsLockRun(steps: seq<LockStep>) {
    steps == [] ||
    (IsLockRun(steps[..|steps| - 1]) && CanStep(ExecLock(steps[..|steps| - 1]), steps[|steps| - 1]))
  }

  // ---------- Invariant ----------

  predicate Owning(pc: Pc) {
    pc == Acquired || pc == Holding || pc == Releasing || pc == Inside || pc == Cleared
  }

  predicate InGuarded(pc: Pc) {
    pc == Inside || pc == Cleared || pc == Signalled
  }

  predicate Named(pc: Pc) {
    pc == Holding || pc == Releasing || pc == Inside
  }

  function Owners(pc: map<Thread, Pc>): set<Thread> {
    set t | t in pc && Owning(pc[t])
  }

  function Guarded(pc: map<Thread, Pc>): set<Thread> {
    set t | t in pc && InGuarded(pc[t])
  }

  ghost predicate SemPart(s: State) {
    && SemInv(s.sem)
    && s.sem.value + |Owners(s.pc)| == 1
    && (forall t | t in s.sem.queue || t in s.sem.woken :: At(s, t) == Acquiring)
  }

  ghost predicate IntePart(s: State) {
    && SemInv(s.inte)
    && s.inte.value + |Guarded(s.pc)| == 1
    && (forall t | t in s.inte.queue || t in s.inte.woken :: At(s, t) == Releasing)
  }

  ghost predicate HolderPart(s: State) {
    forall t: Thread :: s.holder == Some(t) <==> Named(At(s, t))
  }

  ghost predicate LockInv(s: State) {
    SemPart(s) && IntePart(s) && HolderPart(s)
  }

  lemma NewLockInv()
    ensures LockInv(NewLock())
  {
    assert Owners(NewLock().pc) == {};
    assert Guarded(NewLock().pc) == {};
  }

  // Moving one thread changes the number of owners by that thread at most; likewise inside Release.
  lemma OwnersMove(s: State, t: Thread, pc: Pc)
    ensures |Owners(s.pc[t := pc])| ==
              |Owners(s.pc)| + (if Owning(pc) then 1 else 0) - (if Owning(At(s, t)) then 1 else 0)
  {
    var before := Owners(s.pc);
    assert t in before <==> Owning(At(s, t));
    SetCounts(before, t);
    if Owning(pc) {
      assert Owners(s.pc[t := pc]) == before + {t};
    } else {
      assert Owners(s.pc[t := pc]) == before - {t};
    }
  }

  lemma GuardedMove(s: State, t: Thread, pc: Pc)
    ensures |Guarded(s.pc[t := pc])| ==
              |Guarded(s.pc)| + (if InGuarded(pc) then 1 else 0) - (if InGuarded(At(s, t)) then 1 else 0)
  {
    var before := Guarded(s.pc);
    assert t in before <==> InGuarded(At(s, t));
    SetCounts(before, t);
    if InGuarded(pc) {
      assert Guarded(s.pc[t := pc]) == before + {t};
    } else {
      assert Guarded(s.pc[t := pc]) == before - {t};
    }
  }

  lemma OnlyOneOwner(s: State, t: Thread, u: Thread)
    requires LockInv(s) && Owning(At(s, t)) && Owning(At(s, u))
    ensures t == u
  {
    if t != u {
      assert {t, u} <= Owners(s.pc);
      SubsetSize({t, u}, Owners(s.pc));
    }
  }

  lemma SubsetSize(a: set<Thread>, b: set<Thread>)
    requires a <= b
    ensures |a| <= |b|
  {
    assert b == a + (b - a);
  }

  lemma SemTested(s: State, t: Thread)
    requires SemPart(s) && CanStep(s, TestSem(t))
    ensures SemPart(Take(s, TestSem(t)))
  {
    var u := Take(s, TestSem(t));
    assert SemInv(u.sem) by { CheckKeeps(s.sem, t); }
    OwnersMove(s, t, At(u, t));
    assert forall v: Thread | v != t :: At(u, v) == At(s, v);
  }

  lemma SemVeed(s: State, t: Thread)
    requires SemPart(s) && CanStep(s, VeeSem(t))
    ensures SemPart(Take(s, VeeSem(t)))
  {
    VeeKeeps(s.sem);
    OwnersMove(s, t, At(Take(s, VeeSem(t)), t));
    var u := Take(s, VeeSem(t));
    assert forall v: Thread | v != t :: At(u, v) == At(s, v);
  }

  lemma SemUntouched(s: State, u: State, t: Thread, pc: Pc)
    requires SemPart(s) && u.sem == s.sem && u.pc == s.pc[t := pc]
    requires At(s, t) != Acquiring || pc == Acquiring
    requires Owning(At(s, t)) <==> Owning(pc)
    ensures SemPart(u)
  {
    OwnersMove(s, t, pc);
  }

  lemma SemKept(s: State, step: LockStep)
    requires SemPart(s) && CanStep(s, step)
    ensures SemPart(Take(s, step))
  {
    if step.TestSem? {
      SemTested(s, step.t);
    } else if step.VeeSem? {
      SemVeed(s, step.t);
    } else {
      SemUntouched(s, Take(s, step), step.t, At(Take(s, step), step.t));
    }
  }

  lemma InteTested(s: State, t: Thread)
    requires IntePart(s) && CanStep(s, TestInte(t))
    ensures IntePart(Take(s, TestInte(t)))
  {
    var u := Take(s, TestInte(t));
    assert SemInv(u.inte) by { CheckKeeps(s.inte, t); }
    GuardedMove(s, t, At(u, t));
    assert forall v: Thread | v != t :: At(u, v) == At(s, v);
  }

  lemma InteVeed(s: State, t: Thread)
    requires IntePart(s) && CanStep(s, VeeInte(t))
    ensures IntePart(Take(s, VeeInte(t)))
  {
    VeeKeeps(s.inte);
    GuardedMove(s, t, At(Take(s, VeeInte(t)), t));
    var u := Take(s, VeeInte(t));
    assert forall v: Thread | v != t :: At(u, v) == At(s, v);
  }

  lemma InteUntouched(s: State, u: State, t: Thread, pc: Pc)
    requires IntePart(s) && u.inte == s.inte && u.pc == s.pc[t := pc]
    requires At(s, t) != Releasing || pc == Releasing
    requires InGuarded(At(s, t)) <==> InGuarded(pc)
    ensures IntePart(u)
  {
    GuardedMove(s, t, pc);
  }

  lemma InteKept(s: State, step: LockStep)
    requires IntePart(s) && CanStep(s, step)
    ensures IntePart(Take(s, step))
  {
    if step.TestInte? {
      InteTested(s, step.t);
    } else if step.VeeInte? {
      InteVeed(s, step.t);
    } else {
      InteUntouched(s, Take(s, step), step.t, At(Take(s, step), step.t));
    }
  }

  lemma HolderKept(s: State, step: LockStep)
    requires LockInv(s) && CanStep(s, step)
    ensures HolderPart(Take(s, step))
  {
    var u := Take(s, step);
    forall v: Thread ensures u.holder == Some(v) <==> Named(At(u, v)) {
      assert s.holder == Some(v) <==> Named(At(s, v));
      if v != step.t {
        assert At(u, v) == At(s, v);
        if Named(At(s, v)) && Owning(At(s, step.t)) { OnlyOneOwner(s, step.t, v); }
      }
    }
  }

  lemma TakeKeeps(s: State, step: LockStep)
    requires LockInv(s) && CanStep(s, step)
    ensures LockInv(Take(s, step))
    ensures Asserted(s, step)
  {
    SemKept(s, step);
    InteKept(s, step);
    HolderKept(s, step);
  }

  lemma {:induction false} LockRunKeeps(steps: seq<LockStep>)
    requires IsLockRun(steps)
    ensures LockInv(ExecLock(steps))
  {
    if steps == [] {
      NewLockInv();
    } else {
      LockRunKeeps(steps[..|steps| - 1]);
      TakeKeeps(ExecLock(steps[..|steps| - 1]), steps[|steps| - 1]);
    }
  }

  // ---------- Theorems ----------

  // At every interleaving point both semaphores balance, at most one thread owns the lock,
  // and LockHoder names no other thread than the owner.
  lemma LockBalances(steps: seq<LockStep>)
    requires IsLockRun(steps)
    ensures var s := ExecLock(steps);
            && s.sem.value + |Owners(s.pc)| == 1
            && s.inte.value + |Guarded(s.pc)| == 1
            && (forall t, u | t in Owners(s.pc) && u in Owners(s.pc) :: t == u)
            && (forall t | s.holder == Some(t) :: t in Owners(s.pc))
            && (forall t: Thread | At(s, t) == Holding :: s.holder == Some(t))
  {
    LockRunKeeps(steps);
    var s := ExecLock(steps);
    forall t, u | t in Owners(s.pc) && u in Owners(s.pc) ensures t == u {
      OnlyOneOwner(s, t, u);
    }
  }

  // No assertion in Acquire or Release ever fails for threads that release only what they hold and do not acquire
  // what they hold.
  lemma AssertionsHold(steps: seq<LockStep>, step: LockStep)
    requires IsLockRun(steps) && CanStep(ExecLock(steps), step)
    ensures Asserted(ExecLock(steps), step)
  {
    LockRunKeeps(steps);
    TakeKeeps(ExecLock(steps), step);
  }

  // Line 116 would fail, and line 126 hold, exactly for a thread between the end of its Acquire and line 127.
  lemma HolderIsExact(steps: seq<LockStep>, t: Thread)
    requires IsLockRun(steps)
    ensures !Asserted(ExecLock(steps), BeginAcquire(t)) <==> Named(At(ExecLock(steps), t))
    ensures Asserted(ExecLock(steps), Clear(t)) <==> Named(At(ExecLock(steps), t))
  {
    LockRunKeeps(steps);
  }

  // Unless every thread is out of the lock, some thread involved with it can take a step.
  lemma SomebodyCanStep(steps: seq<LockStep>, t: Thread)
    requires IsLockRun(steps) && At(ExecLock(steps), t) != Idle
    ensures exists step :: CanStep(ExecLock(steps), step) && At(ExecLock(steps), step.t) != Idle
  {
    var s := ExecLock(steps);
    LockRunKeeps(steps);
    if t in s.sem.queue {
      if s.sem.value > 0 {
        assert s.sem.woken != {};
        var u :| u in s.sem.woken;
        Awake(s, u);
      } else {
        assert Owners(s.pc) != {};
        var u :| u in Owners(s.pc);
        OwnerSide(s, u);
      }
    } else {
      OwnerSide(s, t);
    }
  }

  lemma OwnerSide(s: State, t: Thread)
    requires LockInv(s) && At(s, t) != Idle && t !in s.sem.queue
    ensures exists step :: CanStep(s, step) && At(s, step.t) != Idle
  {
    if t in s.inte.queue {
      assert Guarded(s.pc) != {};
      var u :| u in Guarded(s.pc);
      Awake(s, u);
    } else {
      Awake(s, t);
    }
  }

  lemma Awake(s: State, t: Thread)
    requires At(s, t) != Idle && t !in s.sem.queue && t !in s.inte.queue
    ensures exists step :: CanStep(s, step) && At(s, step.t) != Idle
  {
    var step := match At(s, t)
      case Idle => BeginAcquire(t)
      case Acquiring => TestSem(t)
      case Acquired => SetHolder(t)
      case Holding => BeginRelease(t)
      case Releasing => TestInte(t)
      case Inside => Clear(t)
      case Cleared => VeeSem(t)
      case Signalled => VeeInte(t);
    assert CanStep(s, step) && At(s, step.t) != Idle;
  }

  // ---------- The class ----------

  class Lock {
    const sem: Semaphore
    const inte: Semaphore
    var holder: Option<Thread>
    ghost var pc: map<Thread, Pc>

    ghost function View(): State
      reads this, sem, inte
    {
      State(sem.View(), inte.View(), holder, pc)
    }

    ghost predicate Valid()
      reads this, sem, inte
    {
      sem != inte && LockInv(View())
    }

    constructor ()
      ensures View() == NewLock() && Valid()
      ensures fresh(sem) && fresh(inte)
    {
      sem := new Semaphore(1);
      inte := new Semaphore(1);
      holder := None;
      pc := map[];
      new;
      NewLockInv();
    }

    predicate IsHeldBy(t: Thread)
      reads this
    {
      holder == Some(t)
    }

    // Acquire up to its end, or up to falling asleep on sem.
    method Acquire(t: Thread) returns (acquired: bool)
      requires Valid() && At(View(), t) == Idle
      modifies this, sem
      ensures Valid()
      ensures acquired <==> old(sem.value) != 0
      ensures acquired ==> IsHeldBy(t) && At(View(), t) == Holding
      ensures if acquired then holder == Some(t) && sem.value == 0
              else holder == old(holder) && sem.value == 0 && sem.queue == old(sem.queue) + [t]
      ensures View() == var tested := Take(Take(old(View()), BeginAcquire(t)), TestSem(t));
                        if acquired then Take(tested, SetHolder(t)) else tested
    {
      ghost var s := View();
      TakeKeeps(s, BeginAcquire(t));
      assert !IsHeldBy(t);
      TakeKeeps(Take(s, BeginAcquire(t)), TestSem(t));
      acquired := sem.TestValue(t);
      if acquired {
        TakeKeeps(Take(Take(s, BeginAcquire(t)), TestSem(t)), SetHolder(t));
        holder := Some(t);
        pc := pc[t := Acquiring][t := Acquired][t := Holding];
      } else {
        pc := pc[t := Acquiring][t := Acquiring];
      }
    }

    // Release by the owner up to its end, or up to falling asleep on inte while somebody else is inside Release.
    method Release(t: Thread) returns (released: bool)
      requires Valid() && At(View(), t) == Holding
      modifies this, sem, inte
      ensures Valid() && (released <==> old(inte.value) != 0)
      ensures released ==>
                View() == Released(old(View()), t) && At(View(), t) == Idle && holder == None && sem.value == 1
      ensures !released ==> View() == Take(Take(old(View()), BeginRelease(t)), TestInte(t)) && IsHeldBy(t)
      ensures if released then sem.queue == if old(sem.queue) == [] then [] else old(sem.queue)[1..]
              else holder == Some(t) && sem.value == 0 && inte.queue == old(inte.queue) + [t]
    {
      ghost var s := View();
      if inte.value != 0 { ReleaseKeeps(s, t); } else { ReleaseWaits(s, t); }
      released := inte.TestValue(t);
      assert IsHeldBy(t);
      if !released {
        pc := pc[t := Releasing];
        return;
      }
      holder := None;
      sem.V();
      inte.V();
      pc := pc[t := Idle];
    }
  }

  // Release while somebody else is inside it: the holder keeps the lock and sleeps on inte.
  lemma ReleaseWaits(s: State, t: Thread)
    requires LockInv(s) && At(s, t) == Holding && s.inte.value == 0
    ensures s.holder == Some(t)
    ensures var b := Take(Take(s, BeginRelease(t)), TestInte(t));
            && LockInv(b) && b == State(s.sem, Check(s.inte, t), s.holder, s.pc[t := Releasing])
            && t in b.inte.queue && b.holder == Some(t)
  {
    TakeKeeps(s, BeginRelease(t));
    TakeKeeps(Take(s, BeginRelease(t)), TestInte(t));
    assert s.pc[t := Releasing][t := Releasing] == s.pc[t := Releasing];
  }

  // The steps of an uninterrupted Release.
  function Released(s: State, t: Thread): State {
    Take(Take(Take(Take(Take(s, BeginRelease(t)), TestInte(t)), Clear(t)), VeeSem(t)), VeeInte(t))
  }

  lemma ReleaseEnters(s: State, t: Thread)
    requires LockInv(s) && At(s, t) == Holding && s.inte.value != 0
    ensures s.holder == Some(t)
    ensures var b := Take(Take(s, BeginRelease(t)), TestInte(t));
            LockInv(b) && b == State(s.sem, Check(s.inte, t), s.holder, s.pc[t := Inside])
  {
    TakeKeeps(s, BeginRelease(t));
    TakeKeeps(Take(s, BeginRelease(t)), TestInte(t));
    assert s.pc[t := Releasing][t := Inside] == s.pc[t := Inside];
  }

  lemma LeavingState(s: State, t: Thread)
    ensures Take(Take(Take(s, Clear(t)), VeeSem(t)), VeeInte(t)) ==
            State(Vee(s.sem), Vee(s.inte), None, s.pc[t := Idle])
  {
    assert s.pc[t := Cleared][t := Signalled][t := Idle] == s.pc[t := Idle];
  }

  lemma ReleaseLeaves(s: State, t: Thread)
    requires LockInv(s) && At(s, t) == Inside
    ensures var u := Take(Take(Take(s, Clear(t)), VeeSem(t)), VeeInte(t));
            LockInv(u) && u == State(Vee(s.sem), Vee(s.inte), None, s.pc[t := Idle]) && u.sem.value == 1
  {
    assert s.sem.value == 0 by {
      assert t in Owners(s.pc);
    }
    TakeKeeps(s, Clear(t));
    TakeKeeps(Take(s, Clear(t)), VeeSem(t));
    TakeKeeps(Take(Take(s, Clear(t)), VeeSem(t)), VeeInte(t));
    LeavingState(s, t);
  }

  lemma ReleaseKeeps(s: State, t: Thread)
    requires LockInv(s) && At(s, t) == Holding && s.inte.value != 0
    ensures s.holder == Some(t)
    ensures Released(s, t) == State(Vee(s.sem), Vee(Check(s.inte, t)), None, s.pc[t := Idle])
    ensures LockInv(Released(s, t)) && Released(s, t).sem.value == 1
  {
    ReleaseEnters(s, t);
    var b := State(s.sem, Check(s.inte, t), s.holder, s.pc[t := Inside]);
    ReleaseLeaves(b, t);
    assert b.pc[t := Idle] == s.pc[t := Idle];
  }
}
