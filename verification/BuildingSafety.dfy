/** What every reachable state of a building with any number of elevators keeps. */
module BuildingSafety {
  import opened Sums
  import opened Travel
  import opened Building

  function InCar(c: nat): Rider -> nat {
    (r: Rider) => if r.phase == Aboard(c) || r.phase == Entering(c) then 1 else 0
  }

  // A rider in the car is carried the right way; at a reversal it is where it wants to be.
  predicate CarriedWell(car: Car, r: Rider) {
    match car.pc
    case Top => Heading(r.src, r.dst) == car.dir && (r.dst == car.floor || Beyond(car.dir, car.floor, r.dst))
    case Asleep => false
    case Woken => false
    case Doors(turning) =>
      if turning then Heading(r.src, r.dst) == Opposite(car.dir) && r.dst == car.floor
      else Heading(r.src, r.dst) == car.dir && (r.dst == car.floor || Beyond(car.dir, car.floor, r.dst))
    case Opened(_) => Heading(r.src, r.dst) == car.dir && Beyond(car.dir, car.floor, r.dst)
    case Boarding(_) => Heading(r.src, r.dst) == car.dir && Beyond(car.dir, car.floor, r.dst)
    case Depart => Heading(r.src, r.dst) == car.dir && Beyond(car.dir, car.floor, r.dst)
    case Turned => Heading(r.src, r.dst) == car.dir && Beyond(car.dir, car.floor, r.dst)
  }

  predicate OnFloor(s: State, f: int) {
    0 <= f < s.numFloors
  }

  predicate CarShape(s: State, car: Car) {
    && OnFloor(s, car.floor)
    && 0 <= car.occupancy <= s.capacity
    && (car.canEnter <==> car.pc.Boarding?)
    && (car.pc == Asleep || car.pc == Woken ==> car.dir == Stop)
    && (car.pc != Top && car.pc != Asleep && car.pc != Woken ==>
          car.dir != Stop && OnFloor(s, car.floor + Delta(car.dir)))
  }

  ghost predicate CarInv(s: State, c: nat)
    requires c < |s.cars|
  {
    && CarShape(s, s.cars[c])
    && s.cars[c].occupancy == Tally(s.riders, InCar(c))
    && (s.cars[c].pc.Boarding? ==> HallWaiters(s, s.cars[c].dir, s.cars[c].floor))
  }

  predicate RiderInv(s: State, r: Rider) {
    && ValidTrip(s.numFloors, r.src, r.dst)
    && match r.phase
       case Calling => true
       case Waiting => !Open(s, Heading(r.src, r.dst), r.src)
       case Released => Open(s, Heading(r.src, r.dst), r.src)
       case Entering(c) => c < |s.cars| && Serves(s.cars[c], Heading(r.src, r.dst), r.src)
       case TurnedAway(c) =>
         && c < |s.cars| && s.cars[c].occupancy == s.capacity
         && (s.cars[c].pc.Boarding? || s.cars[c].pc == Depart || s.cars[c].pc == Turned)
       case Aboard(c) => c < |s.cars| && CarriedWell(s.cars[c], r)
       case Done => true
  }

  ghost predicate Inv(s: State) {
    && s.numFloors >= 2 && s.capacity >= 1
    && (forall c: nat | c < |s.cars| :: CarInv(s, c))
    && (forall i | 0 <= i < |s.riders| :: RiderInv(s, s.riders[i]))
  }

  // Inv, but for the cars that signalled the barrier for direction d on floor f, which may have nobody to wait for.
  ghost predicate InvBut(s: State, d: Direction, f: int) {
    && s.numFloors >= 2 && s.capacity >= 1
    && (forall c: nat | c < |s.cars| :: CarInv(s, c) || (Serves(s.cars[c], d, f) && CarShape(s, s.cars[c])
                                                          && s.cars[c].occupancy == Tally(s.riders, InCar(c))))
    && (forall i | 0 <= i < |s.riders| :: RiderInv(s, s.riders[i]))
  }

  lemma CompleteKeeps(s: State, d: Direction, f: int)
    requires InvBut(s, d, f)
    ensures Inv(Complete(s, d, f))
  {
    var t := Complete(s, d, f);
    if HallWaiters(s, d, f) {
      forall c: nat | c < |s.cars| ensures CarInv(s, c) {}
    } else {
      forall c: nat | c < |t.cars| ensures CarInv(t, c) {
        if t.cars[c].pc.Boarding? {
          assert CarInv(s, c);
          SameRidersWait(s, t);
        }
      }
      forall i | 0 <= i < |t.riders| ensures RiderInv(t, t.riders[i]) {
        ClosedFor(s, t, d, f, i);
      }
    }
  }

  lemma SameRidersWait(s: State, t: State)
    requires s.riders == t.riders
    ensures forall d, f :: HallWaiters(s, d, f) == HallWaiters(t, d, f)
    ensures forall c, f :: OutWaiters(s, c, f) == OutWaiters(t, c, f)
  {
  }

  lemma ClosedFor(s: State, t: State, d: Direction, f: int, i: nat)
    requires InvBut(s, d, f) && !HallWaiters(s, d, f) && t == Complete(s, d, f) && i < |s.riders|
    ensures RiderInv(t, s.riders[i])
  {
    var r := s.riders[i];
    assert RiderInv(s, r);
    assert !AtBarrier(s.riders[i], d, f);
    if r.phase == Released {
      var c: nat :| c < |s.cars| && Serves(s.cars[c], Heading(r.src, r.dst), r.src);
      assert Serves(t.cars[c], Heading(r.src, r.dst), r.src);
    }
  }

  // A car that neither was nor becomes a signaller changes nothing about the barriers.
  lemma CarMoves(s: State, c: nat, car: Car)
    requires Inv(s) && c < |s.cars| && !s.cars[c].pc.Boarding? && !car.pc.Boarding?
    requires CarShape(s, car) && car.occupancy == s.cars[c].occupancy
    requires forall i | 0 <= i < |s.riders| && s.riders[i].phase == Aboard(c) :: CarriedWell(car, s.riders[i])
    requires forall i | 0 <= i < |s.riders| && s.riders[i].phase == TurnedAway(c) ::
               car.occupancy == s.capacity && (car.pc == Depart || car.pc == Turned)
    ensures Inv(SetCar(s, c, car))
  {
    var t := SetCar(s, c, car);
    SameRidersWait(s, t);
    SameSignallers(s, t, c);
    forall k: nat | k < |t.cars| ensures CarInv(t, k) {
      assert CarInv(s, k);
    }
    forall i | 0 <= i < |t.riders| ensures RiderInv(t, t.riders[i]) {
      assert RiderInv(s, s.riders[i]);
    }
  }

  lemma SameSignallers(s: State, t: State, c: nat)
    requires c < |s.cars| == |t.cars|
    requires forall k: nat | k < |s.cars| && k != c :: t.cars[k] == s.cars[k]
    requires forall d, f :: Serves(s.cars[c], d, f) == Serves(t.cars[c], d, f)
    ensures forall d, f :: Open(s, d, f) == Open(t, d, f)
  {
    forall d, f ensures Open(s, d, f) == Open(t, d, f) {
      if Open(s, d, f) {
        var k: nat :| k < |s.cars| && Serves(s.cars[k], d, f);
        assert Serves(t.cars[k], d, f);
      }
      if Open(t, d, f) {
        var k: nat :| k < |t.cars| && Serves(t.cars[k], d, f);
        assert Serves(s.cars[k], d, f);
      }
    }
  }

  // ---------- Car steps ----------

  // Whoever was counted at a barrier still is.
  lemma HallStays(s: State, t: State, d: Direction, f: int)
    requires HallWaiters(s, d, f) && |s.riders| <= |t.riders|
    requires forall j | 0 <= j < |s.riders| && AtBarrier(s.riders[j], d, f) :: AtBarrier(t.riders[j], d, f)
    ensures HallWaiters(t, d, f)
  {
    var j :| 0 <= j < |s.riders| && AtBarrier(s.riders[j], d, f);
    assert AtBarrier(t.riders[j], d, f);
  }

  // A rider changes its phase without getting into or out of car k.
  lemma SameLoad(s: State, t: State, i: nat, k: nat)
    requires i < |s.riders| == |t.riders| && t.riders == s.riders[i := t.riders[i]]
    requires InCar(k)(s.riders[i]) == InCar(k)(t.riders[i])
    ensures Tally(t.riders, InCar(k)) == Tally(s.riders, InCar(k))
  {
    TallyUpdate(s.riders, InCar(k), i, t.riders[i]);
  }

  lemma RiderRequests(s: State, c: nat, i: nat)
    requires Inv(s) && c < |s.cars| && i < |s.riders| && s.riders[i].phase == Aboard(c)
    ensures 0 <= s.riders[i].dst < s.numFloors && Pending(s, c, s.riders[i].dst)
  {
    assert RiderInv(s, s.riders[i]);
    assert WantsOut(s.riders[i], c, s.riders[i].dst);
  }

  // Whoever asked for the floor the car stands on needs a floor next to it.
  lemma WayOut(s: State, c: nat)
    requires Inv(s) && c < |s.cars| && s.cars[c].pc == Top && s.cars[c].dir != Stop
    requires Pending(s, c, s.cars[c].floor)
    ensures var car := s.cars[c];
            var d := if HallWaiters(s, car.dir, car.floor) then car.dir else Opposite(car.dir);
            OnFloor(s, car.floor + Delta(d))
  {
    var car := s.cars[c];
    if OutWaiters(s, c, car.floor) && !HallWaiters(s, car.dir, car.floor) {
      var i :| 0 <= i < |s.riders| && WantsOut(s.riders[i], c, car.floor);
      assert RiderInv(s, s.riders[i]);
    } else {
      var d := if HallWaiters(s, car.dir, car.floor) then car.dir else Opposite(car.dir);
      var i :| 0 <= i < |s.riders| && AtBarrier(s.riders[i], d, car.floor);
      assert RiderInv(s, s.riders[i]);
    }
  }

  lemma DecideKeeps(s: State, t: State, c: nat, dest: int)
    requires Inv(s) && Decide(s, t, c, dest)
    ensures Inv(t)
  {
    var car := s.cars[c];
    var next := t.cars[c];
    assert CarInv(s, c);
    if car.dir != Stop && dest == car.floor {
      WayOut(s, c);
    }
    forall i: nat | i < |s.riders| && s.riders[i].phase == Aboard(c) ensures CarriedWell(next, s.riders[i]) {
      assert RiderInv(s, s.riders[i]);
      RiderRequests(s, c, i);
      if s.riders[i].dst == car.floor {
        assert WantsOut(s.riders[i], c, car.floor);
      }
    }
    forall i | 0 <= i < |s.riders| ensures s.riders[i].phase != TurnedAway(c) {
      assert RiderInv(s, s.riders[i]);
    }
    CarMoves(s, c, next);
  }

  lemma WakeUpKeeps(s: State, t: State, c: nat, dest: int)
    requires Inv(s) && WakeUp(s, t, c, dest)
    ensures Inv(t)
  {
    assert CarInv(s, c);
    forall i | 0 <= i < |s.riders| ensures s.riders[i].phase != TurnedAway(c) && s.riders[i].phase != Aboard(c) {
      assert RiderInv(s, s.riders[i]);
    }
    CarMoves(s, c, t.cars[c]);
  }

  lemma DoneLettingOutKeeps(s: State, t: State, c: nat)
    requires Inv(s) && DoneLettingOut(s, t, c)
    ensures Inv(t)
  {
    assert CarInv(s, c);
    forall i | 0 <= i < |s.riders| && s.riders[i].phase == Aboard(c) ensures CarriedWell(t.cars[c], s.riders[i]) {
      assert RiderInv(s, s.riders[i]);
      assert !WantsOut(s.riders[i], c, s.cars[c].floor);
    }
    forall i | 0 <= i < |s.riders| ensures s.riders[i].phase != TurnedAway(c) {
      assert RiderInv(s, s.riders[i]);
    }
    CarMoves(s, c, t.cars[c]);
  }

  lemma DecideTurnedKeeps(s: State, t: State, c: nat, dest: int)
    requires Inv(s) && DecideTurned(s, t, c, dest)
    ensures Inv(t)
  {
    assert CarInv(s, c);
    if dest == -1 {
      if s.cars[c].occupancy > 0 {
        var i := TallyPositive(s.riders, InCar(c));
        assert RiderInv(s, s.riders[i]);
        RiderRequests(s, c, i);
        assert false;
      }
    }
    forall i: nat | i < |s.riders| ensures RiderInv(s, s.riders[i]) {}
    if dest == -1 {
      forall i: nat | i < |s.riders| ensures s.riders[i].phase != Aboard(c) && s.riders[i].phase != TurnedAway(c) {
        TallyAtLeast(s.riders, InCar(c), i);
      }
    }
    CarMoves(s, c, t.cars[c]);
  }

  lemma VisitKeeps(s: State, t: State, c: nat)
    requires Inv(s) && Visit(s, t, c)
    ensures Inv(t)
  {
    assert CarInv(s, c);
    SameSignallers(s, t, c);
    forall k: nat | k < |t.cars| ensures CarInv(t, k) {
      assert CarInv(s, k);
      TallySame(s.riders, t.riders, InCar(k));
      if t.cars[k].pc.Boarding? { HallStays(s, t, s.cars[k].dir, s.cars[k].floor); }
    }
    forall i | 0 <= i < |t.riders| ensures RiderInv(t, t.riders[i]) {
      assert RiderInv(s, s.riders[i]);
    }
  }

  lemma OpenHallKeeps(s: State, t: State, c: nat)
    requires Inv(s) && OpenHall(s, t, c)
    ensures Inv(t)
  {
    var car := s.cars[c];
    assert CarInv(s, c);
    if HallWaiters(s, car.dir, car.floor) {
      OpenedFor(s, t, c);
      forall k: nat | k < |t.cars| ensures CarInv(t, k) {
        OpenedLeavesCar(s, t, c, k);
      }
    } else {
      forall i | 0 <= i < |s.riders| ensures RiderInv(s, s.riders[i]) {}
      CarMoves(s, c, t.cars[c]);
    }
  }

  lemma OpenedLeavesCar(s: State, t: State, c: nat, k: nat)
    requires Inv(s) && OpenHall(s, t, c) && HallWaiters(s, s.cars[c].dir, s.cars[c].floor) && k < |t.cars|
    ensures CarInv(t, k)
  {
    assert CarInv(s, k);
    TallySame(s.riders, t.riders, InCar(k));
    if t.cars[k].pc.Boarding? { HallStays(s, t, t.cars[k].dir, t.cars[k].floor); }
  }

  lemma OpenedFor(s: State, t: State, c: nat)
    requires Inv(s) && OpenHall(s, t, c) && HallWaiters(s, s.cars[c].dir, s.cars[c].floor)
    ensures forall i | 0 <= i < |t.riders| :: RiderInv(t, t.riders[i])
  {
    var car := s.cars[c];
    assert Serves(t.cars[c], car.dir, car.floor);
    forall i | 0 <= i < |t.riders| ensures RiderInv(t, t.riders[i]) {
      var r := s.riders[i];
      var d := Heading(r.src, r.dst);
      assert RiderInv(s, r);
      if Open(s, d, r.src) {
        var k: nat :| k < |s.cars| && Serves(s.cars[k], d, r.src);
        assert Serves(t.cars[k], d, r.src);
      } else if Open(t, d, r.src) {
        var k: nat :| k < |t.cars| && Serves(t.cars[k], d, r.src);
      }
    }
  }

  // ---------- Rider steps ----------

  lemma ExitKeeps(s: State, t: State, i: nat)
    requires Inv(s) && Exit(s, t, i)
    ensures Inv(t)
  {
    var c := s.riders[i].phase.car;
    SameSignallers(s, t, c);
    forall k: nat | k < |t.cars| ensures CarInv(t, k) {
      ExitLeavesCar(s, t, i, k);
    }
    forall j | 0 <= j < |t.riders| ensures RiderInv(t, t.riders[j]) {
      assert RiderInv(s, s.riders[j]);
    }
  }

  lemma ExitLeavesCar(s: State, t: State, i: nat, k: nat)
    requires Inv(s) && Exit(s, t, i) && k < |t.cars|
    ensures CarInv(t, k)
  {
    assert CarInv(s, k);
    TallyAtLeast(s.riders, InCar(k), i);
    TallyUpdate(s.riders, InCar(k), i, t.riders[i]);
    if t.cars[k].pc.Boarding? { HallStays(s, t, s.cars[k].dir, s.cars[k].floor); }
  }

  lemma ArriveKeeps(s: State, t: State, r: Rider)
    requires Inv(s) && Arrive(s, t, r)
    ensures Inv(t)
  {
    assert t.riders[..|s.riders|] == s.riders;
    forall k: nat | k < |t.cars| ensures CarInv(t, k) {
      assert CarInv(s, k);
      if t.cars[k].pc.Boarding? { HallStays(s, t, s.cars[k].dir, s.cars[k].floor); }
    }
    forall j | 0 <= j < |t.riders| ensures RiderInv(t, t.riders[j]) {
      if j < |s.riders| { assert RiderInv(s, s.riders[j]); }
    }
  }

  lemma CallKeeps(s: State, t: State, i: nat, c: int)
    requires Inv(s) && Call(s, t, i, c)
    ensures Inv(t)
  {
    CallOpensNothing(s, t, i, c);
    forall k: nat | k < |t.cars| ensures CarInv(t, k) {
      CallLeavesCar(s, t, i, c, k);
    }
    forall j: nat | j < |t.riders| ensures RiderInv(t, t.riders[j]) {
      CallLeavesRider(s, t, i, c, j);
    }
  }

  lemma CallOpensNothing(s: State, t: State, i: nat, c: int)
    requires Call(s, t, i, c)
    ensures forall d, f :: Open(s, d, f) == Open(t, d, f)
  {
    if 0 <= c < |s.cars| && s.cars[c].pc == Asleep {
      SameSignallers(s, t, c);
    } else {
      assert t.cars == s.cars;
    }
  }

  lemma CallLeavesCar(s: State, t: State, i: nat, c: int, k: nat)
    requires Inv(s) && Call(s, t, i, c) && k < |t.cars|
    ensures CarInv(t, k)
  {
    assert CarInv(s, k);
    SameLoad(s, t, i, k);
    if t.cars[k].pc.Boarding? { HallStays(s, t, s.cars[k].dir, s.cars[k].floor); }
  }

  lemma CallLeavesRider(s: State, t: State, i: nat, c: int, j: nat)
    requires Inv(s) && Call(s, t, i, c) && j < |t.riders|
    requires forall d, f :: Open(s, d, f) == Open(t, d, f)
    ensures RiderInv(t, t.riders[j])
  {
    assert RiderInv(s, s.riders[j]);
  }

  // A released rider always finds a car at its floor, in its direction, that may be entered,
  // and the one it picks is held in EventBarrier::Signal of its own barrier.
  lemma ChoiceIsTotal(s: State, i: nat, c: int)
    requires Inv(s) && i < |s.riders| && s.riders[i].phase == Released
    requires IsChosen(s.cars, Heading(s.riders[i].src, s.riders[i].dst), s.riders[i].src, c)
    ensures 0 <= c < |s.cars| && Serves(s.cars[c], Heading(s.riders[i].src, s.riders[i].dst), s.riders[i].src)
  {
    var r := s.riders[i];
    assert RiderInv(s, r);
    var k: nat :| k < |s.cars| && Serves(s.cars[k], Heading(r.src, r.dst), r.src);
    assert CarInv(s, k);
    assert MayEnter(s.cars[k], Heading(r.src, r.dst), r.src);
    assert CarInv(s, c);
  }

  lemma BoardKeeps(s: State, t: State, i: nat, c: nat)
    requires Inv(s) && Board(s, t, i, c)
    ensures Inv(t)
  {
    ChoiceIsTotal(s, i, c);
    assert CarInv(s, c);
    var car := s.cars[c];
    if car.occupancy + 1 > s.capacity {
      var u := SetPhase(s, i, TurnedAway(c));
      SetPhaseKeeps(s, u, i, car.dir, car.floor);
      CompleteKeeps(u, car.dir, car.floor);
    } else {
      EnteringKeeps(s, t, i, c);
    }
  }

  lemma EnteringKeeps(s: State, t: State, i: nat, c: nat)
    requires Inv(s) && Board(s, t, i, c) && s.cars[c].occupancy + 1 <= s.capacity
    requires Serves(s.cars[c], Heading(s.riders[i].src, s.riders[i].dst), s.riders[i].src)
    ensures Inv(t)
  {
    SameSignallers(s, t, c);
    forall k: nat | k < |t.cars| ensures CarInv(t, k) {
      EnteringLeavesCar(s, t, i, c, k);
    }
    forall j | 0 <= j < |t.riders| ensures RiderInv(t, t.riders[j]) {
      assert RiderInv(s, s.riders[j]);
    }
  }

  lemma EnteringLeavesCar(s: State, t: State, i: nat, c: nat, k: nat)
    requires Inv(s) && Board(s, t, i, c) && s.cars[c].occupancy + 1 <= s.capacity && k < |t.cars|
    ensures CarInv(t, k)
  {
    assert CarInv(s, k);
    TallyUpdate(s.riders, InCar(k), i, t.riders[i]);
    if t.cars[k].pc.Boarding? { HallStays(s, t, s.cars[k].dir, s.cars[k].floor); }
  }

  // A rider at the barrier for direction d on floor f leaves it: only that barrier may be left empty.
  lemma SetPhaseKeeps(s: State, t: State, i: nat, d: Direction, f: int)
    requires Inv(s) && i < |s.riders| && AtBarrier(s.riders[i], d, f)
    requires |t.riders| == |s.riders| && t == SetPhase(s, i, t.riders[i].phase) && RiderInv(t, t.riders[i])
    requires forall k: nat :: InCar(k)(s.riders[i]) == InCar(k)(t.riders[i])
    ensures InvBut(t, d, f)
  {
    forall k: nat | k < |t.cars|
      ensures CarInv(t, k) || (Serves(t.cars[k], d, f) && CarShape(t, t.cars[k])
                               && t.cars[k].occupancy == Tally(t.riders, InCar(k)))
    {
      assert CarInv(s, k);
      TallyUpdate(s.riders, InCar(k), i, t.riders[i]);
      if t.cars[k].pc.Boarding? && !Serves(t.cars[k], d, f) {
        var j :| 0 <= j < |s.riders| && AtBarrier(s.riders[j], s.cars[k].dir, s.cars[k].floor);
        assert AtBarrier(t.riders[j], t.cars[k].dir, t.cars[k].floor);
      }
    }
    forall j | 0 <= j < |t.riders| ensures RiderInv(t, t.riders[j]) {
      if j != i { assert RiderInv(s, s.riders[j]); }
    }
  }

  lemma EnterDoneKeeps(s: State, t: State, i: nat)
    requires Inv(s) && EnterDone(s, t, i)
    ensures Inv(t)
  {
    var c := s.riders[i].phase.car;
    assert RiderInv(s, s.riders[i]);
    assert CarInv(s, c);
    var u := SetPhase(s, i, Aboard(c));
    SetPhaseKeeps(s, u, i, s.cars[c].dir, s.cars[c].floor);
    CompleteKeeps(u, s.cars[c].dir, s.cars[c].floor);
  }

  lemma NextKeeps(s: State, t: State, step: Step)
    requires Inv(s) && Next(s, t, step)
    ensures Inv(t)
  {
    match step {
      case ArriveStep(r) => ArriveKeeps(s, t, r);
      case CallStep(i, c) => CallKeeps(s, t, i, c);
      case BoardStep(i, c) => BoardKeeps(s, t, i, c);
      case EnterDoneStep(i) => EnterDoneKeeps(s, t, i);
      case ExitStep(i) => ExitKeeps(s, t, i);
      case DecideStep(c, dest) => DecideKeeps(s, t, c, dest);
      case WakeUpStep(c, dest) => WakeUpKeeps(s, t, c, dest);
      case DoneLettingOutStep(c) => DoneLettingOutKeeps(s, t, c);
      case OpenHallStep(c) => OpenHallKeeps(s, t, c);
      case VisitStep(c) => VisitKeeps(s, t, c);
      case DecideTurnedStep(c, dest) => DecideTurnedKeeps(s, t, c, dest);
    }
  }

  lemma {:induction false} RunKeeps(run: seq<State>, n: nat)
    requires IsRun(run) && n < |run|
    ensures Inv(run[n])
  {
    if n > 0 {
      RunKeeps(run, n - 1);
      assert Linked(run, n - 1);
      var step :| Next(run[n - 1], run[n], step);
      NextKeeps(run[n - 1], run[n], step);
    }
  }

  // ---------- Theorems about runs ----------

  // AwaitUp and AwaitDown always assign the car they return, and that car is held at the rider's floor, in the
  // rider's direction, inside the signal of the rider's own barrier.
  lemma ElevatorChoiceIsTotal(run: seq<State>, n: nat, i: nat, c: int)
    requires IsRun(run) && n < |run| && i < |run[n].riders| && run[n].riders[i].phase == Released
    requires IsChosen(run[n].cars, Heading(run[n].riders[i].src, run[n].riders[i].dst), run[n].riders[i].src, c)
    ensures 0 <= c < |run[n].cars|
    ensures Serves(run[n].cars[c], Heading(run[n].riders[i].src, run[n].riders[i].dst), run[n].riders[i].src)
  {
    RunKeeps(run, n);
    ChoiceIsTotal(run[n], i, c);
  }

  // Until a rider inside Enter has completed, its car neither moves nor turns: Complete reaches the right barrier.
  lemma ChosenCarStays(run: seq<State>, n: nat, i: nat)
    requires IsRun(run) && n < |run| && i < |run[n].riders| && run[n].riders[i].phase.Entering?
    ensures run[n].riders[i].phase.car < |run[n].cars|
    ensures Serves(run[n].cars[run[n].riders[i].phase.car],
                   Heading(run[n].riders[i].src, run[n].riders[i].dst), run[n].riders[i].src)
  {
    RunKeeps(run, n);
    assert RiderInv(run[n], run[n].riders[i]);
  }

  // While a barrier is open nobody sleeps at it, and every car that signalled it has somebody left to wait for.
  lemma OpenBarrierDrains(run: seq<State>, n: nat, d: Direction, f: int)
    requires IsRun(run) && n < |run| && Open(run[n], d, f)
    ensures exists i | 0 <= i < |run[n].riders| :: AtBarrier(run[n].riders[i], d, f)
    ensures forall i | 0 <= i < |run[n].riders| && AtBarrier(run[n].riders[i], d, f) ::
              run[n].riders[i].phase != Waiting
  {
    RunKeeps(run, n);
    var c: nat :| c < |run[n].cars| && Serves(run[n].cars[c], d, f);
    assert CarInv(run[n], c);
    forall i | 0 <= i < |run[n].riders| && AtBarrier(run[n].riders[i], d, f) ensures run[n].riders[i].phase != Waiting {
      assert RiderInv(run[n], run[n].riders[i]);
    }
  }

  function Inside(s: State, c: nat): set<nat> {
    set i: nat | i < |s.riders| && (s.riders[i].phase == Aboard(c) || s.riders[i].phase == Entering(c))
  }

  // Every car stays in its shaft, and its occupancy counts the riders that entered and have not left.
  lemma EveryCarIsInBounds(run: seq<State>, n: nat, c: nat)
    requires IsRun(run) && n < |run| && c < |run[n].cars|
    ensures 0 <= run[n].cars[c].floor < run[n].numFloors
    ensures run[n].cars[c].occupancy == |Inside(run[n], c)| <= run[n].capacity
  {
    RunKeeps(run, n);
    assert CarInv(run[n], c);
    TallyCounts(run[n].riders, InCar(c));
    assert Inside(run[n], c) == Positive(run[n].riders, InCar(c));
  }

  lemma EveryCarKeepsDirection(run: seq<State>, n: nat, c: nat, i: nat)
    requires IsRun(run) && n < |run| && i < |run[n].riders| && run[n].riders[i].phase == Aboard(c)
    ensures c < |run[n].cars|
    ensures var car := run[n].cars[c];
            var r := run[n].riders[i];
            && car.dir != Stop
            && (car.pc == Doors(true) ==> r.dst == car.floor)
            && (car.pc != Doors(true) ==>
                  && (car.dir == Up ==> r.src < r.dst && car.floor <= r.dst)
                  && (car.dir == Down ==> r.dst < r.src && r.dst <= car.floor))
  {
    RunKeeps(run, n);
    assert RiderInv(run[n], run[n].riders[i]);
    assert CarInv(run[n], c);
  }

  // A rider turned away by a car sees it full and moving on; a car that has turned around cannot stop then.
  lemma TurnedAwayRiderIsRecalled(run: seq<State>, n: nat, c: nat, i: nat, dest: int)
    requires IsRun(run) && n < |run| && i < |run[n].riders| && run[n].riders[i].phase == TurnedAway(c)
    ensures c < |run[n].cars| && run[n].cars[c].dir != Stop && run[n].cars[c].occupancy == run[n].capacity
    ensures run[n].cars[c].pc.Boarding? || run[n].cars[c].pc == Depart || run[n].cars[c].pc == Turned
    ensures run[n].cars[c].pc == Turned && IsLastRequest(run[n], c, dest) ==> dest != -1
    ensures forall t | Visit(run[n], t, c) ::
              i < |t.riders| && t.riders[i] == run[n].riders[i].(phase := Calling)
  {
    var s := run[n];
    RunKeeps(run, n);
    assert RiderInv(s, s.riders[i]);
    assert CarInv(s, c);
    if s.cars[c].pc == Turned && IsLastRequest(s, c, -1) {
      var j := TallyPositive(s.riders, InCar(c));
      assert RiderInv(s, s.riders[j]);
      RiderRequests(s, c, j);
      assert false;
    }
  }

  // ---------- Not every car sleeps while somebody waits ----------

  predicate AllAsleep(s: State) {
    forall c | 0 <= c < |s.cars| :: s.cars[c].pc == Asleep
  }

  predicate NobodyWaits(s: State) {
    forall i | 0 <= i < |s.riders| :: s.riders[i].phase == Calling || s.riders[i].phase == Done
  }

  ghost predicate AwakeInv(s: State) {
    |s.cars| >= 1 && (AllAsleep(s) ==> NobodyWaits(s))
  }

  lemma FallingAsleepServedAll(s: State, t: State, c: nat, dest: int)
    requires Inv(s) && Inv(t) && Decide(s, t, c, dest)
    ensures AllAsleep(t) ==> NobodyWaits(t)
  {
    if AllAsleep(t) {
      assert t.cars[c].pc == Asleep;
      forall i | 0 <= i < |t.riders| ensures t.riders[i].phase == Calling || t.riders[i].phase == Done {
        var r := t.riders[i];
        assert RiderInv(t, r);
        if AtBarrier(r, Heading(r.src, r.dst), r.src) {
          assert HallWaiters(s, Heading(r.src, r.dst), r.src);
          assert Pending(s, c, r.src);
        }
      }
    }
  }

  lemma CallWakesSomebody(s: State, t: State, i: nat, c: int)
    requires Inv(s) && |s.cars| >= 1 && Call(s, t, i, c)
    ensures !AllAsleep(t)
  {
    if AllAsleep(s) {
      assert s.cars[0].pc == Asleep;
      assert CarInv(s, 0);
      assert s.cars[c].pc == Asleep;
      assert t.cars[c].pc == Woken;
    } else {
      var k :| 0 <= k < |s.cars| && s.cars[k].pc != Asleep;
      assert t.cars[k].pc != Asleep;
    }
  }

  lemma AwakeKeeps(s: State, t: State, step: Step)
    requires Inv(s) && Inv(t) && AwakeInv(s) && Next(s, t, step)
    ensures AwakeInv(t)
  {
    match step {
      case ArriveStep(_) =>
      case CallStep(i, c) =>
        CallWakesSomebody(s, t, i, c);
      case DecideStep(c, dest) => FallingAsleepServedAll(s, t, c, dest);
      case BoardStep(i, c) =>
        ChoiceIsTotal(s, i, c);
        assert t.cars[c].pc != Asleep;
      case EnterDoneStep(i) =>
        assert RiderInv(s, s.riders[i]);
        var c := s.riders[i].phase.car;
        assert t.cars[c].pc != Asleep;
      case ExitStep(i) =>
        var c := s.riders[i].phase.car;
        assert t.cars[c].pc != Asleep;
      case WakeUpStep(c, _) => assert t.cars[c].pc != Asleep;
      case DoneLettingOutStep(c) => assert t.cars[c].pc != Asleep;
      case OpenHallStep(c) => assert t.cars[c].pc != Asleep;
      case VisitStep(c) => assert t.cars[c].pc != Asleep;
      case DecideTurnedStep(c, _) => assert t.cars[c].pc != Asleep;
    }
  }

  lemma LinkKeepsAwake(s: State, t: State)
    requires Inv(s) && Inv(t) && AwakeInv(s) && Follows(s, t)
    ensures AwakeInv(t)
  {
    var step :| Next(s, t, step);
    AwakeKeeps(s, t, step);
  }

  lemma {:induction false} AwakeAlways(run: seq<State>, n: nat)
    requires IsRun(run) && n < |run|
    ensures AwakeInv(run[n])
  {
    if n > 0 {
      AwakeAlways(run, n - 1);
      assert Inv(run[n - 1]) && Inv(run[n]) by {
        RunKeeps(run, n - 1);
        RunKeeps(run, n);
      }
      assert Linked(run, n - 1);
      LinkKeepsAwake(run[n - 1], run[n]);
    }
  }

  // When every car is asleep on HaveRequest, every rider that has called and waited has been delivered.
  lemma IdleBuildingHasServedEverybody(run: seq<State>, n: nat, i: nat)
    requires IsRun(run) && n < |run| && AllAsleep(run[n]) && i < |run[n].riders|
    ensures run[n].riders[i].phase == Calling || run[n].riders[i].phase == Done
  {
    AwakeAlways(run, n);
  }

  // ---------- The building never gets stuck ----------

  // The highest floor up to f that car c finds a request on, or -1.
  function HighestRequest(s: State, c: nat, f: int): (r: int)
    requires c < |s.cars| && f < s.numFloors
    ensures -1 <= r && (r <= f || r == -1)
    ensures r != -1 ==> Searched(s, s.cars[c], r) && Pending(s, c, r)
    ensures forall g | r < g <= f && Searched(s, s.cars[c], g) :: !Pending(s, c, g)
    decreases f + 1
  {
    if f < 0 then -1
    else if Searched(s, s.cars[c], f) && Pending(s, c, f) then f
    else HighestRequest(s, c, f - 1)
  }

  // The lowest floor from f on that car c finds a request on, or -1.
  function LowestRequest(s: State, c: nat, f: int): (r: int)
    requires c < |s.cars| && 0 <= f
    ensures r == -1 || f <= r < s.numFloors
    ensures r != -1 ==> Searched(s, s.cars[c], r) && Pending(s, c, r)
    ensures forall g | f <= g < (if r == -1 then s.numFloors else r) && Searched(s, s.cars[c], g) :: !Pending(s, c, g)
    decreases s.numFloors - f
  {
    if f >= s.numFloors then -1
    else if Searched(s, s.cars[c], f) && Pending(s, c, f) then f
    else LowestRequest(s, c, f + 1)
  }

  lemma SearchEnds(s: State, c: nat) returns (dest: int)
    requires Inv(s) && c < |s.cars|
    ensures IsLastRequest(s, c, dest)
  {
    assert CarInv(s, c);
    dest := if s.cars[c].dir == Up then HighestRequest(s, c, s.numFloors - 1) else LowestRequest(s, c, 0);
  }

  // The nearest of the first n cars that stand still.
  lemma {:induction false} SomeNearest(cars: seq<Car>, f: int) returns (c: int)
    ensures IsNearestStopped(cars, f, c)
  {
    if cars == [] {
      c := -1;
    } else {
      var n := |cars| - 1;
      var front := cars[..n];
      c := SomeNearest(front, f);
      assert forall j: nat | j < n :: front[j] == cars[j] && Distance(front, j, f) == Distance(cars, j, f);
      if cars[n].dir == Stop && (c == -1 || Distance(cars, n, f) < Distance(cars, c, f)) {
        c := n;
      }
    }
  }

  lemma {:induction false} SomeChoice(cars: seq<Car>, d: Direction, f: int) returns (c: int)
    ensures IsChosen(cars, d, f, c)
  {
    if cars == [] {
      c := -1;
    } else {
      var n := |cars| - 1;
      c := SomeChoice(cars[..n], d, f);
      assert forall j | 0 <= j < n :: cars[..n][j] == cars[j];
      if c == -1 && MayEnter(cars[n], d, f) { c := n; }
    }
  }

  ghost predicate CanGoOn(s: State) {
    exists step: Step, t :: !step.ArriveStep? && Next(s, t, step)
  }

  lemma GoesOn(s: State, t: State, step: Step)
    requires Next(s, t, step) && !step.ArriveStep?
    ensures CanGoOn(s)
  {
  }

  lemma CallerGoesOn(s: State, i: nat)
    requires i < |s.riders| && s.riders[i].phase == Calling
    ensures CanGoOn(s)
  {
    var r := s.riders[i];
    var c := SomeNearest(s.cars, r.src);
    var t := Wake(SetPhase(s, i, if Open(s, Heading(r.src, r.dst), r.src) then Released else Waiting), c);
    GoesOn(s, t, CallStep(i, c));
  }

  // A released rider has a car to get into, or to be turned away by.
  lemma ReleasedGoesOn(s: State, i: nat)
    requires Inv(s) && i < |s.riders| && s.riders[i].phase == Released
    ensures CanGoOn(s)
  {
    var r := s.riders[i];
    var c := SomeChoice(s.cars, Heading(r.src, r.dst), r.src);
    ChoiceIsTotal(s, i, c);
    BoardIsPossible(s, i, c);
  }

  lemma BoardIsPossible(s: State, i: nat, c: nat)
    requires i < |s.riders| && s.riders[i].phase == Released && c < |s.cars|
    requires IsChosen(s.cars, Heading(s.riders[i].src, s.riders[i].dst), s.riders[i].src, c)
    ensures exists t :: Next(s, t, BoardStep(i, c))
    ensures CanGoOn(s)
  {
    var t := if s.cars[c].occupancy + 1 > s.capacity
             then Complete(SetPhase(s, i, TurnedAway(c)), s.cars[c].dir, s.cars[c].floor)
             else SetCar(SetPhase(s, i, Entering(c)), c, s.cars[c].(occupancy := s.cars[c].occupancy + 1));
    assert Board(s, t, i, c);
    assert Next(s, t, BoardStep(i, c));
    GoesOn(s, t, BoardStep(i, c));
  }

  // A car inside the signal of a hall barrier waits for a rider that can go on.
  lemma BoardingGoesOn(s: State, c: nat)
    requires Inv(s) && c < |s.cars| && s.cars[c].pc.Boarding?
    ensures CanGoOn(s)
  {
    var car := s.cars[c];
    assert CarInv(s, c);
    var i: nat :| i < |s.riders| && AtBarrier(s.riders[i], car.dir, car.floor);
    var r := s.riders[i];
    assert RiderInv(s, r);
    assert Serves(car, Heading(r.src, r.dst), r.src);
    assert Open(s, Heading(r.src, r.dst), r.src);
    if r.phase == Released {
      ReleasedGoesOn(s, i);
    } else {
      var e := r.phase.car;
      GoesOn(s, Complete(SetPhase(s, i, Aboard(e)), s.cars[e].dir, s.cars[e].floor), EnterDoneStep(i));
    }
  }

  // A car that lets riders out waits for one that can step out, or is done.
  lemma DoorsGoOn(s: State, c: nat)
    requires c < |s.cars| && s.cars[c].pc.Doors?
    ensures CanGoOn(s)
  {
    var car := s.cars[c];
    if OutWaiters(s, c, car.floor) {
      var i: nat :| i < |s.riders| && WantsOut(s.riders[i], c, car.floor);
      GoesOn(s, SetCar(SetPhase(s, i, Done), c, car.(occupancy := car.occupancy - 1)), ExitStep(i));
    } else {
      GoesOn(s, SetCar(s, c, car.(pc := Opened(car.pc.turning))), DoneLettingOutStep(c));
    }
  }

  lemma SearcherGoesOn(s: State, c: nat)
    requires Inv(s) && c < |s.cars| && (s.cars[c].pc == Top || s.cars[c].pc == Woken || s.cars[c].pc == Turned)
    ensures CanGoOn(s)
  {
    var car := s.cars[c];
    var dest := SearchEnds(s, c);
    match car.pc {
      case Top =>
        var next := Decided(car, dest, HallWaiters(s, car.dir, car.floor), OutWaiters(s, c, car.floor));
        GoesOn(s, SetCar(s, c, next), DecideStep(c, dest));
      case Woken => GoesOn(s, SetCar(s, c, LeaveStop(car, dest)), WakeUpStep(c, dest));
      case Turned =>
        var next := if dest == -1 then car.(dir := Stop, pc := Top) else car.(pc := Depart);
        GoesOn(s, SetCar(s, c, next), DecideTurnedStep(c, dest));
    }
  }

  lemma MoverGoesOn(s: State, c: nat)
    requires c < |s.cars| && (s.cars[c].pc == Depart || s.cars[c].pc.Opened?)
    ensures CanGoOn(s)
  {
    var car := s.cars[c];
    if car.pc == Depart {
      var t := SetCar(s, c, car.(floor := car.floor + Delta(car.dir), pc := Top)).(
                 riders := seq(|s.riders|, i requires 0 <= i < |s.riders| => Recall(s.riders[i], c)));
      GoesOn(s, t, VisitStep(c));
    } else if HallWaiters(s, car.dir, car.floor) {
      var t := SetCar(s, c, car.(canEnter := true, pc := Boarding(car.pc.turning))).(
                 riders := seq(|s.riders|, i requires 0 <= i < |s.riders| =>
                             Release(s.riders[i], car.dir, car.floor)));
      GoesOn(s, t, OpenHallStep(c));
    } else {
      GoesOn(s, SetCar(s, c, Shut(car, car.pc.turning)), OpenHallStep(c));
    }
  }

  lemma AwakeCarGoesOn(s: State, c: nat)
    requires Inv(s) && c < |s.cars| && s.cars[c].pc != Asleep
    ensures CanGoOn(s)
  {
    match s.cars[c].pc {
      case Top => SearcherGoesOn(s, c);
      case Woken => SearcherGoesOn(s, c);
      case Turned => SearcherGoesOn(s, c);
      case Doors(_) => DoorsGoOn(s, c);
      case Opened(_) => MoverGoesOn(s, c);
      case Depart => MoverGoesOn(s, c);
      case Boarding(_) => BoardingGoesOn(s, c);
    }
  }

  // In every reachable state, without anybody new, some car or rider can act if and only if some car is awake or some
  // rider is about to call.
  lemma BuildingNeverGetsStuck(run: seq<State>, n: nat)
    requires IsRun(run) && n < |run|
    ensures CanGoOn(run[n]) <==>
            !AllAsleep(run[n]) || exists i | 0 <= i < |run[n].riders| :: run[n].riders[i].phase == Calling
  {
    var s := run[n];
    RunKeeps(run, n);
    if i: nat :| i < |s.riders| && s.riders[i].phase == Calling {
      CallerGoesOn(s, i);
    } else if AllAsleep(s) {
      AwakeAlways(run, n);
      forall t, step: Step | Next(s, t, step) ensures step.ArriveStep? {}
    } else {
      var c: nat :| c < |s.cars| && s.cars[c].pc != Asleep;
      AwakeCarGoesOn(s, c);
    }
  }
}
