/** What every reachable state of the one-car system keeps. */
module OneCarSafety {
  import opened Sums
  import opened Travel
  import opened OneCar

  predicate OnFloor(s: State, f: int) {
    0 <= f < s.numFloors
  }

  // A request is pending strictly ahead of the car.
  predicate Ahead(s: State) {
    exists g | 0 <= g < s.numFloors :: Beyond(s.dir, s.currentFloor, g) && Pending(s.riders, g)
  }

  // A rider on board heads the way the car travels; at a reversal everybody on board is where they want to be.
  predicate CarriedWell(s: State, r: Rider) {
    match s.pc
    case Top => Heading(r.src, r.dst) == s.dir && (r.dst == s.currentFloor || Beyond(s.dir, s.currentFloor, r.dst))
    case Asleep => false
    case Woken => false
    case Doors(turning) =>
      if turning then Heading(r.src, r.dst) == Opposite(s.dir) && r.dst == s.currentFloor
      else Heading(r.src, r.dst) == s.dir && (r.dst == s.currentFloor || Beyond(s.dir, s.currentFloor, r.dst))
    case Depart => Heading(r.src, r.dst) == s.dir && Beyond(s.dir, s.currentFloor, r.dst)
    case Turned => Heading(r.src, r.dst) == s.dir && Beyond(s.dir, s.currentFloor, r.dst)
  }

  predicate RiderInv(s: State, r: Rider) {
    && ValidTrip(s.numFloors, r.src, r.dst)
    && (r.phase == Aboard ==> CarriedWell(s, r))
    && (r.phase == TurnedAway ==>
          (s.pc == Depart || s.pc == Turned) && s.occupancy == s.capacity && r.src == s.currentFloor)
  }

  predicate LocationInv(s: State) {
    match s.pc
    case Top => true
    case Asleep => s.dir == Stop && forall i | 0 <= i < |s.riders| :: s.riders[i].phase == Done
    case Woken => s.dir == Stop && exists g | 0 <= g < s.numFloors :: Pending(s.riders, g)
    case Doors(turning) =>
      && s.dir != Stop && OnFloor(s, s.currentFloor + Delta(s.dir))
      && if turning then Exits(s.riders, s.currentFloor) || Calls(s.riders, s.dir, s.currentFloor)
         else Ahead(s) || (Calls(s.riders, s.dir, s.currentFloor) && EverybodyGetsOut(s))
    case Depart => s.dir != Stop && OnFloor(s, s.currentFloor + Delta(s.dir))
    case Turned => s.dir != Stop && OnFloor(s, s.currentFloor + Delta(s.dir))
  }

  predicate EverybodyGetsOut(s: State) {
    forall i | 0 <= i < |s.riders| && s.riders[i].phase == Aboard :: s.riders[i].dst == s.currentFloor
  }

  ghost predicate Inv(s: State) {
    && s.numFloors >= 2 && s.capacity >= 1
    && OnFloor(s, s.currentFloor)
    && s.occupancy == Tally(s.riders, Load) && s.occupancy <= s.capacity
    && (forall i | 0 <= i < |s.riders| :: RiderInv(s, s.riders[i]))
    && LocationInv(s)
  }

  // ---------- The search finds exactly the furthest request ----------

  // dest is -1 exactly when nothing is pending in the searched range; otherwise it is pending,
  // not behind the car, and nothing is pending beyond it.
  lemma LastRequestFloorIsFurthest(s: State)
    requires OnFloor(s, s.currentFloor)
    ensures var dest := LastRequestFloor(s);
            && (dest == -1 <==> forall g | 0 <= g < s.numFloors ::
                  g == s.currentFloor || s.dir == Stop || Beyond(s.dir, s.currentFloor, g) ==> !Pending(s.riders, g))
            && (dest != -1 ==>
                  && OnFloor(s, dest) && Pending(s.riders, dest)
                  && (s.dir != Stop ==> dest == s.currentFloor || Beyond(s.dir, s.currentFloor, dest))
                  && (forall g | 0 <= g < s.numFloors :: Beyond(s.dir, dest, g) ==> !Pending(s.riders, g))
                  && (s.dir == Stop ==> forall g | 0 <= g < dest :: !Pending(s.riders, g)))
  {
    var dest := LastRequestFloor(s);
    if dest == -1 && s.dir == Up {
      assert forall g | s.currentFloor <= g <= s.numFloors - 1 && 0 <= g :: !Pending(s.riders, g);
    }
  }

  lemma AheadIffSearch(s: State)
    requires OnFloor(s, s.currentFloor) && s.dir != Stop
    ensures Ahead(s) <==> LastRequestFloor(s) != -1 && LastRequestFloor(s) != s.currentFloor
  {
    LastRequestFloorIsFurthest(s);
  }

  // ---------- Each step keeps the invariant ----------

  lemma RiderRequests(s: State, i: nat)
    requires Inv(s) && i < |s.riders|
    ensures s.riders[i].phase == Waiting ==> Pending(s.riders, s.riders[i].src)
    ensures s.riders[i].phase == Aboard ==> Pending(s.riders, s.riders[i].dst)
  {
    var r := s.riders[i];
    assert RiderInv(s, r);
    if r.phase == Waiting {
      assert Calling(s.riders[i], Heading(r.src, r.dst), r.src);
    } else if r.phase == Aboard {
      assert GettingOut(s.riders[i], r.dst);
    }
  }

  lemma LeaveStopKeeps(s: State)
    requires Inv(s) && s.dir == Stop && (s.pc == Top || s.pc == Woken)
    requires LastRequestFloor(s) != -1
    ensures Inv(LeaveStop(s))
  {
    forall i | 0 <= i < |s.riders| ensures RiderInv(LeaveStop(s), s.riders[i]) {
      assert RiderInv(s, s.riders[i]);
    }
  }

  lemma SleepKeeps(s: State)
    requires Inv(s) && s.pc == Top && s.dir == Stop && LastRequestFloor(s) == -1
    ensures Inv(Decide(s))
  {
    LastRequestFloorIsFurthest(s);
    forall i: nat | i < |s.riders| ensures s.riders[i].phase == Done {
      assert RiderInv(s, s.riders[i]);
      RiderRequests(s, i);
    }
    forall i | 0 <= i < |s.riders| ensures RiderInv(Decide(s), s.riders[i]) {
      assert RiderInv(s, s.riders[i]);
    }
  }

  lemma ReverseKeeps(s: State)
    requires Inv(s) && s.pc == Top && s.dir != Stop && LastRequestFloor(s) == -1
    ensures Inv(Decide(s))
  {
    LastRequestFloorIsFurthest(s);
    forall i: nat | i < |s.riders| ensures RiderInv(Decide(s), s.riders[i]) {
      assert RiderInv(s, s.riders[i]);
      RiderRequests(s, i);
    }
  }

  lemma TravelKeeps(s: State)
    requires Inv(s) && s.pc == Top && s.dir != Stop
    requires LastRequestFloor(s) != -1 && LastRequestFloor(s) != s.currentFloor
    ensures Inv(Decide(s))
    ensures Decide(s).pc == Depart ==> Ahead(Decide(s))
  {
    var t := Decide(s);
    AheadIffSearch(s);
    LastRequestFloorIsFurthest(s);
    assert Ahead(t) by {
      assert Pending(t.riders, LastRequestFloor(s));
    }
    forall i: nat | i < |s.riders| ensures RiderInv(t, s.riders[i]) {
      assert RiderInv(s, s.riders[i]);
      if s.riders[i].phase == Aboard && s.riders[i].dst == s.currentFloor {
        assert GettingOut(s.riders[i], s.currentFloor);
      }
    }
  }

  lemma LastFloorKeeps(s: State)
    requires Inv(s) && s.pc == Top && s.dir != Stop && LastRequestFloor(s) == s.currentFloor
    ensures Inv(Decide(s))
  {
    var t := Decide(s);
    LastRequestFloorIsFurthest(s);
    forall i: nat | i < |s.riders| && s.riders[i].phase == Aboard ensures s.riders[i].dst == s.currentFloor {
      assert RiderInv(s, s.riders[i]);
      RiderRequests(s, i);
    }
    forall i: nat | i < |s.riders| ensures RiderInv(t, s.riders[i]) {
      assert RiderInv(s, s.riders[i]);
    }
    LastFloorHasAWayOut(s, t.dir);
  }

  // The floor after the last requested one exists: whoever made the request needs it, as source or destination.
  lemma LastFloorHasAWayOut(s: State, d: Direction)
    requires Inv(s) && s.pc == Top && s.dir != Stop && Pending(s.riders, s.currentFloor)
    requires d == if Calls(s.riders, s.dir, s.currentFloor) then s.dir else Opposite(s.dir)
    ensures OnFloor(s, s.currentFloor + Delta(d))
    ensures d != s.dir ==> Exits(s.riders, s.currentFloor) || Calls(s.riders, d, s.currentFloor)
  {
    if Calls(s.riders, d, s.currentFloor) {
      var i :| 0 <= i < |s.riders| && Calling(s.riders[i], d, s.currentFloor);
      assert RiderInv(s, s.riders[i]);
    } else {
      var i :| 0 <= i < |s.riders| && GettingOut(s.riders[i], s.currentFloor);
      assert RiderInv(s, s.riders[i]);
    }
  }

  lemma DecideKeeps(s: State)
    requires Inv(s) && s.pc == Top
    ensures Inv(Decide(s))
  {
    if s.dir == Stop {
      if LastRequestFloor(s) == -1 { SleepKeeps(s); } else { LeaveStopKeeps(s); }
    } else if LastRequestFloor(s) == -1 {
      ReverseKeeps(s);
    } else if LastRequestFloor(s) != s.currentFloor {
      TravelKeeps(s);
    } else {
      LastFloorKeeps(s);
    }
  }

  // What a door cycle does to one rider.
  predicate ThroughDoors(s: State, t: State, i: nat)
    requires i < |s.riders| == |t.riders|
  {
    if GettingOut(s.riders[i], s.currentFloor) then t.riders[i] == s.riders[i].(phase := Done)
    else if Calling(s.riders[i], s.dir, s.currentFloor) then
      Admitted(s.riders[i], t.riders[i], t.occupancy == t.capacity)
    else t.riders[i] == s.riders[i]
  }

  // Everybody who wants this floor is let out before anybody boards, and a rider is turned away only
  // when the car is full.  Progress is made unless the car is full and nobody gets out.
  lemma DoorCycleEffect(s: State, t: State, outs: seq<nat>, ins: seq<nat>)
    requires DoorCycle(s, t, outs, ins) && s.occupancy <= s.capacity
    ensures t == s.(riders := t.riders, occupancy := t.occupancy, pc := if s.pc.turning then Turned else Depart)
    ensures |t.riders| == |s.riders|
    ensures forall i: nat | i < |s.riders| :: ThroughDoors(s, t, i)
    ensures t.occupancy <= t.capacity
    ensures t.occupancy - Tally(t.riders, Load) == s.occupancy - Tally(s.riders, Load)
    ensures Tally(t.riders, Work) <= Tally(s.riders, Work)
    ensures Exits(s.riders, s.currentFloor) ==> Tally(t.riders, Work) < Tally(s.riders, Work)
    ensures Calls(s.riders, s.dir, s.currentFloor) && s.occupancy - |outs| < s.capacity ==>
              Tally(t.riders, Work) < Tally(s.riders, Work)
  {
    var c := Cabin(s.riders, s.occupancy);
    ExitAllEffect(c, outs);
    EnterAllEffect(ExitAll(c, outs), s.capacity, ins);
    if Exits(s.riders, s.currentFloor) {
      var i: nat :| i < |s.riders| && GettingOut(s.riders[i], s.currentFloor);
      assert i in Leavers(s);
      assert i in outs;
    }
    if Calls(s.riders, s.dir, s.currentFloor) {
      var i: nat :| i < |s.riders| && Calling(s.riders[i], s.dir, s.currentFloor);
      assert i in Callers(s);
      assert i in ins;
    }
  }

  lemma DoorsKeep(s: State, t: State)
    requires Inv(s) && s.pc.Doors? && Control(s, t)
    ensures Inv(t)
  {
    var outs, ins :| DoorCycle(s, t, outs, ins);
    DoorCycleEffect(s, t, outs, ins);
    forall i: nat | i < |t.riders| ensures RiderInv(t, t.riders[i]) {
      assert ThroughDoors(s, t, i);
      assert RiderInv(s, s.riders[i]);
    }
  }

  lemma VisitKeeps(s: State)
    requires Inv(s) && s.pc == Depart
    ensures Inv(Visit(s))
  {
    var t := Visit(s);
    TallySame(s.riders, t.riders, Load);
    forall i | 0 <= i < |t.riders| ensures RiderInv(t, t.riders[i]) {
      assert RiderInv(s, s.riders[i]);
    }
  }

  // A turned-away rider implies a full car, whose riders are pending ahead: the car does not stop.
  lemma TurnedKeeps(s: State)
    requires Inv(s) && s.pc == Turned
    ensures Inv(DecideTurned(s))
    ensures (exists i | 0 <= i < |s.riders| :: s.riders[i].phase == TurnedAway) ==> DecideTurned(s).pc == Depart
  {
    var t := DecideTurned(s);
    LastRequestFloorIsFurthest(s);
    if LastRequestFloor(s) == -1 {
      if s.occupancy > 0 {
        var i := TallyPositive(s.riders, Load);
        assert RiderInv(s, s.riders[i]);
        RiderRequests(s, i);
        assert false;
      }
      forall i: nat | i < |s.riders| ensures RiderInv(t, s.riders[i]) && s.riders[i].phase != TurnedAway {
        assert RiderInv(s, s.riders[i]);
        TallyAtLeast(s.riders, Load, i);
      }
    } else {
      forall i | 0 <= i < |s.riders| ensures RiderInv(t, s.riders[i]) {
        assert RiderInv(s, s.riders[i]);
      }
    }
  }

  lemma WokenKeeps(s: State)
    requires Inv(s) && s.pc == Woken
    ensures LastRequestFloor(s) != -1
    ensures Inv(LeaveStop(s))
  {
    LastRequestFloorIsFurthest(s);
    LeaveStopKeeps(s);
  }

  lemma ControlKeeps(s: State, t: State)
    requires Inv(s) && Control(s, t)
    ensures Inv(t)
  {
    match s.pc {
      case Top => DecideKeeps(s);
      case Asleep =>
      case Woken => WokenKeeps(s);
      case Doors(_) => DoorsKeep(s, t);
      case Depart => VisitKeeps(s);
      case Turned => TurnedKeeps(s);
    }
  }

  lemma PendingGrows(riders: seq<Rider>, r: Rider)
    ensures forall d, f | Calls(riders, d, f) :: Calls(riders + [r], d, f)
    ensures forall f | Exits(riders, f) :: Exits(riders + [r], f)
    ensures forall f | Pending(riders, f) :: Pending(riders + [r], f)
  {
    var more := riders + [r];
    assert forall i | 0 <= i < |riders| :: more[i] == riders[i];
    forall d, f | Calls(riders, d, f) ensures Calls(more, d, f) {
      var i :| 0 <= i < |riders| && Calling(riders[i], d, f);
      assert Calling(more[i], d, f);
    }
    forall f | Exits(riders, f) ensures Exits(more, f) {
      var i :| 0 <= i < |riders| && GettingOut(riders[i], f);
      assert GettingOut(more[i], f);
    }
  }

  lemma ArriveKeeps(s: State, src: int, dst: int)
    requires Inv(s) && ValidTrip(s.numFloors, src, dst)
    ensures Inv(Arrive(s, src, dst))
  {
    var t := Arrive(s, src, dst);
    var r := Rider(src, dst, Waiting);
    assert t.riders[..|s.riders|] == s.riders;
    PendingGrows(s.riders, r);
    forall i | 0 <= i < |t.riders| ensures RiderInv(t, t.riders[i]) {
      if i < |s.riders| { assert RiderInv(s, s.riders[i]); }
    }
    if s.pc == Asleep {
      assert Calling(t.riders[|s.riders|], Heading(src, dst), src);
      assert Pending(t.riders, src);
    }
    if s.pc == Doors(false) && Ahead(s) {
      var g :| 0 <= g < s.numFloors && Beyond(s.dir, s.currentFloor, g) && Pending(s.riders, g);
      assert Pending(t.riders, g);
    }
    if s.pc == Woken {
      var g :| 0 <= g < s.numFloors && Pending(s.riders, g);
      assert Pending(t.riders, g);
    }
  }

  lemma NextKeeps(s: State, t: State)
    requires Inv(s) && Next(s, t)
    ensures Inv(t)
  {
    if Control(s, t) {
      ControlKeeps(s, t);
    } else {
      var src, dst :| ValidTrip(s.numFloors, src, dst) && t == Arrive(s, src, dst);
      ArriveKeeps(s, src, dst);
    }
  }

  lemma {:induction false} RunKeeps(run: seq<State>, i: nat)
    requires IsRun(run) && i < |run|
    ensures Inv(run[i])
  {
    if i > 0 {
      RunKeeps(run, i - 1);
      assert Linked(run, i - 1);
      NextKeeps(run[i - 1], run[i]);
    }
  }
}
