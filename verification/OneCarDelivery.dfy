/** The one-car system's theorems about whole runs: direction, floors, nobody stranded, everybody delivered. */
module OneCarDelivery {
  import opened Sums
  import opened Travel
  import opened OneCar
  import opened OneCarSafety

  // ---------- Safety over runs ----------

  function OnBoard(s: State): set<nat> {
    set i: nat | i < |s.riders| && s.riders[i].phase == Aboard
  }

  // The occupancy counter is the number of riders on board, and the capacity is never exceeded.
  lemma OccupancyIsRidersOnBoard(run: seq<State>, i: nat)
    requires IsRun(run) && i < |run|
    ensures run[i].occupancy == |OnBoard(run[i])| <= run[i].capacity
  {
    RunKeeps(run, i);
    TallyCounts(run[i].riders, Load);
    assert OnBoard(run[i]) == Positive(run[i].riders, Load);
  }

  lemma CarStaysInShaft(run: seq<State>, i: nat)
    requires IsRun(run) && i < |run|
    ensures 0 <= run[i].currentFloor < run[i].numFloors
  {
    RunKeeps(run, i);
  }

  // Except in the doors of a reversal, where every rider on board gets out, the riders on board head the way the
  // car travels and their floor is not behind it; a stopped car is empty.
  lemma DirectionOfTravel(run: seq<State>, i: nat, k: nat)
    requires IsRun(run) && i < |run| && k < |run[i].riders| && run[i].riders[k].phase == Aboard
    ensures var s := run[i];
            var r := s.riders[k];
            && s.dir != Stop
            && (s.pc == Doors(true) ==> r.dst == s.currentFloor)
            && (s.pc != Doors(true) ==>
                  && (s.dir == Up ==> r.src < r.dst && s.currentFloor <= r.dst)
                  && (s.dir == Down ==> r.dst < r.src && r.dst <= s.currentFloor))
  {
    RunKeeps(run, i);
    assert RiderInv(run[i], run[i].riders[k]);
  }

  // Every move brings every rider on board one floor closer to where they want to be.
  lemma NobodyIsCarriedAway(run: seq<State>, i: nat, k: nat)
    requires IsRun(run) && i + 1 < |run| && k < |run[i].riders| && run[i].riders[k].phase == Aboard
    requires run[i].currentFloor != run[i + 1].currentFloor
    ensures k < |run[i + 1].riders| && run[i + 1].riders[k] == run[i].riders[k]
    ensures Abs(run[i].riders[k].dst - run[i + 1].currentFloor) == Abs(run[i].riders[k].dst - run[i].currentFloor) - 1
  {
    RunKeeps(run, i);
    var s, t := run[i], run[i + 1];
    assert RiderInv(s, s.riders[k]);
    assert Linked(run, i);
  }

  // A rider asleep on ElevatorNotFull sees a full car that never stops before it moves, and every move wakes them.
  lemma NobodyIsStranded(run: seq<State>, i: nat, k: nat)
    requires IsRun(run) && i < |run| && k < |run[i].riders| && run[i].riders[k].phase == TurnedAway
    ensures run[i].occupancy == run[i].capacity && run[i].dir != Stop
    ensures run[i].pc == Depart || run[i].pc == Turned
    ensures i + 1 < |run| && Control(run[i], run[i + 1]) ==>
              && k < |run[i + 1].riders|
              && if run[i].pc == Depart then run[i + 1].riders[k] == run[i].riders[k].(phase := Waiting)
                 else run[i + 1].pc == Depart && run[i + 1].riders[k] == run[i].riders[k]
  {
    RunKeeps(run, i);
    assert RiderInv(run[i], run[i].riders[k]);
    if run[i].pc == Turned {
      TurnedKeeps(run[i]);
    }
  }

  // A car asleep on HaveRequest has no request to serve: every rider there is has been delivered.
  lemma IdleCarHasNothingToDo(run: seq<State>, i: nat)
    requires IsRun(run) && i < |run| && run[i].pc == Asleep
    ensures forall f :: !Pending(run[i].riders, f)
    ensures forall k | 0 <= k < |run[i].riders| :: run[i].riders[k].phase == Done
  {
    RunKeeps(run, i);
  }

  // ---------- The measure ----------

  function Rank(s: State): int {
    var dest := LastRequestFloor(s);
    var distance := Abs(dest - s.currentFloor);
    match s.pc
    case Asleep => 0
    case Woken => 3 * s.numFloors
    case Top =>
      if s.dir == Stop then if dest == -1 then 1 else 3 * s.numFloors
      else if dest == -1 then if s.noRequest then 3 * s.numFloors + 1 else 3 * s.numFloors + 2
      else 3 * distance + 2
    case Doors(turning) => if !turning && Ahead(s) then 3 * distance + 1 else 0
    case Depart => if Ahead(s) then 3 * distance else 3 * s.numFloors + 3
    case Turned => 3 * s.numFloors + 4
  }

  function Unit(s: State): nat
    requires s.numFloors >= 0
  {
    3 * s.numFloors + 5
  }

  function Potential(s: State): int
    requires s.numFloors >= 0
  {
    Worth(Tally(s.riders, Work), Unit(s)) + Rank(s)
  }

  lemma RankBounds(s: State)
    requires Inv(s)
    ensures 0 <= Rank(s) < Unit(s)
  {
    LastRequestFloorIsFurthest(s);
    if s.dir != Stop { AheadIffSearch(s); }
  }

  // Requests strictly ahead of the car decide how far it still goes in its direction.
  lemma SameRequestsAhead(s: State, t: State)
    requires OnFloor(s, s.currentFloor) && OnFloor(t, t.currentFloor) && s.numFloors == t.numFloors
    requires s.dir == t.dir != Stop && Ahead(s)
    requires forall g | 0 <= g < s.numFloors && Beyond(s.dir, s.currentFloor, g) ::
               Pending(s.riders, g) <==> Pending(t.riders, g)
    requires t.currentFloor == s.currentFloor || t.currentFloor == s.currentFloor + Delta(s.dir)
    ensures LastRequestFloor(t) == LastRequestFloor(s)
  {
    AheadIffSearch(s);
    LastRequestFloorIsFurthest(s);
    LastRequestFloorIsFurthest(t);
    assert Pending(t.riders, LastRequestFloor(s));
    assert LastRequestFloor(t) != -1;
  }

  lemma TopPays(s: State)
    requires Inv(s) && s.pc == Top
    ensures Rank(Decide(s)) < Rank(s)
  {
    var t := Decide(s);
    DecideKeeps(s);
    LastRequestFloorIsFurthest(s);
    if s.dir != Stop { AheadIffSearch(s); }
    if t.dir != Stop { AheadIffSearch(t); }
    LastRequestFloorIsFurthest(t);
    if s.dir == Stop && LastRequestFloor(s) != -1 {
      LeaveStopPays(s);
    }
  }

  lemma LeaveStopPays(s: State)
    requires Inv(s) && s.dir == Stop && (s.pc == Top || s.pc == Woken) && LastRequestFloor(s) != -1
    ensures Rank(LeaveStop(s)) < 3 * s.numFloors
  {
    var t := LeaveStop(s);
    LastRequestFloorIsFurthest(s);
    LastRequestFloorIsFurthest(t);
    assert Pending(t.riders, LastRequestFloor(s));
    assert LastRequestFloor(t) != -1;
  }

  // A door cycle without progress changes nothing but callers of this floor into turned-away riders.
  lemma IdleDoors(s: State, t: State, outs: seq<nat>, ins: seq<nat>)
    requires Inv(s) && DoorCycle(s, t, outs, ins)
    requires Tally(t.riders, Work) == Tally(s.riders, Work)
    ensures |t.riders| == |s.riders|
    ensures forall i: nat | i < |s.riders| ::
              || t.riders[i] == s.riders[i]
              || (Calling(s.riders[i], s.dir, s.currentFloor) && t.riders[i].phase == TurnedAway)
  {
    DoorCycleEffect(s, t, outs, ins);
    forall i: nat | i < |s.riders| ensures Work(s.riders[i]) >= Work(t.riders[i]) {
      assert ThroughDoors(s, t, i);
    }
    TallyGrows(s.riders, t.riders, Work);
    forall i: nat | i < |s.riders|
      ensures || t.riders[i] == s.riders[i]
              || (Calling(s.riders[i], s.dir, s.currentFloor) && t.riders[i].phase == TurnedAway)
    {
      assert ThroughDoors(s, t, i);
    }
  }

  lemma PendingElsewhere(a: seq<Rider>, b: seq<Rider>, floor: int)
    requires |a| == |b|
    requires forall i | 0 <= i < |a| ::
               a[i] == b[i] || (a[i].src == b[i].src == floor && a[i].phase != Aboard && b[i].phase != Aboard)
    ensures forall g | g != floor :: Pending(a, g) ==> Pending(b, g)
  {
    forall g | g != floor && Pending(a, g) ensures Pending(b, g) {
      if Exits(a, g) {
        var i :| 0 <= i < |a| && GettingOut(a[i], g);
        assert GettingOut(b[i], g);
      } else if Calls(a, Up, g) {
        CallsElsewhere(a, b, Up, g);
      } else {
        CallsElsewhere(a, b, Down, g);
      }
    }
  }

  lemma CallsElsewhere(a: seq<Rider>, b: seq<Rider>, d: Direction, g: int)
    requires |a| == |b| && Calls(a, d, g)
    requires forall i | 0 <= i < |a| :: a[i] == b[i] || a[i].src != g
    ensures Calls(b, d, g)
  {
    var i :| 0 <= i < |a| && Calling(a[i], d, g);
    assert Calling(b[i], d, g);
  }

  // At the last floor of a direction a door cycle always lets somebody out or takes somebody in.
  lemma LastFloorProgress(s: State, t: State, outs: seq<nat>, ins: seq<nat>)
    requires Inv(s) && DoorCycle(s, t, outs, ins)
    requires s.pc == Doors(true) || !Ahead(s)
    ensures Tally(t.riders, Work) < Tally(s.riders, Work)
  {
    DoorCycleEffect(s, t, outs, ins);
    var c := Cabin(s.riders, s.occupancy);
    ExitAllEffect(c, outs);
    if s.occupancy - |outs| > 0 {
      var i := TallyPositive(ExitAll(c, outs).riders, Load);
      assert RiderInv(s, s.riders[i]);
      assert GettingOut(s.riders[i], s.currentFloor);
      assert false;
    }
  }

  lemma IdleDoorsPay(s: State, t: State, outs: seq<nat>, ins: seq<nat>)
    requires Inv(s) && Inv(t) && DoorCycle(s, t, outs, ins)
    requires Tally(t.riders, Work) == Tally(s.riders, Work)
    ensures Rank(t) < Rank(s)
  {
    if s.pc == Doors(true) || !Ahead(s) {
      LastFloorProgress(s, t, outs, ins);
      assert false;
    }
    IdleDoors(s, t, outs, ins);
    PendingElsewhere(s.riders, t.riders, s.currentFloor);
    PendingElsewhere(t.riders, s.riders, s.currentFloor);
    SameRequestsAhead(s, t);
    AheadIffSearch(s);
    AheadIffSearch(t);
  }

  lemma ProgressPays(s: State, t: State)
    requires Inv(s) && Inv(t) && t.numFloors == s.numFloors
    requires Tally(t.riders, Work) < Tally(s.riders, Work)
    ensures Potential(t) < Potential(s)
  {
    RankBounds(s);
    RankBounds(t);
    WorthGrows(Tally(t.riders, Work), Tally(s.riders, Work), Unit(s));
  }

  lemma DoorsPay(s: State, t: State)
    requires Inv(s) && s.pc.Doors? && Control(s, t)
    ensures t.numFloors == s.numFloors && Potential(t) < Potential(s)
  {
    DoorsKeep(s, t);
    var outs, ins :| DoorCycle(s, t, outs, ins);
    DoorCycleEffect(s, t, outs, ins);
    if Tally(t.riders, Work) < Tally(s.riders, Work) {
      ProgressPays(s, t);
    } else {
      IdleDoorsPay(s, t, outs, ins);
      RankPays(s, t);
    }
  }

  lemma DepartPays(s: State)
    requires Inv(s) && s.pc == Depart
    ensures Rank(Visit(s)) < Rank(s)
    ensures Tally(Visit(s).riders, Work) == Tally(s.riders, Work)
  {
    var t := Visit(s);
    VisitKeeps(s);
    TallySame(s.riders, t.riders, Work);
    LastRequestFloorIsFurthest(t);
    if Ahead(s) {
      forall i | 0 <= i < |s.riders| ensures RiderInv(s, s.riders[i]) {}
      PendingElsewhere(s.riders, t.riders, s.currentFloor);
      PendingElsewhere(t.riders, s.riders, s.currentFloor);
      SameRequestsAhead(s, t);
      AheadIffSearch(s);
    }
  }

  lemma TurnedPays(s: State)
    requires Inv(s) && s.pc == Turned
    ensures Rank(DecideTurned(s)) < Rank(s)
  {
    var t := DecideTurned(s);
    TurnedKeeps(s);
    LastRequestFloorIsFurthest(t);
    if t.dir != Stop { AheadIffSearch(t); }
  }

  lemma RankPays(s: State, t: State)
    requires s.numFloors >= 0 && t.numFloors == s.numFloors
    requires Tally(t.riders, Work) == Tally(s.riders, Work) && Rank(t) < Rank(s)
    ensures Potential(t) < Potential(s)
  {
  }

  lemma SleeperPays(s: State, t: State)
    requires Inv(s) && Control(s, t) && (s.pc == Woken || s.pc == Top)
    ensures t.numFloors == s.numFloors && t.riders == s.riders && Rank(t) < Rank(s)
  {
    if s.pc == Woken {
      WokenKeeps(s);
      LeaveStopPays(s);
    } else {
      TopPays(s);
    }
  }

  // Every action of the control thread uses up potential.
  lemma ControlPays(s: State, t: State)
    requires Inv(s) && Control(s, t)
    ensures t.numFloors >= 0 && Potential(t) < Potential(s)
  {
    ControlKeepsRiders(s, t);
    match s.pc {
      case Top => SleeperPays(s, t); RankPays(s, t);
      case Woken => SleeperPays(s, t); RankPays(s, t);
      case Asleep =>
      case Depart => DepartPays(s); RankPays(s, t);
      case Turned => TurnedPays(s); RankPays(s, t);
      case Doors(_) => DoorsPay(s, t);
    }
  }

  lemma NextPays(s: State, t: State)
    requires Inv(s) && Next(s, t)
    ensures t.numFloors == s.numFloors && |t.riders| >= |s.riders|
    ensures |t.riders| == |s.riders| ==> Potential(t) < Potential(s)
    ensures |t.riders| > |s.riders| ==>
              |t.riders| == |s.riders| + 1 && Potential(t) < Potential(s) + 3 * Unit(s)
  {
    if Control(s, t) { ControlKeepsRiders(s, t); ControlPays(s, t); } else { ArrivalCosts(s, t); }
  }

  lemma {:induction false} WorkBound(riders: seq<Rider>)
    ensures Tally(riders, Work) <= 2 * |riders|
  {
    if riders != [] { WorkBound(riders[..|riders| - 1]); }
  }

  lemma PotentialBounds(s: State)
    requires Inv(s)
    ensures 0 <= Potential(s) < Worth(2 * |s.riders| + 1, Unit(s))
  {
    RankBounds(s);
    WorkBound(s.riders);
    WorthGrows(Tally(s.riders, Work), 2 * |s.riders| + 1, Unit(s));
  }

  lemma ArrivalCosts(s: State, t: State)
    requires Inv(s) && Arrival(s, t)
    ensures |t.riders| == |s.riders| + 1 && t.numFloors == s.numFloors
    ensures Potential(t) < Potential(s) + 3 * Unit(s)
  {
    var src, dst :| ValidTrip(s.numFloors, src, dst) && t == Arrive(s, src, dst);
    ArriveKeeps(s, src, dst);
    RankBounds(s);
    RankBounds(t);
    assert t.riders[..|s.riders|] == s.riders;
    var w := Tally(s.riders, Work);
    assert Tally(t.riders, Work) == w + 2;
    assert Worth(w + 2, Unit(s)) == Worth(w + 1, Unit(s)) + Unit(s) == Worth(w, Unit(s)) + 2 * Unit(s);
  }

  lemma ControlKeepsRiders(s: State, t: State)
    requires Inv(s) && Control(s, t)
    ensures |t.riders| == |s.riders| && t.numFloors == s.numFloors
  {
    if s.pc.Doors? {
      var outs, ins :| DoorCycle(s, t, outs, ins);
      DoorCycleEffect(s, t, outs, ins);
    }
  }

  // ---------- Delivery ----------

  lemma {:induction false} Enumerate(chosen: set<nat>) returns (order: seq<nat>)
    ensures Lists(order, chosen)
  {
    if chosen == {} {
      order := [];
    } else {
      var i :| i in chosen;
      var rest := Enumerate(chosen - {i});
      order := rest + [i];
    }
  }

  // The control thread is never stuck unless it sleeps on HaveRequest.
  lemma ControlIsTotal(s: State)
    ensures (exists t :: Control(s, t)) <==> s.pc != Asleep
  {
    match s.pc {
      case Top => assert Control(s, Decide(s));
      case Asleep =>
      case Woken => assert Control(s, LeaveStop(s));
      case Doors(_) =>
        var outs := Enumerate(Leavers(s));
        var ins := Enumerate(Callers(s));
        assert forall k | 0 <= k < |outs| :: outs[k] in outs;
        assert forall k | 0 <= k < |ins| :: ins[k] in ins;
        var c := EnterAll(ExitAll(Cabin(s.riders, s.occupancy), outs), s.capacity, ins);
        var t := s.(riders := c.riders, occupancy := c.occupancy, pc := if s.pc.turning then Turned else Depart);
        assert DoorCycle(s, t, outs, ins);
        assert Control(s, t);
      case Depart => assert Control(s, Visit(s));
      case Turned => assert Control(s, DecideTurned(s));
    }
  }

  ghost predicate NoArrivalsFrom(run: seq<State>, k: nat)
    requires k < |run|
  {
    forall i | k <= i < |run| :: |run[i].riders| == |run[k].riders|
  }

  lemma {:induction false} PotentialFalls(run: seq<State>, k: nat, i: nat)
    requires IsRun(run) && k <= i < |run| && NoArrivalsFrom(run, k)
    requires run[k].numFloors >= 0
    ensures run[i].numFloors == run[k].numFloors
    ensures Potential(run[i]) <= Potential(run[k]) - (i - k)
    decreases i
  {
    if i > k {
      PotentialFalls(run, k, i - 1);
      RunKeeps(run, i - 1);
      assert Linked(run, i - 1);
      NextPays(run[i - 1], run[i]);
    }
  }

  // Once arrivals cease, the control thread acts less than (W + 1)(3 numFloors + 5) times more, W being the boardings
  // and exits still to come, at most two for a rider; and when it can act no more, every rider has been delivered.
  lemma EveryRiderIsDelivered(run: seq<State>, k: nat)
    requires IsRun(run) && k < |run| && NoArrivalsFrom(run, k)
    ensures |run| - 1 - k < (Tally(run[k].riders, Work) + 1) * (3 * run[k].numFloors + 5)
    ensures Tally(run[k].riders, Work) <= 2 * |run[k].riders|
    ensures var last := run[|run| - 1];
            (exists t :: Control(last, t)) || forall i | 0 <= i < |last.riders| :: last.riders[i].phase == Done
  {
    var last := run[|run| - 1];
    RunKeeps(run, k);
    PotentialFalls(run, k, |run| - 1);
    RunKeeps(run, |run| - 1);
    WorkBound(run[k].riders);
    RankBounds(run[k]);
    PotentialBounds(last);
    WorthIsProduct(Tally(run[k].riders, Work) + 1, Unit(run[k]));
    ControlIsTotal(last);
  }

  lemma {:induction false} PotentialOverRun(run: seq<State>, i: nat)
    requires IsRun(run) && i < |run|
    ensures 0 <= run[i].numFloors == run[0].numFloors
    ensures |run[i].riders| <= i
    ensures Potential(run[i]) <= 1 + Worth(|run[i].riders|, 3 * Unit(run[0])) - (i - |run[i].riders|)
  {
    if i == 0 {
      LastRequestFloorIsFurthest(run[0]);
      assert LastRequestFloor(run[0]) == -1;
    } else {
      PotentialOverRun(run, i - 1);
      RunKeeps(run, i - 1);
      assert Linked(run, i - 1);
      StepOverRun(run[i - 1], run[i], Unit(run[0]), i);
    }
  }

  lemma StepOverRun(s: State, t: State, unit: nat, i: nat)
    requires Inv(s) && Next(s, t) && Unit(s) == unit && i > 0
    requires Potential(s) <= 1 + Worth(|s.riders|, 3 * unit) - (i - 1 - |s.riders|)
    ensures t.numFloors == s.numFloors && |t.riders| <= |s.riders| + 1
    ensures Potential(t) <= 1 + Worth(|t.riders|, 3 * unit) - (i - |t.riders|)
  {
    NextPays(s, t);
    if |t.riders| > |s.riders| {
      assert Worth(|t.riders|, 3 * unit) == Worth(|s.riders|, 3 * unit) + 3 * unit;
    }
  }

  // However arrivals are interleaved with the control thread, it acts at most 1 + R(9 numFloors + 15) times.
  lemma ControlActionsPerRider(run: seq<State>)
    requires IsRun(run)
    ensures var last := run[|run| - 1];
            |run| - 1 - |last.riders| <= 1 + |last.riders| * (9 * last.numFloors + 15)
  {
    PotentialOverRun(run, |run| - 1);
    RunKeeps(run, |run| - 1);
    PotentialBounds(run[|run| - 1]);
    WorthIsProduct(|run[|run| - 1].riders|, 3 * Unit(run[0]));
    assert 3 * Unit(run[0]) == 9 * run[0].numFloors + 15;
  }
}
