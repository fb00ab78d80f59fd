/** What the one car and its riders do at each step of a run, in terms of floors, calls and riders alone. */
module OneCarBehaviour {
  import opened Sums
  import opened Travel
  import opened OneCar
  import opened OneCarSafety

  // Somebody waits for the car on floor f, or wants to get out there.
  predicate Wanted(s: State, f: int) {
    exists i | 0 <= i < |s.riders| ::
      || (s.riders[i].phase == Waiting && s.riders[i].src == f)
      || (s.riders[i].phase == Aboard && s.riders[i].dst == f)
  }

  // Somebody waits on this floor to go the way the car goes.
  predicate CalledHere(s: State) {
    exists i | 0 <= i < |s.riders| ::
      && s.riders[i].phase == Waiting && s.riders[i].src == s.currentFloor
      && (s.dir == Up ==> s.riders[i].src < s.riders[i].dst)
      && (s.dir == Down ==> s.riders[i].dst < s.riders[i].src)
  }

  predicate OutHere(s: State) {
    exists i | 0 <= i < |s.riders| :: s.riders[i].phase == Aboard && s.riders[i].dst == s.currentFloor
  }

  // Somebody wants the car on a floor it has not reached yet.
  predicate WantedAhead(s: State) {
    exists g | 0 <= g < s.numFloors && Wanted(s, g) ::
      (s.dir == Up && s.currentFloor < g) || (s.dir == Down && g < s.currentFloor)
  }

  lemma WantedIsPending(s: State, f: int)
    requires Inv(s)
    ensures Wanted(s, f) <==> Pending(s.riders, f)
  {
    if Wanted(s, f) {
      var i :| 0 <= i < |s.riders| && ((s.riders[i].phase == Waiting && s.riders[i].src == f)
                                       || (s.riders[i].phase == Aboard && s.riders[i].dst == f));
      if s.riders[i].phase == Waiting {
        assert Calling(s.riders[i], Heading(s.riders[i].src, s.riders[i].dst), f);
      } else {
        assert GettingOut(s.riders[i], f);
      }
    }
    if Exits(s.riders, f) {
      var i :| 0 <= i < |s.riders| && GettingOut(s.riders[i], f);
      assert Wanted(s, f);
    } else if Pending(s.riders, f) {
      var d := if Calls(s.riders, Up, f) then Up else Down;
      var i :| 0 <= i < |s.riders| && Calling(s.riders[i], d, f);
      assert Wanted(s, f);
    }
  }

  lemma CalledIsCalls(s: State)
    requires Inv(s) && s.dir != Stop
    ensures CalledHere(s) <==> Calls(s.riders, s.dir, s.currentFloor)
    ensures OutHere(s) <==> Exits(s.riders, s.currentFloor)
  {
    if CalledHere(s) {
      var i :| 0 <= i < |s.riders| && s.riders[i].phase == Waiting && s.riders[i].src == s.currentFloor
               && (s.dir == Up ==> s.riders[i].src < s.riders[i].dst)
               && (s.dir == Down ==> s.riders[i].dst < s.riders[i].src);
      assert RiderInv(s, s.riders[i]);
      assert Calling(s.riders[i], s.dir, s.currentFloor);
    }
    if Calls(s.riders, s.dir, s.currentFloor) {
      var i :| 0 <= i < |s.riders| && Calling(s.riders[i], s.dir, s.currentFloor);
      assert RiderInv(s, s.riders[i]);
    }
    if OutHere(s) {
      var i :| 0 <= i < |s.riders| && s.riders[i].phase == Aboard && s.riders[i].dst == s.currentFloor;
      assert GettingOut(s.riders[i], s.currentFloor);
    }
  }

  lemma AheadIsWanted(s: State)
    requires Inv(s) && s.dir != Stop
    ensures WantedAhead(s) <==> Ahead(s)
  {
    forall g ensures Wanted(s, g) <==> Pending(s.riders, g) {
      WantedIsPending(s, g);
    }
  }

  // A step that adds no rider is one of the control thread.
  lemma ControlStep(run: seq<State>, i: nat)
    requires IsRun(run) && i + 1 < |run| && |run[i + 1].riders| == |run[i].riders|
    ensures Inv(run[i]) && Control(run[i], run[i + 1])
  {
    RunKeeps(run, i);
    assert Linked(run, i);
  }

  // ---------- Out of STOP ----------

  // A car leaves STOP where somebody wants it, and goes down exactly if somebody wants it on its floor or below.
  lemma LeavingStop(run: seq<State>, i: nat)
    requires IsRun(run) && i + 1 < |run| && run[i].dir == Stop && run[i + 1].dir != Stop
    ensures var s, t := run[i], run[i + 1];
            && t.riders == s.riders && t.currentFloor == s.currentFloor && t.pc == Top
            && (exists g | 0 <= g < s.numFloors :: Wanted(s, g))
            && (t.dir == Down <==> exists g | 0 <= g <= s.currentFloor :: Wanted(s, g))
  {
    var s, t := run[i], run[i + 1];
    RunKeeps(run, i);
    assert Linked(run, i);
    LastRequestFloorIsFurthest(s);
    if s.pc == Woken { WokenKeeps(s); }
    forall g ensures Wanted(s, g) <==> Pending(s.riders, g) {
      WantedIsPending(s, g);
    }
    assert Wanted(s, LastRequestFloor(s));
  }

  // A stopped car about to decide goes to sleep exactly if nobody wants it anywhere.
  lemma FallingAsleep(run: seq<State>, i: nat)
    requires IsRun(run) && i + 1 < |run| && |run[i + 1].riders| == |run[i].riders|
    requires run[i].pc == Top && run[i].dir == Stop
    ensures var s, t := run[i], run[i + 1];
            && (t.pc == Asleep <==> forall g | 0 <= g < s.numFloors :: !Wanted(s, g))
            && (t.pc != Asleep ==> t.dir != Stop && t.pc == Top)
            && t.riders == s.riders && t.currentFloor == s.currentFloor
  {
    ControlStep(run, i);
    var s := run[i];
    LastRequestFloorIsFurthest(s);
    forall g ensures Wanted(s, g) <==> Pending(s.riders, g) {
      WantedIsPending(s, g);
    }
  }

  // ---------- Decisions on the way ----------

  predicate TurnsAround(s: State, t: State) {
    (s.dir == Up ==> t.dir == Down) && (s.dir == Down ==> t.dir == Up)
  }

  // While somebody wants it further on, the car keeps its direction, and opens its doors exactly for those who get in
  // or out here.
  lemma OnTheWay(run: seq<State>, i: nat)
    requires IsRun(run) && i + 1 < |run| && |run[i + 1].riders| == |run[i].riders|
    requires run[i].pc == Top && run[i].dir != Stop && WantedAhead(run[i])
    ensures var s, t := run[i], run[i + 1];
            && t.dir == s.dir && !t.noRequest && t.riders == s.riders && t.currentFloor == s.currentFloor
            && t.pc == if CalledHere(s) || OutHere(s) then Doors(false) else Depart
  {
    ControlStep(run, i);
    AheadIsWanted(run[i]);
    AheadIffSearch(run[i]);
    CalledIsCalls(run[i]);
  }

  // Where nobody wants it further on but somebody does here, the car opens its doors, and turns around unless somebody
  // goes on from here.
  lemma AtTheLastFloor(run: seq<State>, i: nat)
    requires IsRun(run) && i + 1 < |run| && |run[i + 1].riders| == |run[i].riders|
    requires run[i].pc == Top && run[i].dir != Stop && !WantedAhead(run[i]) && Wanted(run[i], run[i].currentFloor)
    ensures var s, t := run[i], run[i + 1];
            && t.riders == s.riders && t.currentFloor == s.currentFloor && t.noRequest == s.noRequest
            && if CalledHere(s) then t.dir == s.dir && t.pc == Doors(false)
               else TurnsAround(s, t) && t.pc == Doors(true)
  {
    ControlStep(run, i);
    var s := run[i];
    AheadIsWanted(s);
    AheadIffSearch(s);
    CalledIsCalls(s);
    WantedIsPending(s, s.currentFloor);
    LastRequestFloorIsFurthest(s);
  }

  // Where nobody wants it here or further on, the car turns around once, and stops if it has done so already.
  lemma NobodyThisWay(run: seq<State>, i: nat)
    requires IsRun(run) && i + 1 < |run| && |run[i + 1].riders| == |run[i].riders|
    requires run[i].pc == Top && run[i].dir != Stop && !WantedAhead(run[i]) && !Wanted(run[i], run[i].currentFloor)
    ensures var s, t := run[i], run[i + 1];
            && t.riders == s.riders && t.currentFloor == s.currentFloor && t.pc == Top && t.noRequest
            && if s.noRequest then t.dir == Stop else TurnsAround(s, t)
  {
    ControlStep(run, i);
    var s := run[i];
    AheadIsWanted(s);
    AheadIffSearch(s);
    WantedIsPending(s, s.currentFloor);
    LastRequestFloorIsFurthest(s);
  }

  // After a reversal the car moves exactly if somebody wants it here or further on, and stops otherwise.
  lemma AfterAReversal(run: seq<State>, i: nat)
    requires IsRun(run) && i + 1 < |run| && |run[i + 1].riders| == |run[i].riders| && run[i].pc == Turned
    ensures var s, t := run[i], run[i + 1];
            && t.riders == s.riders && t.currentFloor == s.currentFloor
            && if WantedAhead(s) || Wanted(s, s.currentFloor) then t.dir == s.dir && t.pc == Depart
               else t.dir == Stop && t.pc == Top
  {
    ControlStep(run, i);
    var s := run[i];
    AheadIsWanted(s);
    AheadIffSearch(s);
    WantedIsPending(s, s.currentFloor);
    LastRequestFloorIsFurthest(s);
  }

  // ---------- Moves ----------

  // The floor changes by one, in the car's direction, exactly when the car departs.
  lemma MovesByOne(run: seq<State>, i: nat)
    requires IsRun(run) && i + 1 < |run|
    ensures var s, t := run[i], run[i + 1];
            t.currentFloor ==
            if s.pc == Depart && |t.riders| == |s.riders|
            then s.currentFloor + (if s.dir == Up then 1 else -1) else s.currentFloor
  {
    RunKeeps(run, i);
    assert Linked(run, i);
    if run[i].pc.Doors? && Control(run[i], run[i + 1]) {
      var outs, ins :| DoorCycle(run[i], run[i + 1], outs, ins);
      DoorCycleEffect(run[i], run[i + 1], outs, ins);
    }
  }

  // ---------- The life of a rider ----------

  // A waiting rider boards, or is turned away by a car that ends up full, on its floor and with the car going its way.
  // One on board gets out where it wants to be, and one turned away calls again when the car moves.
  predicate RiderStep(s: State, t: State, r: Rider, q: Rider) {
    && q.src == r.src && q.dst == r.dst
    && match (r.phase, q.phase)
       case (Waiting, Waiting) => true
       case (Waiting, Aboard) => TakenIn(s, r)
       case (Waiting, TurnedAway) => TakenIn(s, r) && t.occupancy == t.capacity
       case (TurnedAway, TurnedAway) => true
       case (TurnedAway, Waiting) => s.pc == Depart
       case (Aboard, Aboard) => true
       case (Aboard, Done) => s.pc.Doors? && s.currentFloor == r.dst
       case (Done, Done) => true
       case _ => false
  }

  predicate TakenIn(s: State, r: Rider) {
    && s.pc.Doors? && s.currentFloor == r.src
    && (s.dir == Up <==> r.src < r.dst) && (s.dir == Down <==> r.dst < r.src)
  }

  lemma LifeOfARider(run: seq<State>, i: nat, k: nat)
    requires IsRun(run) && i + 1 < |run| && k < |run[i].riders|
    ensures k < |run[i + 1].riders| && RiderStep(run[i], run[i + 1], run[i].riders[k], run[i + 1].riders[k])
  {
    var s, t := run[i], run[i + 1];
    RunKeeps(run, i);
    assert Linked(run, i);
    assert RiderInv(s, s.riders[k]);
    if Control(s, t) && s.pc.Doors? {
      var outs, ins :| DoorCycle(s, t, outs, ins);
      DoorCycleEffect(s, t, outs, ins);
      assert ThroughDoors(s, t, k);
    }
  }

  // Everybody who can get in or out does so in a door cycle.
  lemma DoorsServeAll(run: seq<State>, i: nat, k: nat)
    requires IsRun(run) && i + 1 < |run| && |run[i + 1].riders| == |run[i].riders| && run[i].pc.Doors?
    requires k < |run[i].riders|
    ensures var s, r, q := run[i], run[i].riders[k], run[i + 1].riders[k];
            && (r.phase == Aboard && r.dst == s.currentFloor ==> q.phase == Done)
            && (r.phase == Waiting && r.src == s.currentFloor && (s.dir == Up <==> r.src < r.dst) ==>
                  q.phase != Waiting)
            && run[i + 1].pc == (if s.pc.turning then Turned else Depart) && run[i + 1].dir == s.dir
  {
    ControlStep(run, i);
    var s, t := run[i], run[i + 1];
    assert RiderInv(s, s.riders[k]);
    var outs, ins :| DoorCycle(s, t, outs, ins);
    DoorCycleEffect(s, t, outs, ins);
    assert ThroughDoors(s, t, k);
  }

  // A newcomer waits, the others are as before, and a sleeping car is woken.
  lemma Newcomer(run: seq<State>, i: nat)
    requires IsRun(run) && i + 1 < |run| && |run[i + 1].riders| != |run[i].riders|
    ensures var s, t := run[i], run[i + 1];
            && |t.riders| == |s.riders| + 1 && t.riders[..|s.riders|] == s.riders
            && t.riders[|s.riders|].phase == Waiting
            && t.pc == (if s.pc == Asleep then Woken else s.pc)
            && t.dir == s.dir && t.currentFloor == s.currentFloor && t.noRequest == s.noRequest
            && t.occupancy == s.occupancy
  {
    RunKeeps(run, i);
    assert Linked(run, i);
    var s, t := run[i], run[i + 1];
    if Control(s, t) { ControlKeepsNumber(s, t); }
  }

  lemma ControlKeepsNumber(s: State, t: State)
    requires Inv(s) && Control(s, t)
    ensures |t.riders| == |s.riders|
  {
    if s.pc.Doors? {
      var outs, ins :| DoorCycle(s, t, outs, ins);
      DoorCycleEffect(s, t, outs, ins);
    }
  }
}
