/** The control thread of one bounded elevator, with its fields, loops and barriers' waiter counts.

    The rider threads run while the control thread is inside a call that blocks: their actions are the loops in
    OpenDoors and VisitFloor and the calls to RidersArrive.  The ghost trace records every action as a step of the
    transition system in module OneCar, so that its theorems hold of every state the code goes through. */
module ElevatorCode {
  import opened Common
  import opened Sums
  import opened Travel
  import opened OneCar
  import opened OneCarSafety
  import opened OneCarDelivery

  function CallWeight(d: Direction, f: int): Rider -> nat {
    r => if Calling(r, d, f) then 1 else 0
  }

  function ExitWeight(f: int): Rider -> nat {
    r => if GettingOut(r, f) then 1 else 0
  }

  lemma CallsCounted(riders: seq<Rider>, d: Direction, f: int)
    ensures Calls(riders, d, f) <==> Tally(riders, CallWeight(d, f)) != 0
  {
    if Calls(riders, d, f) {
      var i: nat :| i < |riders| && Calling(riders[i], d, f);
      TallyAtLeast(riders, CallWeight(d, f), i);
    } else if Tally(riders, CallWeight(d, f)) > 0 {
      var i := TallyPositive(riders, CallWeight(d, f));
    }
  }

  lemma ExitsCounted(riders: seq<Rider>, f: int)
    ensures Exits(riders, f) <==> Tally(riders, ExitWeight(f)) != 0
  {
    if Exits(riders, f) {
      var i: nat :| i < |riders| && GettingOut(riders[i], f);
      TallyAtLeast(riders, ExitWeight(f), i);
    } else if Tally(riders, ExitWeight(f)) > 0 {
      var i := TallyPositive(riders, ExitWeight(f));
    }
  }

  lemma Recount(riders: seq<Rider>, i: nat, r: Rider)
    requires i < |riders|
    ensures forall d, f :: Tally(riders[i := r], CallWeight(d, f)) ==
                           Tally(riders, CallWeight(d, f)) - CallWeight(d, f)(riders[i]) + CallWeight(d, f)(r)
    ensures forall f :: Tally(riders[i := r], ExitWeight(f)) ==
                        Tally(riders, ExitWeight(f)) - ExitWeight(f)(riders[i]) + ExitWeight(f)(r)
  {
    forall d, f {
      TallyUpdate(riders, CallWeight(d, f), i, r);
    }
    forall f {
      TallyUpdate(riders, ExitWeight(f), i, r);
    }
  }

  // The rider at i answers the hall barrier of its floor.
  lemma CountAnswered(riders: seq<Rider>, i: nat, r: Rider, d: Direction, floor: int)
    requires i < |riders| && Calling(riders[i], d, floor) && r == riders[i].(phase := r.phase) && r.phase != Waiting
    ensures forall f :: Tally(riders[i := r], CallWeight(Up, f)) ==
                        Tally(riders, CallWeight(Up, f)) - (if d == Up && f == floor then 1 else 0)
    ensures forall f :: Tally(riders[i := r], CallWeight(Down, f)) ==
                        Tally(riders, CallWeight(Down, f)) - (if d == Down && f == floor then 1 else 0)
    ensures forall f :: Tally(riders[i := r], ExitWeight(f)) ==
                        Tally(riders, ExitWeight(f)) + (if r.phase == Aboard && f == r.dst then 1 else 0)
  {
    Recount(riders, i, r);
  }

  // A rider joins those waiting at a hall barrier.
  lemma CountNew(riders: seq<Rider>, more: seq<Rider>, src: int, dst: int)
    requires src != dst && more == riders + [Rider(src, dst, Waiting)]
    ensures forall f :: Tally(more, CallWeight(Up, f)) ==
                        Tally(riders, CallWeight(Up, f)) + (if src < dst && f == src then 1 else 0)
    ensures forall f :: Tally(more, CallWeight(Down, f)) ==
                        Tally(riders, CallWeight(Down, f)) + (if src > dst && f == src then 1 else 0)
    ensures forall f :: Tally(more, ExitWeight(f)) == Tally(riders, ExitWeight(f))
  {
    assert more[..|riders|] == riders;
  }

  // The riders in outs, in that order, have stepped out at this floor and nobody else has changed.
  ghost predicate OutSoFar(was: seq<Rider>, now: seq<Rider>, outs: seq<nat>, floor: int) {
    && |now| == |was| && Indices(outs, |was|) && Distinct(outs)
    && (forall k | k in outs :: GettingOut(was[k], floor))
    && (forall i: nat | i < |was| :: now[i] == if i in outs then was[i].(phase := Done) else was[i])
  }

  lemma OneMoreOut(was: seq<Rider>, now: seq<Rider>, outs: seq<nat>, floor: int, i: nat)
    requires OutSoFar(was, now, outs, floor) && i < |now| && GettingOut(now[i], floor)
    ensures OutSoFar(was, now[i := now[i].(phase := Done)], outs + [i], floor)
  {
    assert i !in outs;
  }

  lemma AllOut(was: seq<Rider>, now: seq<Rider>, outs: seq<nat>, floor: int)
    requires OutSoFar(was, now, outs, floor) && !Exits(now, floor)
    ensures Lists(outs, set i: nat | i < |was| && GettingOut(was[i], floor))
  {
    forall i: nat | i < |was| && GettingOut(was[i], floor) ensures i in outs {
      assert !GettingOut(now[i], floor);
    }
  }

  // The riders in ins, in that order, have answered the hall barrier and nobody else has changed.
  ghost predicate InSoFar(was: seq<Rider>, now: seq<Rider>, ins: seq<nat>, d: Direction, floor: int) {
    && |now| == |was| && Indices(ins, |was|) && Distinct(ins)
    && (forall k | k in ins :: Calling(was[k], d, floor) && now[k].phase != Waiting)
    && (forall i: nat | i < |was| :: now[i] == if i in ins then was[i].(phase := now[i].phase) else was[i])
  }

  lemma OneMoreIn(was: seq<Rider>, now: seq<Rider>, ins: seq<nat>, d: Direction, floor: int, i: nat, phase: Phase)
    requires InSoFar(was, now, ins, d, floor) && i < |now| && Calling(now[i], d, floor) && phase != Waiting
    ensures InSoFar(was, now[i := now[i].(phase := phase)], ins + [i], d, floor)
  {
    assert i !in ins;
  }

  lemma AllIn(was: seq<Rider>, now: seq<Rider>, ins: seq<nat>, d: Direction, floor: int)
    requires InSoFar(was, now, ins, d, floor) && !Calls(now, d, floor)
    ensures Lists(ins, set i: nat | i < |was| && Calling(was[i], d, floor))
  {
    forall i: nat | i < |was| && Calling(was[i], d, floor) ensures i in ins {
      assert !Calling(now[i], d, floor);
    }
  }

  lemma RunExtends(run: seq<State>, t: State)
    requires IsRun(run) && Next(run[|run| - 1], t)
    ensures IsRun(run + [t])
  {
    var more := run + [t];
    forall i: nat | i + 1 < |more| ensures Linked(more, i) {
      if i + 1 < |run| { assert Linked(run, i); }
    }
  }

  function Flatten(batches: seq<seq<(int, int)>>): seq<(int, int)> {
    if batches == [] then [] else Flatten(batches[..|batches| - 1]) + batches[|batches| - 1]
  }

  class Elevator {
    const numFloors: int
    const capacity: int
    // The trips of the riders that show up while the control thread is between two of its actions.
    const arrivals: seq<seq<(int, int)>>
    const upWaiters: array<nat>
    const downWaiters: array<nat>
    const outWaiters: array<nat>

    var currentFloor: int
    var state: Direction
    var occupancy: int
    var noRequest: bool
    var riders: seq<Rider>
    var served: nat          // batches of arrivals so far
    var pc: Pc               // where the control thread is

    ghost var trace: seq<State>

    ghost function View(): State
      reads this
    {
      State(numFloors, capacity, currentFloor, state, noRequest, occupancy, pc, riders)
    }

    // Each hall barrier counts the riders that wait at it.
    ghost predicate HallsCounted()
      reads this, upWaiters, downWaiters
    {
      && upWaiters.Length == downWaiters.Length == outWaiters.Length == numFloors
      && upWaiters != downWaiters && upWaiters != outWaiters && downWaiters != outWaiters
      && (forall f | 0 <= f < numFloors :: upWaiters[f] == Tally(riders, CallWeight(Up, f)))
      && (forall f | 0 <= f < numFloors :: downWaiters[f] == Tally(riders, CallWeight(Down, f)))
    }

    // The car's own barriers count the riders that wait at them, but for one that is about to.
    ghost predicate OutsCounted(missing: int)
      reads this, outWaiters
    {
      && outWaiters.Length == numFloors
      && forall f | 0 <= f < numFloors ::
           outWaiters[f] + (if f == missing then 1 else 0) == Tally(riders, ExitWeight(f))
    }

    ghost predicate Counted()
      reads this, upWaiters, downWaiters, outWaiters
    {
      HallsCounted() && OutsCounted(-1)
    }

    ghost predicate Scripted()
      reads this
    {
      && served <= |arrivals|
      && (forall b, t | 0 <= b < |arrivals| && t in arrivals[b] :: ValidTrip(numFloors, t.0, t.1))
      && Trips(riders) == Flatten(arrivals[..served])
    }

    // The trace is a run of the transition system and ends in the present state.
    ghost predicate Running()
      reads this, upWaiters, downWaiters, outWaiters
    {
      Counted() && IsRun(trace) && trace[|trace| - 1] == View()
    }

    ghost predicate Valid()
      reads this, upWaiters, downWaiters, outWaiters
    {
      Running() && Scripted()
    }

    constructor (numFloors: int, capacity: int, arrivals: seq<seq<(int, int)>>)
      requires numFloors >= 2 && capacity >= 1
      requires forall b, t | 0 <= b < |arrivals| && t in arrivals[b] :: ValidTrip(numFloors, t.0, t.1)
      ensures Valid() && pc == Top
      ensures currentFloor == 0 && state == Stop && occupancy == 0 && !noRequest && riders == [] && served == 0
      ensures this.arrivals == arrivals && this.numFloors == numFloors && this.capacity == capacity
      ensures fresh(upWaiters) && fresh(downWaiters) && fresh(outWaiters)
    {
      this.numFloors, this.capacity, this.arrivals := numFloors, capacity, arrivals;
      upWaiters := new nat[numFloors](_ => 0);
      downWaiters := new nat[numFloors](_ => 0);
      outWaiters := new nat[numFloors](_ => 0);
      currentFloor, state, occupancy, noRequest := 0, Stop, 0, false;
      riders, served := [], 0;
      pc := Top;
      trace := [State(numFloors, capacity, 0, Stop, false, 0, Top, [])];
    }

    // The three directional searches over the barriers' waiter counts.
    method GetLastRequestFloor() returns (r: int)
      requires Counted() && 0 <= currentFloor < numFloors
      ensures r == LastRequestFloor(View())
    {
      r := -1;
      if state == Stop {
        var i := 0;
        while i < numFloors
          invariant 0 <= i <= numFloors
          invariant LastRequestFloor(View()) == Lowest(riders, i, numFloors - 1)
        {
          RequestsCounted(i);
          if upWaiters[i] != 0 || outWaiters[i] != 0 || downWaiters[i] != 0 { return i; }
          i := i + 1;
        }
      } else if state == Up {
        var i := numFloors - 1;
        while i >= currentFloor
          invariant currentFloor - 1 <= i < numFloors
          invariant LastRequestFloor(View()) == Highest(riders, currentFloor, i)
        {
          RequestsCounted(i);
          if downWaiters[i] != 0 || outWaiters[i] != 0 || upWaiters[i] != 0 { return i; }
          i := i - 1;
        }
      } else {
        var i := 0;
        while i <= currentFloor
          invariant 0 <= i <= currentFloor + 1
          invariant LastRequestFloor(View()) == Lowest(riders, i, currentFloor)
        {
          RequestsCounted(i);
          if downWaiters[i] != 0 || outWaiters[i] != 0 || upWaiters[i] != 0 { return i; }
          i := i + 1;
        }
      }
    }

    lemma RequestsCounted(f: int)
      requires Counted() && 0 <= f < numFloors
      ensures Calls(riders, Up, f) <==> upWaiters[f] != 0
      ensures Calls(riders, Down, f) <==> downWaiters[f] != 0
      ensures Exits(riders, f) <==> outWaiters[f] != 0
    {
      CallsCounted(riders, Up, f);
      CallsCounted(riders, Down, f);
      ExitsCounted(riders, f);
    }

    // A rider on board steps out.
    method Exit(i: nat)
      requires Counted() && 0 <= currentFloor < numFloors
      requires i < |riders| && GettingOut(riders[i], currentFloor)
      modifies this`occupancy, this`riders, outWaiters
      ensures Counted()
      ensures Cabin(riders, occupancy) == OneCar.Exit(old(Cabin(riders, occupancy)), i)
      ensures occupancy == old(occupancy) - 1 && riders == old(riders)[i := old(riders[i]).(phase := Done)]
      ensures outWaiters[currentFloor] + 1 == old(outWaiters[currentFloor])
    {
      TallyAtLeast(riders, ExitWeight(currentFloor), i);
      Recount(riders, i, riders[i].(phase := Done));
      occupancy := occupancy - 1;
      riders := riders[i := riders[i].(phase := Done)];
      outWaiters[currentFloor] := outWaiters[currentFloor] - 1;
    }

    // EventBarrier::Complete on the hall barrier the car serves.
    method CompleteHall()
      requires upWaiters.Length == downWaiters.Length == numFloors && upWaiters != downWaiters
      requires 0 <= currentFloor < numFloors
      requires state == Up ==> upWaiters[currentFloor] > 0
      requires state == Down ==> downWaiters[currentFloor] > 0
      modifies upWaiters, downWaiters
      ensures forall f | 0 <= f < numFloors ::
                upWaiters[f] + (if state == Up && f == currentFloor then 1 else 0) == old(upWaiters[f])
      ensures forall f | 0 <= f < numFloors ::
                downWaiters[f] + (if state == Down && f == currentFloor then 1 else 0) == old(downWaiters[f])
    {
      if state == Up {
        upWaiters[currentFloor] := upWaiters[currentFloor] - 1;
      } else if state == Down {
        downWaiters[currentFloor] := downWaiters[currentFloor] - 1;
      }
    }

    // A rider released from the hall barrier tries to get in.
    method Enter(i: nat) returns (entered: bool)
      requires Counted() && 0 <= currentFloor < numFloors
      requires i < |riders| && Calling(riders[i], state, currentFloor)
      modifies this`occupancy, this`riders, upWaiters, downWaiters
      ensures HallsCounted() && OutsCounted(if entered then old(riders[i].dst) else -1)
      ensures Cabin(riders, occupancy) == OneCar.Enter(old(Cabin(riders, occupancy)), capacity, i)
      ensures entered <==> old(occupancy) < capacity
      ensures occupancy == old(occupancy) + if entered then 1 else 0
      ensures riders == old(riders)[i := old(riders[i]).(phase := if entered then Aboard else TurnedAway)]
      ensures state == Up ==> upWaiters[currentFloor] + 1 == old(upWaiters[currentFloor])
      ensures state == Down ==> downWaiters[currentFloor] + 1 == old(downWaiters[currentFloor])
    {
      TallyAtLeast(riders, CallWeight(state, currentFloor), i);
      occupancy := occupancy + 1;
      if occupancy > capacity {
        occupancy := occupancy - 1;
        CompleteHall();
        CountAnswered(riders, i, riders[i].(phase := TurnedAway), state, currentFloor);
        riders := riders[i := riders[i].(phase := TurnedAway)];
        return false;
      }
      CompleteHall();
      CountAnswered(riders, i, riders[i].(phase := Aboard), state, currentFloor);
      riders := riders[i := riders[i].(phase := Aboard)];
      return true;
    }

    method RequestFloor(floor: int)
      requires HallsCounted() && OutsCounted(floor) && 0 <= floor < numFloors
      modifies outWaiters
      ensures Counted()
    {
      outWaiters[floor] := outWaiters[floor] + 1;
    }

    // EventBarrier::Signal on this floor's barrier inside the car: returns when nobody waits for this floor.
    method LetOut() returns (ghost outs: seq<nat>)
      requires Counted() && 0 <= currentFloor < numFloors
      modifies this`occupancy, this`riders, outWaiters
      ensures Counted()
      ensures Indices(outs, |old(riders)|) && Lists(outs, old(Leavers(View())))
      ensures Cabin(riders, occupancy) == ExitAll(old(Cabin(riders, occupancy)), outs)
      ensures |riders| == |old(riders)|
      ensures forall i: nat | i < |riders| ::
                riders[i] == if i in outs then old(riders[i]).(phase := Done) else old(riders[i])
    {
      outs := [];
      while outWaiters[currentFloor] != 0
        invariant Counted() && OutSoFar(old(riders), riders, outs, currentFloor)
        invariant Cabin(riders, occupancy) == ExitAll(old(Cabin(riders, occupancy)), outs)
        decreases outWaiters[currentFloor]
      {
        ExitsCounted(riders, currentFloor);
        var i: nat :| i < |riders| && GettingOut(riders[i], currentFloor);
        OneMoreOut(old(riders), riders, outs, currentFloor, i);
        assert (outs + [i])[..|outs|] == outs;
        Exit(i);
        outs := outs + [i];
      }
      ExitsCounted(riders, currentFloor);
      AllOut(old(riders), riders, outs, currentFloor);
    }

    // EventBarrier::Signal on a hall barrier: returns when every rider released from it has responded.
    method LetIn() returns (ghost ins: seq<nat>)
      requires Counted() && 0 <= currentFloor < numFloors && state != Stop
      requires forall i | 0 <= i < |riders| :: ValidTrip(numFloors, riders[i].src, riders[i].dst)
      modifies this`occupancy, this`riders, upWaiters, downWaiters, outWaiters
      ensures Counted()
      ensures Indices(ins, |old(riders)|) && Lists(ins, old(Callers(View())))
      ensures Cabin(riders, occupancy) == EnterAll(old(Cabin(riders, occupancy)), capacity, ins)
    {
      ins := [];
      while (if state == Up then upWaiters[currentFloor] else downWaiters[currentFloor]) != 0
        invariant Counted() && InSoFar(old(riders), riders, ins, state, currentFloor)
        invariant Cabin(riders, occupancy) == EnterAll(old(Cabin(riders, occupancy)), capacity, ins)
        decreases if state == Up then upWaiters[currentFloor] else downWaiters[currentFloor]
      {
        CallsCounted(riders, state, currentFloor);
        var i: nat :| i < |riders| && Calling(riders[i], state, currentFloor);
        OneMoreIn(old(riders), riders, ins, state, currentFloor, i,
                  if occupancy < capacity then Aboard else TurnedAway);
        assert (ins + [i])[..|ins|] == ins;
        assert riders[i].dst == old(riders)[i].dst;
        var entered := Enter(i);
        if entered {
          RequestFloor(riders[i].dst);
        }
        ins := ins + [i];
      }
      CallsCounted(riders, state, currentFloor);
      AllIn(old(riders), riders, ins, state, currentFloor);
    }

    // The assignments since the last recorded state are one step.
    ghost method Record()
      requires Counted() && IsRun(trace) && Next(trace[|trace| - 1], View())
      modifies this`trace
      ensures Running() && trace == old(trace) + [View()]
    {
      RunExtends(trace, View());
      trace := trace + [View()];
    }

    lemma Reachable()
      requires Running()
      ensures Inv(View())
    {
      RunKeeps(trace, |trace| - 1);
    }

    lemma InShaft()
      requires Running()
      ensures 0 <= currentFloor < numFloors
    {
      Reachable();
    }

    method OpenHall() returns (ghost ins: seq<nat>)
      requires Counted() && 0 <= currentFloor < numFloors && state != Stop
      requires forall i | 0 <= i < |riders| :: ValidTrip(numFloors, riders[i].src, riders[i].dst)
      modifies this`occupancy, this`riders, upWaiters, downWaiters, outWaiters
      ensures Counted()
      ensures Indices(ins, |old(riders)|) && Lists(ins, old(Callers(View())))
      ensures Cabin(riders, occupancy) == EnterAll(old(Cabin(riders, occupancy)), capacity, ins)
    {
      ins := [];
      RequestsCounted(currentFloor);
      if state == Up {
        if upWaiters[currentFloor] != 0 {
          ins := LetIn();
        }
      } else if state == Down {
        if downWaiters[currentFloor] != 0 {
          ins := LetIn();
        }
      }
    }

    // Let riders out, then let riders in.
    method OpenDoors() returns (ghost outs: seq<nat>, ghost ins: seq<nat>)
      requires Counted() && 0 <= currentFloor < numFloors && pc.Doors? && state != Stop
      requires forall i | 0 <= i < |riders| :: ValidTrip(numFloors, riders[i].src, riders[i].dst)
      modifies this`occupancy, this`riders, this`pc, upWaiters, downWaiters, outWaiters
      ensures Counted()
      ensures DoorCycle(old(View()), View(), outs, ins)
    {
      outs := [];
      ghost var callers := Callers(View());
      RequestsCounted(currentFloor);
      if outWaiters[currentFloor] != 0 {
        outs := LetOut();
      }
      assert Callers(View()) == callers;
      ins := OpenHall();
      pc := if pc.turning then Turned else Depart;
    }

    method OpenAndCloseDoors()
      requires Valid() && pc.Doors?
      modifies this`occupancy, this`riders, this`pc, this`trace, upWaiters, downWaiters, outWaiters
      ensures Valid() && pc == (if old(pc.turning) then Turned else Depart) && old(trace) < trace
    {
      ghost var s := View();
      Reachable();
      ValidTrips(s);
      ghost var outs, ins := OpenDoors();
      DoorsAreAStep(s, View(), outs, ins);
      Record();
    }

    // A rider woken from ElevatorNotFull calls again and waits at the barrier of its floor.
    method CallAgain(i: nat)
      requires Counted() && i < |riders| && riders[i].phase == TurnedAway
      requires ValidTrip(numFloors, riders[i].src, riders[i].dst)
      modifies this`riders, upWaiters, downWaiters
      ensures Counted() && riders == old(riders)[i := old(riders[i]).(phase := Waiting)]
    {
      var r := riders[i];
      Recount(riders, i, r.(phase := Waiting));
      if r.src < r.dst {
        upWaiters[r.src] := upWaiters[r.src] + 1;
      } else {
        downWaiters[r.src] := downWaiters[r.src] + 1;
      }
      riders := riders[i := r.(phase := Waiting)];
    }

    // ElevatorNotFull::Broadcast.
    method RecallTurnedAway()
      requires Counted()
      requires forall i | 0 <= i < |riders| :: ValidTrip(numFloors, riders[i].src, riders[i].dst)
      modifies this`riders, upWaiters, downWaiters
      ensures Counted()
      ensures |riders| == |old(riders)| && forall i | 0 <= i < |riders| :: riders[i] == Rewait(old(riders[i]))
      ensures forall i | 0 <= i < |riders| && old(riders)[i].phase == TurnedAway ::
                riders[i] == old(riders)[i].(phase := Waiting)
      ensures forall i | 0 <= i < |riders| && old(riders)[i].phase != TurnedAway :: riders[i] == old(riders)[i]
    {
      var i := 0;
      while i < |riders|
        invariant Counted() && i <= |riders| == |old(riders)|
        invariant forall j | 0 <= j < |riders| :: riders[j] == if j < i then Rewait(old(riders[j])) else old(riders[j])
      {
        if riders[i].phase == TurnedAway {
          CallAgain(i);
        }
        i := i + 1;
      }
    }

    method VisitFloor(floor: int)
      requires Valid() && pc == Depart && floor == currentFloor + Delta(state)
      modifies this`riders, this`currentFloor, this`pc, this`trace, upWaiters, downWaiters
      ensures Valid() && pc == Top && currentFloor == floor && old(trace) < trace
    {
      ghost var s := View();
      Reachable();
      ValidTrips(s);
      RecallTurnedAway();
      currentFloor := floor;
      pc := Top;
      assert View() == Visit(s);
      assert Trips(riders) == Trips(s.riders);
      assert Control(s, View());
      Record();
    }

    // A new rider is counted at the hall barrier of its floor.
    method Wait(src: int, dst: int)
      requires Counted() && ValidTrip(numFloors, src, dst)
      modifies this`riders, upWaiters, downWaiters
      ensures Counted() && riders == old(riders) + [Rider(src, dst, Waiting)]
    {
      ghost var more := riders + [Rider(src, dst, Waiting)];
      CountNew(riders, more, src, dst);
      if src < dst {
        upWaiters[src] := upWaiters[src] + 1;
      } else {
        downWaiters[src] := downWaiters[src] + 1;
      }
      riders := riders + [Rider(src, dst, Waiting)];
    }

    // A rider thread calls the elevator and waits at its hall barrier.
    method Call(src: int, dst: int)
      requires Running() && ValidTrip(numFloors, src, dst)
      modifies this`riders, this`pc, this`trace, upWaiters, downWaiters
      ensures Running() && old(trace) < trace
      ensures pc == if old(pc) == Asleep then Woken else old(pc)
      ensures riders == old(riders) + [Rider(src, dst, Waiting)]
      ensures Trips(riders) == old(Trips(riders)) + [(src, dst)]
    {
      ghost var s := View();
      Wait(src, dst);
      pc := if pc == Asleep then Woken else pc;
      assert View() == Arrive(s, src, dst);
      assert Arrival(s, View());
      Record();
    }

    // The riders of the next batch show up, if there is another batch.
    method RidersArrive()
      requires Valid()
      modifies this`riders, this`pc, this`trace, this`served, upWaiters, downWaiters
      ensures Valid() && old(trace) <= trace
      ensures pc == old(pc) || (old(pc) == Asleep && pc == Woken)
      ensures served == if old(served) < |arrivals| then old(served) + 1 else old(served)
      ensures old(riders) <= riders
      ensures |riders| == |old(riders)| + if old(served) < |arrivals| then |arrivals[old(served)]| else 0
      ensures forall j | |old(riders)| <= j < |riders| ::
                var trip := arrivals[old(served)][j - |old(riders)|]; riders[j] == Rider(trip.0, trip.1, Waiting)
    {
      if served < |arrivals| {
        var batch := arrivals[served];
        var j := 0;
        assert batch[..0] == [];
        while j < |batch|
          invariant j <= |batch| && Running() && old(trace) <= trace && served == old(served)
          invariant pc == old(pc) || (old(pc) == Asleep && pc == Woken)
          invariant Trips(riders) == Flatten(arrivals[..served]) + batch[..j]
          invariant old(riders) <= riders && |riders| == |old(riders)| + j
          invariant forall k | |old(riders)| <= k < |riders| ::
                      var trip := batch[k - |old(riders)|]; riders[k] == Rider(trip.0, trip.1, Waiting)
        {
          assert batch[..j + 1] == batch[..j] + [batch[j]];
          assert batch[j] in arrivals[served];
          Call(batch[j].0, batch[j].1);
          j := j + 1;
        }
        assert batch[..j] == batch;
        assert arrivals[..served + 1][..served] == arrivals[..served];
        served := served + 1;
      }
    }

    // No run of the control thread and of all the riders in the script is longer.
    ghost function Limit(): int {
      ActionLimit(numFloors, |Flatten(arrivals)|)
    }

    lemma Limited()
      requires Valid()
      ensures |trace| <= Limit()
    {
      FlattenPrefix(arrivals, served);
      RunIsLimited(trace, |Flatten(arrivals)|);
    }

    // The doors open and close while riders show up.
    method CycleDoors()
      requires Valid() && pc.Doors?
      modifies this, upWaiters, downWaiters, outWaiters
      ensures Valid() && pc == (if old(pc.turning) then Turned else Depart) && state == old(state)
      ensures currentFloor == old(currentFloor) && old(trace) < trace
    {
      RidersArrive();
      OpenAndCloseDoors();
      RidersArrive();
    }

    // Open the doors, if anybody here wants that, and go one floor up.
    method PassFloorUp()
      requires Valid() && pc == Top && state == Up
      requires LastRequestFloor(View()) != currentFloor && LastRequestFloor(View()) != -1
      modifies this, upWaiters, downWaiters, outWaiters
      ensures Valid() && pc == Top && state == Up && old(trace) < trace
      ensures currentFloor == old(currentFloor) + 1
    {
      LookAroundGoingUp();
      if pc == Doors(false) {
        CycleDoors();
      } else {
        RidersArrive();
      }
      VisitFloor(currentFloor + 1);
    }

    method LookAroundGoingUp()
      requires Valid() && pc == Top && state == Up
      requires LastRequestFloor(View()) != currentFloor && LastRequestFloor(View()) != -1
      modifies this
      ensures Valid() && state == Up && 0 <= currentFloor < numFloors && old(trace) < trace
      ensures !noRequest && riders == old(riders) && currentFloor == old(currentFloor)
      ensures pc == if upWaiters[currentFloor] != 0 || outWaiters[currentFloor] != 0 then Doors(false) else Depart
    {
      InShaft();
      RequestsCounted(currentFloor);
      noRequest := false;
      pc := if upWaiters[currentFloor] != 0 || outWaiters[currentFloor] != 0 then Doors(false) else Depart;
      Record();
    }

    // At the last requested floor: turn around, or take in the riders that still go up from here.
    method LastFloorUp()
      requires Valid() && pc == Top && state == Up && LastRequestFloor(View()) == currentFloor
      modifies this, upWaiters, downWaiters, outWaiters
      ensures Valid() && pc == Top && old(trace) < trace
    {
      TurnOrStayUp();
      CycleDoors();
      if pc == Turned {
        TurnedDown();
      } else {
        VisitFloor(currentFloor + 1);
      }
    }

    method TurnOrStayUp()
      requires Valid() && pc == Top && state == Up && LastRequestFloor(View()) == currentFloor
      modifies this
      ensures Valid() && pc == Doors(state == Down) && 0 <= currentFloor < numFloors && old(trace) < trace
      ensures noRequest == old(noRequest) && riders == old(riders) && currentFloor == old(currentFloor)
      ensures state == if upWaiters[currentFloor] == 0 then Down else Up
    {
      InShaft();
      RequestsCounted(currentFloor);
      if upWaiters[currentFloor] == 0 {
        state := Down;
      }
      pc := Doors(state == Down);
      Record();
    }

    // The car has turned around to go down.
    method TurnedDown()
      requires Valid() && pc == Turned && state == Down
      modifies this, upWaiters, downWaiters, outWaiters
      ensures Valid() && pc == Top && old(trace) < trace
      ensures if exists g | 0 <= g <= old(currentFloor) :: Pending(old(riders), g)
              then state == Down && currentFloor == old(currentFloor) - 1
              else state == Stop && currentFloor == old(currentFloor)
    {
      InShaft();
      var destFloor := GetLastRequestFloor();
      if destFloor == -1 {
        state := Stop;
        pc := Top;
        Record();
      } else {
        pc := Depart;
        Record();
        VisitFloor(currentFloor - 1);
      }
    }

    // The branch for a car going up.
    method ControlUp(dest: int)
      requires Valid() && pc == Top && state == Up && dest == LastRequestFloor(View())
      modifies this, upWaiters, downWaiters, outWaiters
      ensures Valid() && pc == Top && old(trace) < trace
    {
      var destFloor := dest;
      while currentFloor != destFloor && destFloor != -1
        invariant Valid() && pc == Top && state == Up && destFloor == LastRequestFloor(View())
        invariant old(trace) <= trace
        decreases Limit() - |trace|
      {
        PassFloorUp();
        Limited();
        RidersArrive();
        InShaft();
        destFloor := GetLastRequestFloor();
      }
      if destFloor == -1 {
        NobodyAbove();
      } else {
        LastFloorUp();
      }
    }

    // Nobody wants the car this way: turn around once, then stop.
    method NobodyAbove()
      requires Valid() && pc == Top && state == Up && LastRequestFloor(View()) == -1
      modifies this
      ensures Valid() && old(trace) < trace && pc == Top && noRequest
      ensures state == if old(noRequest) then Stop else Down
      ensures riders == old(riders) && currentFloor == old(currentFloor)
    {
      if noRequest {
        state := Stop;
      } else {
        state := Down;
        noRequest := true;
      }
      Record();
    }

    // Open the doors, if anybody here wants that, and go one floor down.
    method PassFloorDown()
      requires Valid() && pc == Top && state == Down
      requires LastRequestFloor(View()) != currentFloor && LastRequestFloor(View()) != -1
      modifies this, upWaiters, downWaiters, outWaiters
      ensures Valid() && pc == Top && state == Down && old(trace) < trace
      ensures currentFloor == old(currentFloor) - 1
    {
      LookAroundGoingDown();
      if pc == Doors(false) {
        CycleDoors();
      } else {
        RidersArrive();
      }
      VisitFloor(currentFloor - 1);
    }

    method LookAroundGoingDown()
      requires Valid() && pc == Top && state == Down
      requires LastRequestFloor(View()) != currentFloor && LastRequestFloor(View()) != -1
      modifies this
      ensures Valid() && state == Down && 0 <= currentFloor < numFloors && old(trace) < trace
      ensures !noRequest && riders == old(riders) && currentFloor == old(currentFloor)
      ensures pc == if downWaiters[currentFloor] != 0 || outWaiters[currentFloor] != 0 then Doors(false) else Depart
    {
      InShaft();
      RequestsCounted(currentFloor);
      noRequest := false;
      pc := if downWaiters[currentFloor] != 0 || outWaiters[currentFloor] != 0 then Doors(false) else Depart;
      Record();
    }

    // At the last requested floor: turn around, or take in the riders that still go down from here.
    method LastFloorDown()
      requires Valid() && pc == Top && state == Down && LastRequestFloor(View()) == currentFloor
      modifies this, upWaiters, downWaiters, outWaiters
      ensures Valid() && pc == Top && old(trace) < trace
    {
      TurnOrStayDown();
      CycleDoors();
      if pc == Turned {
        TurnedUp();
      } else {
        VisitFloor(currentFloor - 1);
      }
    }

    method TurnOrStayDown()
      requires Valid() && pc == Top && state == Down && LastRequestFloor(View()) == currentFloor
      modifies this
      ensures Valid() && pc == Doors(state == Up) && 0 <= currentFloor < numFloors && old(trace) < trace
      ensures noRequest == old(noRequest) && riders == old(riders) && currentFloor == old(currentFloor)
      ensures state == if downWaiters[currentFloor] == 0 then Up else Down
    {
      InShaft();
      RequestsCounted(currentFloor);
      if downWaiters[currentFloor] == 0 {
        state := Up;
      }
      pc := Doors(state == Up);
      Record();
    }

    // The car has turned around to go up.
    method TurnedUp()
      requires Valid() && pc == Turned && state == Up
      modifies this, upWaiters, downWaiters, outWaiters
      ensures Valid() && pc == Top && old(trace) < trace
      ensures if exists g | old(currentFloor) <= g < numFloors :: Pending(old(riders), g)
              then state == Up && currentFloor == old(currentFloor) + 1
              else state == Stop && currentFloor == old(currentFloor)
    {
      InShaft();
      var destFloor := GetLastRequestFloor();
      if destFloor == -1 {
        state := Stop;
        pc := Top;
        Record();
      } else {
        pc := Depart;
        Record();
        VisitFloor(currentFloor + 1);
      }
    }

    // The branch for a car going down.
    method ControlDown(dest: int)
      requires Valid() && pc == Top && state == Down && dest == LastRequestFloor(View())
      modifies this, upWaiters, downWaiters, outWaiters
      ensures Valid() && pc == Top && old(trace) < trace
    {
      var destFloor := dest;
      while currentFloor != destFloor && destFloor != -1
        invariant Valid() && pc == Top && state == Down && destFloor == LastRequestFloor(View())
        invariant old(trace) <= trace
        decreases Limit() - |trace|
      {
        PassFloorDown();
        Limited();
        RidersArrive();
        InShaft();
        destFloor := GetLastRequestFloor();
      }
      if destFloor == -1 {
        NobodyBelow();
      } else {
        LastFloorDown();
      }
    }

    // Nobody wants the car this way: turn around once, then stop.
    method NobodyBelow()
      requires Valid() && pc == Top && state == Down && LastRequestFloor(View()) == -1
      modifies this
      ensures Valid() && old(trace) < trace && pc == Top && noRequest
      ensures state == if old(noRequest) then Stop else Up
      ensures riders == old(riders) && currentFloor == old(currentFloor)
    {
      if noRequest {
        state := Stop;
      } else {
        state := Up;
        noRequest := true;
      }
      Record();
    }

    // The branch for a car that stands still: sleep until somebody calls, then choose a direction.
    method ControlStop(dest: int)
      requires Valid() && pc == Top && state == Stop && dest == LastRequestFloor(View())
      modifies this, upWaiters, downWaiters, outWaiters
      ensures Valid() && old(trace) < trace
      ensures pc == Top || (pc == Asleep && served == |arrivals|)
    {
      if dest == -1 {
        SleepUntilCalled();
        if pc == Asleep { return; }
      }
      ChooseDirection();
    }

    // HaveRequest::Wait.
    method SleepUntilCalled()
      requires Valid() && pc == Top && state == Stop && LastRequestFloor(View()) == -1
      modifies this, upWaiters, downWaiters, outWaiters
      ensures Valid() && old(trace) < trace && state == Stop
      ensures pc == Woken || (pc == Asleep && served == |arrivals|)
    {
      pc := Asleep;
      Record();
      while pc == Asleep && served < |arrivals|
        invariant Valid() && old(trace) < trace && (pc == Asleep || pc == Woken) && state == Stop
        decreases |arrivals| - served
      {
        RidersArrive();
      }
    }

    lemma SomebodyCalls()
      requires Valid() && state == Stop
      requires pc == Woken || (pc == Top && LastRequestFloor(View()) != -1)
      ensures LastRequestFloor(View()) != -1
    {
      Reachable();
      if pc == Woken { WokenKeeps(View()); }
    }

    // Look again and leave STOP.
    method ChooseDirection()
      requires Valid() && state == Stop
      requires pc == Woken || (pc == Top && LastRequestFloor(View()) != -1)
      modifies this
      ensures Valid() && old(trace) < trace && pc == Top
      ensures riders == old(riders) && currentFloor == old(currentFloor) && state != Stop
      ensures state == Down <==> exists g | 0 <= g <= currentFloor :: Pending(riders, g)
    {
      InShaft();
      SomebodyCalls();
      var destFloor := GetLastRequestFloor();
      if destFloor > currentFloor {
        state := Up;
      } else {
        state := Down;
      }
      pc := Top;
      Record();
    }

    // The control thread, until it sleeps and no rider is left to come.  Every scripted rider has then been delivered.
    method ElevatorControl()
      requires Valid() && pc == Top
      modifies this, upWaiters, downWaiters, outWaiters
      ensures Valid() && pc == Asleep
      ensures |riders| == Tally(arrivals, BatchSize)
      ensures forall b | 0 <= b < |arrivals| :: TripsOf(riders, Tally(arrivals[..b], BatchSize), arrivals[b])
      ensures forall i | 0 <= i < |riders| :: riders[i].phase == Done
      ensures old(trace) <= trace && |trace| <= Limit()
    {
      while pc == Top
        invariant Valid() && old(trace) <= trace
        invariant pc == Top || (pc == Asleep && served == |arrivals|)
        decreases Limit() - |trace|
      {
        Limited();
        RidersArrive();
        InShaft();
        var destFloor := GetLastRequestFloor();
        if state == Stop {
          ControlStop(destFloor);
        } else if state == Up {
          ControlUp(destFloor);
        } else {
          ControlDown(destFloor);
        }
        Limited();
      }
      Reachable();
      Limited();
      assert arrivals[..served] == arrivals;
      EveryBatchShowedUp(arrivals, riders);
    }
  }

  // The riders from here on are those of a batch, in its order.
  predicate TripsOf(riders: seq<Rider>, from: nat, batch: seq<(int, int)>) {
    && from + |batch| <= |riders|
    && forall i | from <= i < from + |batch| ::
         riders[i].src == batch[i - from].0 && riders[i].dst == batch[i - from].1
  }

  function BatchSize(batch: seq<(int, int)>): nat {
    |batch|
  }

  // The riders of each batch stand behind those of all earlier batches, and there are no others.
  lemma {:induction false} EveryBatchShowedUp(batches: seq<seq<(int, int)>>, riders: seq<Rider>)
    requires Trips(riders) == Flatten(batches)
    ensures |riders| == Tally(batches, BatchSize)
    ensures forall b | 0 <= b < |batches| :: TripsOf(riders, Tally(batches[..b], BatchSize), batches[b])
  {
    assert |Trips(riders)| == |riders|;
    if batches != [] {
      var n := |batches| - 1;
      var front, last := batches[..n], batches[n];
      var m := |riders| - |last|;
      assert Trips(riders) == Flatten(front) + last;
      assert Trips(riders[..m]) == Trips(riders)[..m] == Flatten(front);
      EveryBatchShowedUp(front, riders[..m]);
      LastBatchShowedUp(riders, m, Flatten(front), last);
      forall b | 0 <= b < |batches| ensures TripsOf(riders, Tally(batches[..b], BatchSize), batches[b]) {
        if b < n {
          assert front[..b] == batches[..b] && front[b] == batches[b];
          MoreRiders(riders, m, Tally(batches[..b], BatchSize), batches[b]);
        }
      }
    }
  }

  lemma LastBatchShowedUp(riders: seq<Rider>, m: nat, before: seq<(int, int)>, last: seq<(int, int)>)
    requires Trips(riders) == before + last && m == |before|
    ensures TripsOf(riders, m, last)
  {
    assert |Trips(riders)| == |riders|;
    forall i | m <= i < m + |last| ensures (riders[i].src, riders[i].dst) == last[i - m] {
      assert Trips(riders)[i] == (riders[i].src, riders[i].dst);
    }
  }

  lemma MoreRiders(riders: seq<Rider>, m: nat, from: nat, batch: seq<(int, int)>)
    requires m <= |riders| && TripsOf(riders[..m], from, batch)
    ensures TripsOf(riders, from, batch)
  {
    forall i | from <= i < from + |batch|
      ensures riders[i].src == batch[i - from].0 && riders[i].dst == batch[i - from].1
    {
      assert riders[..m][i] == riders[i];
    }
  }

  function ActionLimit(numFloors: int, total: nat): int {
    2 + total + total * (9 * numFloors + 15)
  }

  lemma {:induction false} FlattenPrefix(batches: seq<seq<(int, int)>>, k: nat)
    requires k <= |batches|
    ensures |Flatten(batches[..k])| <= |Flatten(batches)|
  {
    if k < |batches| {
      FlattenPrefix(batches[..|batches| - 1], k);
      assert batches[..|batches| - 1][..k] == batches[..k];
    } else {
      assert batches[..k] == batches;
    }
  }

  lemma RunIsLimited(run: seq<State>, total: nat)
    requires IsRun(run) && |run[|run| - 1].riders| <= total
    ensures |run| <= ActionLimit(run[|run| - 1].numFloors, total)
  {
    var last := run[|run| - 1];
    RunKeeps(run, |run| - 1);
    ControlActionsPerRider(run);
    var price := 9 * last.numFloors + 15;
    WorthIsProduct(|last.riders|, price);
    WorthIsProduct(total, price);
    if |last.riders| < total { WorthGrows(|last.riders|, total, price); }
  }

  lemma DoorsAreAStep(s: State, t: State, outs: seq<nat>, ins: seq<nat>)
    requires Inv(s) && DoorCycle(s, t, outs, ins)
    ensures Next(s, t) && Trips(t.riders) == Trips(s.riders)
  {
    assert Control(s, t);
    DoorCycleEffect(s, t, outs, ins);
    SameTrips(s, t);
  }

  lemma ValidTrips(s: State)
    requires Inv(s)
    ensures forall i | 0 <= i < |s.riders| :: ValidTrip(s.numFloors, s.riders[i].src, s.riders[i].dst)
  {
    forall i | 0 <= i < |s.riders| ensures ValidTrip(s.numFloors, s.riders[i].src, s.riders[i].dst) {
      assert RiderInv(s, s.riders[i]);
    }
  }

  lemma SameTrips(s: State, t: State)
    requires |s.riders| == |t.riders|
    requires forall i: nat | i < |s.riders| :: ThroughDoors(s, t, i)
    ensures Trips(s.riders) == Trips(t.riders)
  {
    forall i: nat | i < |s.riders| ensures Trips(s.riders)[i] == Trips(t.riders)[i] {
      assert ThroughDoors(s, t, i);
    }
  }

  function Trips(riders: seq<Rider>): seq<(int, int)> {
    seq(|riders|, i requires 0 <= i < |riders| => (riders[i].src, riders[i].dst))
  }
}
