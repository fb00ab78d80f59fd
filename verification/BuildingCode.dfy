/** The loops by which a building with several elevators calls one and chooses one. */
module BuildingCode {
  import opened Travel
  import B = Building
  import S = BuildingSafety

  class Building {
    const numFloors: nat
    var elevator: seq<B.Car>

    constructor (numFloors: nat, numElevators: nat)
      ensures this.numFloors == numFloors && |elevator| == numElevators
      ensures forall i | 0 <= i < numElevators :: elevator[i] == B.Car(0, Stop, false, 0, false, B.Top)
    {
      this.numFloors := numFloors;
      elevator := seq(numElevators, _ => B.Car(0, Stop, false, 0, false, B.Top));
    }

    // The choice made after leaving the hall barrier: the first car here that may be entered, -1 for an unassigned
    // pointer.
    method AwaitUp(fromFloor: int) returns (re: int)
      ensures B.IsChosen(elevator, Up, fromFloor, re)
      ensures re == -1 || 0 <= re < |elevator|
      ensures re != -1 ==>
                && elevator[re].floor == fromFloor && elevator[re].canEnter
                && (elevator[re].dir == Up || elevator[re].dir == Stop)
      ensures forall j: nat | j < (if re == -1 then |elevator| else re) ::
                !(elevator[j].floor == fromFloor && elevator[j].canEnter
                  && (elevator[j].dir == Up || elevator[j].dir == Stop))
    {
      re := -1;
      var i := 0;
      while i < |elevator|
        invariant i <= |elevator| && re == -1
        invariant forall j | 0 <= j < i :: !B.MayEnter(elevator[j], Up, fromFloor)
      {
        if elevator[i].floor == fromFloor
          && (elevator[i].dir == Up || elevator[i].dir == Stop)
          && elevator[i].canEnter
        {
          re := i;
          break;
        }
        i := i + 1;
      }
    }

    method AwaitDown(fromFloor: int) returns (re: int)
      ensures B.IsChosen(elevator, Down, fromFloor, re)
      ensures re == -1 || 0 <= re < |elevator|
      ensures re != -1 ==>
                && elevator[re].floor == fromFloor && elevator[re].canEnter
                && (elevator[re].dir == Down || elevator[re].dir == Stop)
      ensures forall j: nat | j < (if re == -1 then |elevator| else re) ::
                !(elevator[j].floor == fromFloor && elevator[j].canEnter
                  && (elevator[j].dir == Down || elevator[j].dir == Stop))
    {
      re := -1;
      var i := 0;
      while i < |elevator|
        invariant i <= |elevator| && re == -1
        invariant forall j | 0 <= j < i :: !B.MayEnter(elevator[j], Down, fromFloor)
      {
        if elevator[i].floor == fromFloor
          && (elevator[i].dir == Down || elevator[i].dir == Stop)
          && elevator[i].canEnter
        {
          re := i;
          break;
        }
        i := i + 1;
      }
    }

    // CallUp and CallDown are the same search: signal the nearest car that stands still.
    method Call(fromFloor: int) returns (eleNum: int)
      requires 0 <= fromFloor < numFloors
      requires forall c | 0 <= c < |elevator| :: 0 <= elevator[c].floor < numFloors
      modifies this
      ensures B.IsNearestStopped(old(elevator), fromFloor, eleNum)
      ensures eleNum == -1 <==> forall j: nat | j < |old(elevator)| :: old(elevator)[j].dir != Stop
      ensures eleNum != -1 ==> 0 <= eleNum < |old(elevator)| && old(elevator)[eleNum].dir == Stop
      ensures forall j: nat | eleNum != -1 && j < |old(elevator)| && old(elevator)[j].dir == Stop ::
                var x, y := old(elevator)[eleNum].floor - fromFloor, old(elevator)[j].floor - fromFloor;
                x * x <= y * y && (j < eleNum ==> x * x < y * y)
      ensures forall s: B.State | s.cars == old(elevator) :: elevator == B.Wake(s, eleNum).cars
      ensures elevator == if eleNum != -1 && old(elevator)[eleNum].pc == B.Asleep
                          then old(elevator)[eleNum := old(elevator)[eleNum].(pc := B.Woken)] else old(elevator)
    {
      var minInterval := numFloors + 1;
      eleNum := -1;
      var i := 0;
      while i < |elevator|
        invariant i <= |elevator| && -1 <= eleNum < i
        invariant eleNum == -1 ==> minInterval == numFloors + 1 && forall j | 0 <= j < i :: elevator[j].dir != Stop
        invariant eleNum != -1 ==>
                    && elevator[eleNum].dir == Stop && minInterval == B.Distance(elevator, eleNum, fromFloor)
                    && forall j | 0 <= j < i && elevator[j].dir == Stop ::
                         && minInterval <= B.Distance(elevator, j, fromFloor)
                         && (j < eleNum ==> minInterval < B.Distance(elevator, j, fromFloor))
      {
        if elevator[i].dir == Stop && Abs(elevator[i].floor - fromFloor) < minInterval {
          minInterval := Abs(elevator[i].floor - fromFloor);
          eleNum := i;
        }
        i := i + 1;
      }
      if eleNum != -1 { NearestInFloors(elevator, fromFloor, eleNum); }
      if eleNum != -1 && elevator[eleNum].pc == B.Asleep {
        elevator := elevator[eleNum := elevator[eleNum].(pc := B.Woken)];
      }
    }
  }

  // No car that stands still is nearer than the nearest, and none before it in the list is as near.
  lemma NearestInFloors(cars: seq<B.Car>, f: int, c: nat)
    requires B.IsNearestStopped(cars, f, c)
    ensures c < |cars|
    ensures forall j: nat | j < |cars| && cars[j].dir == Stop ::
              var x, y := cars[c].floor - f, cars[j].floor - f;
              x * x <= y * y && (j < c ==> x * x < y * y)
  {
    forall j: nat | j < |cars| && cars[j].dir == Stop
      ensures var x, y := cars[c].floor - f, cars[j].floor - f; x * x <= y * y && (j < c ==> x * x < y * y)
    {
      assert B.Distance(cars, c, f) <= B.Distance(cars, j, f);
      AbsSquares(cars[c].floor - f, cars[j].floor - f);
      AbsSquares(cars[j].floor - f, cars[c].floor - f);
    }
  }

  // What Call does to the cars is what the call of a rider does to them in the building.
  lemma CallIsAStep(s: B.State, i: nat, eleNum: int)
    requires i < |s.riders| && s.riders[i].phase == B.Calling
    requires B.IsNearestStopped(s.cars, s.riders[i].src, eleNum)
    ensures exists t :: B.Next(s, t, B.CallStep(i, eleNum)) && t.cars == B.Wake(s, eleNum).cars
  {
    var r := s.riders[i];
    var phase := if B.Open(s, Heading(r.src, r.dst), r.src) then B.Released else B.Waiting;
    var t := B.Wake(B.SetPhase(s, i, phase), eleNum);
    assert B.Next(s, t, B.CallStep(i, eleNum)) && t.cars == B.Wake(s, eleNum).cars;
  }

  // What AwaitUp and AwaitDown return to a released rider is a car, and entering it is a step of the building.
  lemma AwaitIsAStep(s: B.State, i: nat, re: int)
    requires S.Inv(s) && i < |s.riders| && s.riders[i].phase == B.Released
    requires B.IsChosen(s.cars, Heading(s.riders[i].src, s.riders[i].dst), s.riders[i].src, re)
    ensures 0 <= re < |s.cars| && exists t :: B.Next(s, t, B.BoardStep(i, re))
  {
    S.ChoiceIsTotal(s, i, re);
    S.BoardIsPossible(s, i, re);
  }
}
