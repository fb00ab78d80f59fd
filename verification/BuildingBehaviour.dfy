/** What the cars and riders of a building do at each step of a run, in terms of floors, calls and riders alone. */
module BuildingBehaviour {
  import opened Sums
  import opened Travel
  import opened Building
  import opened BuildingSafety

  // Somebody is counted on floor f for a hall barrier, or wants to get out of car c there.
  predicate Wanted(s: State, c: nat, f: int) {
    exists i | 0 <= i < |s.riders| ::
      || ((s.riders[i].phase == Waiting || s.riders[i].phase == Released || s.riders[i].phase.Entering?)
          && s.riders[i].src == f)
      || (s.riders[i].phase == Aboard(c) && s.riders[i].dst == f)
  }

  // Somebody is counted where car c stands to go the way it goes.
  predicate CalledHere(s: State, c: nat)
    requires c < |s.cars|
  {
    exists i | 0 <= i < |s.riders| ::
      && (s.riders[i].phase == Waiting || s.riders[i].phase == Released || s.riders[i].phase.Entering?)
      && s.riders[i].src == s.cars[c].floor
      && (s.cars[c].dir == Up ==> s.riders[i].src < s.riders[i].dst)
      && (s.cars[c].dir == Down ==> s.riders[i].dst < s.riders[i].src)
  }

  predicate OutHere(s: State, c: nat)
    requires c < |s.cars|
  {
    exists i | 0 <= i < |s.riders| :: s.riders[i].phase == Aboard(c) && s.riders[i].dst == s.cars[c].floor
  }

  predicate WantedAhead(s: State, c: nat)
    requires c < |s.cars|
  {
    exists g | 0 <= g < s.numFloors && Wanted(s, c, g) ::
      (s.cars[c].dir == Up && s.cars[c].floor < g) || (s.cars[c].dir == Down && g < s.cars[c].floor)
  }

  lemma WantedIsPending(s: State, c: nat, f: int)
    requires Inv(s)
    ensures Wanted(s, c, f) <==> Pending(s, c, f)
  {
    if i :| 0 <= i < |s.riders| && AtBarrier(s.riders[i], Heading(s.riders[i].src, s.riders[i].dst), f) {
      assert Wanted(s, c, f);
    } else if OutWaiters(s, c, f) {
      var i :| 0 <= i < |s.riders| && WantsOut(s.riders[i], c, f);
      assert Wanted(s, c, f);
    } else {
      forall i | 0 <= i < |s.riders|
        ensures !((s.riders[i].phase == Waiting || s.riders[i].phase == Released || s.riders[i].phase.Entering?)
                  && s.riders[i].src == f)
        ensures !(s.riders[i].phase == Aboard(c) && s.riders[i].dst == f)
      {
        assert !AtBarrier(s.riders[i], Heading(s.riders[i].src, s.riders[i].dst), f);
        assert !WantsOut(s.riders[i], c, f);
      }
    }
  }

  lemma CalledIsCounted(s: State, c: nat)
    requires Inv(s) && c < |s.cars| && s.cars[c].dir != Stop
    ensures CalledHere(s, c) <==> HallWaiters(s, s.cars[c].dir, s.cars[c].floor)
    ensures OutHere(s, c) <==> OutWaiters(s, c, s.cars[c].floor)
  {
    var car := s.cars[c];
    forall i | 0 <= i < |s.riders| ensures RiderInv(s, s.riders[i]) {}
    forall i | 0 <= i < |s.riders|
      ensures AtBarrier(s.riders[i], car.dir, car.floor) <==>
              && (s.riders[i].phase == Waiting || s.riders[i].phase == Released || s.riders[i].phase.Entering?)
              && s.riders[i].src == car.floor
              && (car.dir == Up ==> s.riders[i].src < s.riders[i].dst)
              && (car.dir == Down ==> s.riders[i].dst < s.riders[i].src)
      ensures WantsOut(s.riders[i], c, car.floor) <==>
              s.riders[i].phase == Aboard(c) && s.riders[i].dst == car.floor
    {
      assert RiderInv(s, s.riders[i]);
    }
  }

  // Car c acts.
  predicate Acts(run: seq<State>, n: nat, c: nat)
    requires n + 1 < |run|
  {
    c < |run[n].cars| && |run[n + 1].cars| == |run[n].cars| && run[n + 1].cars[c] != run[n].cars[c]
  }

  lemma StepOf(run: seq<State>, n: nat) returns (step: Step)
    requires IsRun(run) && n + 1 < |run|
    ensures Inv(run[n]) && Inv(run[n + 1]) && Next(run[n], run[n + 1], step)
  {
    RunKeeps(run, n);
    RunKeeps(run, n + 1);
    assert Linked(run, n);
    step :| Next(run[n], run[n + 1], step);
  }

  // A car that decides does so by itself.
  lemma WhoseDecision(s: State, t: State, step: Step, c: nat)
    requires Inv(s) && Next(s, t, step) && c < |s.cars| == |t.cars| && t.cars[c] != s.cars[c]
    ensures s.cars[c].pc == Top ==> step.DecideStep? && step.c == c
    ensures s.cars[c].pc == Woken ==> step.WakeUpStep? && step.c == c
    ensures s.cars[c].pc == Turned ==> step.DecideTurnedStep? && step.c == c
    ensures s.cars[c].pc == Depart ==> step.VisitStep? && step.c == c
    ensures s.cars[c].pc == Asleep ==> step.CallStep? && t.cars[c] == s.cars[c].(pc := Woken)
  {
    if step.BoardStep? {
      ChoiceIsTotal(s, step.i, step.c);
    } else if step.EnterDoneStep? {
      assert RiderInv(s, s.riders[step.i]);
    }
  }

  lemma SearchInFloors(s: State, c: nat, dest: int)
    requires Inv(s) && c < |s.cars| && IsLastRequest(s, c, dest)
    ensures s.cars[c].dir != Stop ==>
              && (dest != -1 && dest != s.cars[c].floor <==> WantedAhead(s, c))
              && (dest == -1 <==> !WantedAhead(s, c) && !Wanted(s, c, s.cars[c].floor))
    ensures s.cars[c].dir == Stop ==>
              && (dest == -1 <==> forall g | 0 <= g < s.numFloors :: !Wanted(s, c, g))
              && (dest != -1 ==> (dest <= s.cars[c].floor <==> exists g | 0 <= g <= s.cars[c].floor :: Wanted(s, c, g)))
  {
    assert CarInv(s, c);
    forall g ensures Wanted(s, c, g) <==> Pending(s, c, g) {
      WantedIsPending(s, c, g);
    }
    if dest != -1 { assert Wanted(s, c, dest); }
  }

  // ---------- Out of STOP ----------

  // A car leaves STOP upwards exactly if somebody wants it above and nobody on its floor or below.
  lemma LeavingStop(run: seq<State>, n: nat, c: nat)
    requires IsRun(run) && n + 1 < |run| && Acts(run, n, c)
    requires run[n].cars[c].dir == Stop && run[n + 1].cars[c].dir != Stop
    ensures var s, t := run[n], run[n + 1];
            && t.riders == s.riders && t.cars[c].floor == s.cars[c].floor && t.cars[c].pc == Top
            && (t.cars[c].dir == Up <==>
                  && (exists g | 0 <= g < s.numFloors :: Wanted(s, c, g))
                  && (forall g | 0 <= g <= s.cars[c].floor :: !Wanted(s, c, g)))
  {
    var s, t := run[n], run[n + 1];
    var step := StepOf(run, n);
    assert CarInv(s, c);
    WhoseDecision(s, t, step, c);
    SearchInFloors(s, c, step.dest);
  }

  // A stopped car that decides goes to sleep exactly if nobody wants it anywhere.
  lemma FallingAsleep(run: seq<State>, n: nat, c: nat)
    requires IsRun(run) && n + 1 < |run| && Acts(run, n, c)
    requires run[n].cars[c].pc == Top && run[n].cars[c].dir == Stop
    ensures var s, t := run[n], run[n + 1];
            && (t.cars[c].pc == Asleep <==> forall g | 0 <= g < s.numFloors :: !Wanted(s, c, g))
            && (t.cars[c].pc != Asleep ==> t.cars[c].dir != Stop && t.cars[c].pc == Top)
            && t.riders == s.riders && t.cars[c].floor == s.cars[c].floor
  {
    var step := StepOf(run, n);
    WhoseDecision(run[n], run[n + 1], step, c);
    SearchInFloors(run[n], c, step.dest);
  }

  // ---------- Decisions on the way ----------

  predicate TurnsAround(car: Car, next: Car) {
    (car.dir == Up ==> next.dir == Down) && (car.dir == Down ==> next.dir == Up)
  }

  // What a car decides that goes up or down: on while somebody wants it further on, with the doors open for those who
  // get in or out here; at the last floor around, unless somebody goes on from here; otherwise around once, then stop.
  lemma Decisions(run: seq<State>, n: nat, c: nat)
    requires IsRun(run) && n + 1 < |run| && Acts(run, n, c)
    requires run[n].cars[c].pc == Top && run[n].cars[c].dir != Stop
    ensures var s, t := run[n], run[n + 1];
            var car, next := s.cars[c], t.cars[c];
            && t.riders == s.riders && next.floor == car.floor && next.occupancy == car.occupancy
            && if WantedAhead(s, c) then
                 && next.dir == car.dir && !next.noRequest
                 && next.pc == (if CalledHere(s, c) || OutHere(s, c) then Doors(false) else Depart)
               else if Wanted(s, c, car.floor) then
                 && next.noRequest == car.noRequest
                 && (if CalledHere(s, c) then next.dir == car.dir && next.pc == Doors(false)
                     else TurnsAround(car, next) && next.pc == Doors(true))
               else
                 && next.pc == Top && next.noRequest
                 && (if car.noRequest then next.dir == Stop else TurnsAround(car, next))
  {
    var step := StepOf(run, n);
    WhoseDecision(run[n], run[n + 1], step, c);
    SearchInFloors(run[n], c, step.dest);
    CalledIsCounted(run[n], c);
  }

  // After a reversal a car moves exactly if somebody wants it here or further on, and stops otherwise.
  lemma AfterAReversal(run: seq<State>, n: nat, c: nat)
    requires IsRun(run) && n + 1 < |run| && Acts(run, n, c) && run[n].cars[c].pc == Turned
    ensures var s, t := run[n], run[n + 1];
            && t.riders == s.riders && t.cars[c].floor == s.cars[c].floor
            && if WantedAhead(s, c) || Wanted(s, c, s.cars[c].floor)
               then t.cars[c].dir == s.cars[c].dir && t.cars[c].pc == Depart
               else t.cars[c].dir == Stop && t.cars[c].pc == Top
  {
    var step := StepOf(run, n);
    assert CarInv(run[n], c);
    WhoseDecision(run[n], run[n + 1], step, c);
    SearchInFloors(run[n], c, step.dest);
  }

  // Rider i calls, and car c, which stands still, is at least as near as any other car that does.
  predicate CalledFrom(s: State, t: State, i: nat, c: nat)
    requires c < |s.cars|
  {
    && i < |s.riders| == |t.riders| && s.riders[i].phase == Calling && t.riders[i].phase != Calling
    && s.cars[c].dir == Stop
    && forall j | 0 <= j < |s.cars| && s.cars[j].dir == Stop ::
         var x, y := s.cars[c].floor - s.riders[i].src, s.cars[j].floor - s.riders[i].src;
         x * x <= y * y && (j < c ==> x * x < y * y)
  }

  // A sleeping car wakes up, and does nothing else, when a rider calls to whom it is the nearest.
  lemma Awakening(run: seq<State>, n: nat, c: nat) returns (i: nat)
    requires IsRun(run) && n + 1 < |run| && Acts(run, n, c) && run[n].cars[c].pc == Asleep
    ensures run[n + 1].cars[c] == run[n].cars[c].(pc := Woken)
    ensures CalledFrom(run[n], run[n + 1], i, c)
  {
    var s, t := run[n], run[n + 1];
    var step := StepOf(run, n);
    WhoseDecision(s, t, step, c);
    forall j: nat | j < |s.cars| && s.cars[j].dir == Stop
      ensures var x, y := s.cars[c].floor - s.riders[step.i].src, s.cars[j].floor - s.riders[step.i].src;
              x * x <= y * y && (j < c ==> x * x < y * y)
    {
      assert Distance(s.cars, c, s.riders[step.i].src) <= Distance(s.cars, j, s.riders[step.i].src);
      AbsSquares(s.cars[c].floor - s.riders[step.i].src, s.cars[j].floor - s.riders[step.i].src);
      AbsSquares(s.cars[j].floor - s.riders[step.i].src, s.cars[c].floor - s.riders[step.i].src);
    }
    i := step.i;
  }

  // And whoever calls wakes the nearest of the cars that stand still, if that one sleeps.
  lemma CallWakesTheNearest(run: seq<State>, n: nat, i: nat, c: nat)
    requires IsRun(run) && n + 1 < |run| && i < |run[n].riders| == |run[n + 1].riders|
    requires run[n].riders[i].phase == Calling && run[n + 1].riders[i].phase != Calling
    requires c < |run[n].cars| && run[n].cars[c].pc == Asleep && CalledFrom(run[n], run[n + 1], i, c)
    ensures c < |run[n + 1].cars| && run[n + 1].cars[c].pc == Woken
  {
    var s, t := run[n], run[n + 1];
    var step := StepOf(run, n);
    assert step.CallStep? && step.i == i;
    var d, f := step.nearest, s.riders[i].src;
    assert d != -1 && s.cars[d].dir == Stop;
    if d != c {
      AbsSquares(s.cars[c].floor - f, s.cars[d].floor - f);
      AbsSquares(s.cars[d].floor - f, s.cars[c].floor - f);
    }
  }

  // ---------- Moves ----------

  // A car's floor changes by one, in its direction, exactly when it departs.
  lemma MovesByOne(run: seq<State>, n: nat, c: nat)
    requires IsRun(run) && n + 1 < |run| && c < |run[n].cars|
    ensures |run[n + 1].cars| == |run[n].cars|
    ensures var car, next := run[n].cars[c], run[n + 1].cars[c];
            next.floor == if car.pc == Depart && next.pc != Depart
                          then car.floor + (if car.dir == Up then 1 else -1) else car.floor
  {
    var step := StepOf(run, n);
    assert CarInv(run[n], c);
  }

  // ---------- Doors ----------

  predicate DoorsClosed(car: Car, turning: bool) {
    !car.canEnter && car.pc == if turning then Turned else Depart
  }

  // Riders get out until nobody on board wants to any more; then the car lets riders in, if somebody is counted here to
  // go its way, and closes its doors when nobody is.
  predicate NextDoors(s: State, t: State, c: nat)
    requires c < |s.cars| == |t.cars|
  {
    var car, next := s.cars[c], t.cars[c];
    match car.pc
    case Doors(turning) =>
      if next.pc == car.pc then next == car.(occupancy := car.occupancy - 1)
      else next == car.(pc := Opened(turning)) && !OutHere(s, c)
    case Opened(turning) =>
      if CalledHere(s, c) then next == car.(canEnter := true, pc := Boarding(turning))
      else next == car.(canEnter := next.canEnter, pc := next.pc) && DoorsClosed(next, turning)
    case Boarding(turning) =>
      if next.pc == car.pc then next == car.(occupancy := car.occupancy + 1)
      else next == car.(canEnter := next.canEnter, pc := next.pc) && DoorsClosed(next, turning) && !CalledHere(t, c)
    case _ => true
  }

  lemma DoorsInTurn(run: seq<State>, n: nat, c: nat)
    requires IsRun(run) && n + 1 < |run| && Acts(run, n, c)
    ensures NextDoors(run[n], run[n + 1], c)
  {
    var step := StepOf(run, n);
    match run[n].cars[c].pc {
      case Doors(_) => LettingOut(run[n], run[n + 1], step, c);
      case Opened(_) => LettingIn(run[n], run[n + 1], step, c);
      case Boarding(_) => LastOneIn(run[n], run[n + 1], step, c);
      case _ =>
    }
  }

  lemma LettingOut(s: State, t: State, step: Step, c: nat)
    requires Inv(s) && Next(s, t, step) && c < |s.cars| == |t.cars| && t.cars[c] != s.cars[c] && s.cars[c].pc.Doors?
    ensures NextDoors(s, t, c)
  {
    assert CarInv(s, c);
    CalledIsCounted(s, c);
  }

  lemma LettingIn(s: State, t: State, step: Step, c: nat)
    requires Inv(s) && Next(s, t, step) && c < |s.cars| == |t.cars| && t.cars[c] != s.cars[c] && s.cars[c].pc.Opened?
    ensures NextDoors(s, t, c)
  {
    assert CarInv(s, c);
    CalledIsCounted(s, c);
  }

  lemma LastOneIn(s: State, t: State, step: Step, c: nat)
    requires Inv(s) && Inv(t) && Next(s, t, step)
    requires c < |s.cars| == |t.cars| && t.cars[c] != s.cars[c] && s.cars[c].pc.Boarding?
    ensures NextDoors(s, t, c)
  {
    assert CarInv(s, c);
    CalledIsCounted(t, c);
  }

  // ---------- The life of a rider ----------

  // Car d stands open at the rider's floor, going its way.
  predicate Takes(s: State, d: nat, r: Rider) {
    && d < |s.cars| && s.cars[d].pc.Boarding? && s.cars[d].floor == r.src
    && (s.cars[d].dir == Up <==> r.src < r.dst) && (s.cars[d].dir == Down <==> r.dst < r.src)
  }

  // And no car before it does.
  predicate TakesFirst(s: State, d: nat, r: Rider) {
    Takes(s, d, r) && forall j | 0 <= j < d :: !Takes(s, j, r)
  }

  predicate RiderStep(s: State, t: State, r: Rider, q: Rider) {
    && q.src == r.src && q.dst == r.dst
    && (q.phase == r.phase ||
        match r.phase
        case Calling => q.phase == Waiting || q.phase == Released
        case Waiting => q.phase == Released
        case Released =>
          || (q.phase.Entering? && TakesFirst(s, q.phase.car, r) && s.cars[q.phase.car].occupancy < s.capacity)
          || (q.phase.TurnedAway? && TakesFirst(s, q.phase.car, r) && s.cars[q.phase.car].occupancy == s.capacity)
        case Entering(d) => q.phase == Aboard(d) && Takes(s, d, r)
        case TurnedAway(d) => q.phase == Calling && d < |s.cars| && s.cars[d].pc == Depart
        case Aboard(d) => q.phase == Done && d < |s.cars| && s.cars[d].pc.Doors? && s.cars[d].floor == r.dst
        case Done => false)
  }

  lemma BoardsTheFirst(s: State, t: State, i: nat, c: nat)
    requires Inv(s) && Board(s, t, i, c)
    ensures TakesFirst(s, c, s.riders[i])
    ensures s.cars[c].occupancy <= s.capacity
  {
    var r := s.riders[i];
    assert RiderInv(s, r);
    ChoiceIsTotal(s, i, c);
    assert CarInv(s, c);
    forall j: nat | j < c ensures !Takes(s, j, r) {
      assert CarInv(s, j);
      assert !MayEnter(s.cars[j], Heading(r.src, r.dst), r.src);
    }
  }

  // A rider calls, is released, and goes to the first open car at its floor that goes its way: it gets in if that one
  // has room, and otherwise is turned away and calls again when that one moves; it gets out where it wants to be.
  lemma LifeOfARider(run: seq<State>, n: nat, k: nat)
    requires IsRun(run) && n + 1 < |run| && k < |run[n].riders|
    ensures k < |run[n + 1].riders| && RiderStep(run[n], run[n + 1], run[n].riders[k], run[n + 1].riders[k])
  {
    var s, t := run[n], run[n + 1];
    var step := StepOf(run, n);
    assert RiderInv(s, s.riders[k]);
    if step.BoardStep? && step.i == k {
      BoardsTheFirst(s, t, k, step.c);
    }
  }
}
