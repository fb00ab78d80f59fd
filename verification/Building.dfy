/** Any number of elevators sharing the hall barriers of a building, one rider action at a time.

    A car that signals a hall barrier is held inside EventBarrier::Signal (pc Boarding) until every rider counted
    at that barrier has called Complete.  Closing the barrier is part of the last Complete. */
module Building {
  import opened Travel

  // Calling:  about to call CallUp/CallDown and wait     Waiting:  asleep at its hall barrier
  // Released: out of the barrier, about to pick a car    Entering: inside Enter of the car it picked
  datatype Phase =
    | Calling | Waiting | Released | Entering(car: nat) | TurnedAway(car: nat) | Aboard(car: nat) | Done

  datatype Rider = Rider(src: int, dst: int, phase: Phase)

  //   Doors:  inside the barrier that lets riders out      Opened: nobody is left to get out here
  datatype Pc =
    | Top | Asleep | Woken | Doors(turning: bool) | Opened(turning: bool) | Boarding(turning: bool) | Depart | Turned

  datatype Car = Car(floor: int, dir: Direction, noRequest: bool, occupancy: int, canEnter: bool, pc: Pc)

  datatype State = State(numFloors: int, capacity: int, cars: seq<Car>, riders: seq<Rider>)

  // ---------- Requests ----------

  // The rider is counted in waiternum of the hall barrier for direction d on floor f.
  predicate AtBarrier(r: Rider, d: Direction, f: int) {
    (r.phase == Waiting || r.phase == Released || r.phase.Entering?) && r.src == f && Heading(r.src, r.dst) == d
  }

  predicate WantsOut(r: Rider, c: nat, f: int) {
    r.phase == Aboard(c) && r.dst == f
  }

  predicate HallWaiters(s: State, d: Direction, f: int) {
    exists i | 0 <= i < |s.riders| :: AtBarrier(s.riders[i], d, f)
  }

  predicate OutWaiters(s: State, c: nat, f: int) {
    exists i | 0 <= i < |s.riders| :: WantsOut(s.riders[i], c, f)
  }

  predicate Pending(s: State, c: nat, f: int) {
    HallWaiters(s, Up, f) || OutWaiters(s, c, f) || HallWaiters(s, Down, f)
  }

  predicate Searched(s: State, car: Car, f: int) {
    0 <= f < s.numFloors && (car.dir == Stop || f == car.floor || Beyond(car.dir, car.floor, f))
  }

  // What GetLastRequestFloor returns to car c.
  ghost predicate IsLastRequest(s: State, c: nat, dest: int)
    requires c < |s.cars|
  {
    var car := s.cars[c];
    if dest == -1 then forall f | 0 <= f < s.numFloors && Searched(s, car, f) :: !Pending(s, c, f)
    else
      && Searched(s, car, dest) && Pending(s, c, dest)
      && (forall f | 0 <= f < s.numFloors && Pending(s, c, f) :: !Beyond(car.dir, dest, f))
      && (car.dir == Stop ==> forall f | 0 <= f < dest :: !Pending(s, c, f))
  }

  // ---------- Which car is called, which car is entered ----------

  function Distance(cars: seq<Car>, c: nat, f: int): nat
    requires c < |cars|
  {
    Abs(cars[c].floor - f)
  }

  // CallUp/CallDown signal the nearest stopped car, the first of them if several are equally near.
  ghost predicate IsNearestStopped(cars: seq<Car>, f: int, c: int) {
    if c == -1 then forall j: nat | j < |cars| :: cars[j].dir != Stop
    else
      && 0 <= c < |cars| && cars[c].dir == Stop
      && forall j: nat | j < |cars| && cars[j].dir == Stop ::
           Distance(cars, c, f) <= Distance(cars, j, f) && (j < c ==> Distance(cars, c, f) < Distance(cars, j, f))
  }

  predicate MayEnter(car: Car, d: Direction, f: int) {
    car.floor == f && (car.dir == d || car.dir == Stop) && car.canEnter
  }

  // AwaitUp/AwaitDown take the first car that may be entered; -1 stands for the pointer they leave unassigned.
  ghost predicate IsChosen(cars: seq<Car>, d: Direction, f: int, c: int) {
    if c == -1 then forall j | 0 <= j < |cars| :: !MayEnter(cars[j], d, f)
    else 0 <= c < |cars| && MayEnter(cars[c], d, f) && forall j | 0 <= j < c :: !MayEnter(cars[j], d, f)
  }

  // ---------- Rider steps ----------

  function SetPhase(s: State, i: nat, phase: Phase): State
    requires i < |s.riders|
  {
    s.(riders := s.riders[i := s.riders[i].(phase := phase)])
  }

  function SetCar(s: State, c: nat, car: Car): State
    requires c < |s.cars|
  {
    s.(cars := s.cars[c := car])
  }

  function Serves(car: Car, d: Direction, f: int): bool {
    car.pc.Boarding? && car.floor == f && car.dir == d
  }

  predicate Open(s: State, d: Direction, f: int) {
    exists c | 0 <= c < |s.cars| :: Serves(s.cars[c], d, f)
  }

  // CloseDoors.
  function Shut(car: Car, turning: bool): Car {
    car.(canEnter := false, pc := if turning then Turned else Depart)
  }

  // The last Complete lets every car that signalled this barrier go on.
  function Complete(s: State, d: Direction, f: int): State {
    if HallWaiters(s, d, f) then s
    else s.(cars := seq(|s.cars|, c requires 0 <= c < |s.cars| =>
                      if Serves(s.cars[c], d, f) then Shut(s.cars[c], s.cars[c].pc.turning) else s.cars[c]))
  }

  ghost predicate Arrive(s: State, t: State, r: Rider) {
    ValidTrip(s.numFloors, r.src, r.dst) && r.phase == Calling && t == s.(riders := s.riders + [r])
  }

  function Wake(s: State, c: int): State {
    if 0 <= c < |s.cars| && s.cars[c].pc == Asleep then SetCar(s, c, s.cars[c].(pc := Woken)) else s
  }

  // CallUp or CallDown, then EventBarrier::Wait.
  ghost predicate Call(s: State, t: State, i: nat, c: int) {
    && i < |s.riders| && s.riders[i].phase == Calling
    && var r := s.riders[i];
       IsNearestStopped(s.cars, r.src, c)
       && t == Wake(SetPhase(s, i, if Open(s, Heading(r.src, r.dst), r.src) then Released else Waiting), c)
  }

  // AwaitUp or AwaitDown picks car c; Enter finds it full, or starts to get in.
  ghost predicate Board(s: State, t: State, i: nat, c: nat) {
    && i < |s.riders| && s.riders[i].phase == Released
    && c < |s.cars|
    && var r := s.riders[i];
       IsChosen(s.cars, Heading(r.src, r.dst), r.src, c)
       && t == if s.cars[c].occupancy + 1 > s.capacity
               then Complete(SetPhase(s, i, TurnedAway(c)), s.cars[c].dir, s.cars[c].floor)
               else SetCar(SetPhase(s, i, Entering(c)), c, s.cars[c].(occupancy := s.cars[c].occupancy + 1))
  }

  // Enter completes the barrier of the floor and direction its car has now.
  ghost predicate EnterDone(s: State, t: State, i: nat) {
    && i < |s.riders| && s.riders[i].phase.Entering? && s.riders[i].phase.car < |s.cars|
    && var c := s.riders[i].phase.car;
       t == Complete(SetPhase(s, i, Aboard(c)), s.cars[c].dir, s.cars[c].floor)
  }

  ghost predicate Exit(s: State, t: State, i: nat) {
    && i < |s.riders| && s.riders[i].phase.Aboard? && s.riders[i].phase.car < |s.cars|
    && var c := s.riders[i].phase.car;
       s.cars[c].pc.Doors? && s.cars[c].floor == s.riders[i].dst
       && t == SetCar(SetPhase(s, i, Done), c, s.cars[c].(occupancy := s.cars[c].occupancy - 1))
  }

  // ---------- Car steps ----------

  function LeaveStop(car: Car, dest: int): Car {
    car.(dir := if dest > car.floor then Up else Down, pc := Top)
  }

  function Decided(car: Car, dest: int, hallHere: bool, outHere: bool): Car {
    if car.dir == Stop then
      if dest == -1 then car.(pc := Asleep) else LeaveStop(car, dest)
    else if dest == -1 then
      if car.noRequest then car.(dir := Stop) else car.(dir := Opposite(car.dir), noRequest := true)
    else if dest != car.floor then
      car.(noRequest := false, pc := if hallHere || outHere then Doors(false) else Depart)
    else if hallHere then
      car.(pc := Doors(false))
    else
      car.(dir := Opposite(car.dir), pc := Doors(true))
  }

  ghost predicate Decide(s: State, t: State, c: nat, dest: int) {
    && c < |s.cars| && s.cars[c].pc == Top && IsLastRequest(s, c, dest)
    && var car := s.cars[c];
       t == SetCar(s, c, Decided(car, dest, HallWaiters(s, car.dir, car.floor), OutWaiters(s, c, car.floor)))
  }

  ghost predicate WakeUp(s: State, t: State, c: nat, dest: int) {
    && c < |s.cars| && s.cars[c].pc == Woken && IsLastRequest(s, c, dest)
    && t == SetCar(s, c, LeaveStop(s.cars[c], dest))
  }

  ghost predicate DoneLettingOut(s: State, t: State, c: nat) {
    && c < |s.cars| && s.cars[c].pc.Doors? && !OutWaiters(s, c, s.cars[c].floor)
    && t == SetCar(s, c, s.cars[c].(pc := Opened(s.cars[c].pc.turning)))
  }

  function Release(r: Rider, d: Direction, f: int): Rider {
    if r.phase == Waiting && AtBarrier(r, d, f) then r.(phase := Released) else r
  }

  // canEnter is set; if anybody is counted at the hall barrier, it is signalled.
  ghost predicate OpenHall(s: State, t: State, c: nat) {
    && c < |s.cars| && s.cars[c].pc.Opened?
    && var car := s.cars[c];
       t == if HallWaiters(s, car.dir, car.floor)
            then SetCar(s, c, car.(canEnter := true, pc := Boarding(car.pc.turning))).(
                   riders := seq(|s.riders|, i requires 0 <= i < |s.riders| =>
                               Release(s.riders[i], car.dir, car.floor)))
            else SetCar(s, c, Shut(car, car.pc.turning))
  }

  function Recall(r: Rider, c: nat): Rider {
    if r.phase == TurnedAway(c) then r.(phase := Calling) else r
  }

  ghost predicate Visit(s: State, t: State, c: nat) {
    && c < |s.cars| && s.cars[c].pc == Depart
    && t == SetCar(s, c, s.cars[c].(floor := s.cars[c].floor + Delta(s.cars[c].dir), pc := Top)).(
              riders := seq(|s.riders|, i requires 0 <= i < |s.riders| => Recall(s.riders[i], c)))
  }

  ghost predicate DecideTurned(s: State, t: State, c: nat, dest: int) {
    && c < |s.cars| && s.cars[c].pc == Turned && IsLastRequest(s, c, dest)
    && t == SetCar(s, c, if dest == -1 then s.cars[c].(dir := Stop, pc := Top) else s.cars[c].(pc := Depart))
  }

  // ---------- Runs ----------

  datatype Step =
    | ArriveStep(rider: Rider)
    | CallStep(i: nat, nearest: int)
    | BoardStep(i: nat, c: nat)
    | EnterDoneStep(i: nat)
    | ExitStep(i: nat)
    | DecideStep(c: nat, dest: int)
    | WakeUpStep(c: nat, dest: int)
    | DoneLettingOutStep(c: nat)
    | OpenHallStep(c: nat)
    | VisitStep(c: nat)
    | DecideTurnedStep(c: nat, dest: int)

  ghost predicate Next(s: State, t: State, step: Step) {
    match step
    case ArriveStep(r) => Arrive(s, t, r)
    case CallStep(i, c) => Call(s, t, i, c)
    case BoardStep(i, c) => Board(s, t, i, c)
    case EnterDoneStep(i) => EnterDone(s, t, i)
    case ExitStep(i) => Exit(s, t, i)
    case DecideStep(c, dest) => Decide(s, t, c, dest)
    case WakeUpStep(c, dest) => WakeUp(s, t, c, dest)
    case DoneLettingOutStep(c) => DoneLettingOut(s, t, c)
    case OpenHallStep(c) => OpenHall(s, t, c)
    case VisitStep(c) => Visit(s, t, c)
    case DecideTurnedStep(c, dest) => DecideTurned(s, t, c, dest)
  }

  ghost predicate Init(s: State) {
    && s.numFloors >= 2 && s.capacity >= 1 && s.riders == [] && |s.cars| >= 1
    && forall c | 0 <= c < |s.cars| :: s.cars[c] == Car(0, Stop, false, 0, false, Top)
  }

  ghost predicate Follows(s: State, t: State) {
    exists step :: Next(s, t, step)
  }

  ghost predicate Linked(run: seq<State>, i: nat)
    requires i + 1 < |run|
  {
    Follows(run[i], run[i + 1])
  }

  ghost predicate IsRun(run: seq<State>) {
    && |run| > 0 && Init(run[0])
    && forall i: nat | i + 1 < |run| :: Linked(run, i)
  }
}
