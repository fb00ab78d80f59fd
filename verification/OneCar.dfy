/** One bounded elevator and its riders, as a transition system.

    A step is an arrival, or one action of the control thread: a decision, a door cycle, or a move.
    Riders call, are let out, board and are turned away inside those actions, so that by the time of the
    next decision everybody who boarded has requested a floor and everybody who was woken by a move
    is waiting at a hall barrier again. */
module OneCar {
  import opened Common
  import opened Sums
  import opened Travel

  // Waiting: asleep at a hall barrier.  TurnedAway: asleep on ElevatorNotFull.
  datatype Phase = Waiting | TurnedAway | Aboard | Done

  datatype Rider = Rider(src: int, dst: int, phase: Phase)

  // Where the control thread is between two actions.
  //   Top:    about to look for the last requested floor and decide
  //   Asleep: waiting on HaveRequest;   Woken: signalled, about to look again
  //   Doors:  about to open the doors (turning: it has just reversed at its last floor)
  //   Depart: about to visit the next floor in its direction
  //   Turned: doors closed after reversing, about to look in the new direction
  datatype Pc = Top | Asleep | Woken | Doors(turning: bool) | Depart | Turned

  datatype State = State(
    numFloors: int,
    capacity: int,
    currentFloor: int,
    dir: Direction,
    noRequest: bool,
    occupancy: int,
    pc: Pc,
    riders: seq<Rider>)

  // ---------- Requests and the search for the last one ----------

  predicate Calling(r: Rider, d: Direction, f: int) {
    r.phase == Waiting && r.src == f && Heading(r.src, r.dst) == d
  }

  predicate GettingOut(r: Rider, f: int) {
    r.phase == Aboard && r.dst == f
  }

  // The hall barrier for direction d on floor f has waiters.
  predicate Calls(riders: seq<Rider>, d: Direction, f: int) {
    exists i | 0 <= i < |riders| :: Calling(riders[i], d, f)
  }

  // The car's own barrier for floor f has waiters.
  predicate Exits(riders: seq<Rider>, f: int) {
    exists i | 0 <= i < |riders| :: GettingOut(riders[i], f)
  }

  predicate Pending(riders: seq<Rider>, f: int) {
    Calls(riders, Up, f) || Exits(riders, f) || Calls(riders, Down, f)
  }

  function Highest(riders: seq<Rider>, lo: int, hi: int): (r: int)
    ensures r == -1 ==> forall g | lo <= g <= hi && 0 <= g :: !Pending(riders, g)
    ensures r != -1 ==> lo <= r <= hi && Pending(riders, r) && forall g | r < g <= hi :: !Pending(riders, g)
    decreases hi - lo
  {
    if hi < lo then -1
    else if Pending(riders, hi) then hi
    else Highest(riders, lo, hi - 1)
  }

  function Lowest(riders: seq<Rider>, lo: nat, hi: int): (r: int)
    ensures r == -1 ==> forall g | lo <= g <= hi :: !Pending(riders, g)
    ensures r != -1 ==> lo <= r <= hi && Pending(riders, r) && forall g | lo <= g < r :: !Pending(riders, g)
    decreases hi - lo
  {
    if hi < lo then -1
    else if Pending(riders, lo) then lo
    else Lowest(riders, lo + 1, hi)
  }

  function LastRequestFloor(s: State): int {
    match s.dir
    case Stop => Lowest(s.riders, 0, s.numFloors - 1)
    case Up => Highest(s.riders, s.currentFloor, s.numFloors - 1)
    case Down => Lowest(s.riders, 0, s.currentFloor)
  }

  // ---------- The door cycle ----------

  // What a door cycle changes.
  datatype Cabin = Cabin(riders: seq<Rider>, occupancy: int)

  function Exit(c: Cabin, i: nat): Cabin
    requires i < |c.riders|
  {
    Cabin(c.riders[i := c.riders[i].(phase := Done)], c.occupancy - 1)
  }

  function Enter(c: Cabin, capacity: int, i: nat): Cabin
    requires i < |c.riders|
  {
    if c.occupancy + 1 > capacity then Cabin(c.riders[i := c.riders[i].(phase := TurnedAway)], c.occupancy)
    else Cabin(c.riders[i := c.riders[i].(phase := Aboard)], c.occupancy + 1)
  }

  predicate Indices(order: seq<nat>, n: nat) {
    forall k | 0 <= k < |order| :: order[k] < n
  }

  function ExitAll(c: Cabin, outs: seq<nat>): (d: Cabin)
    requires Indices(outs, |c.riders|)
    ensures |d.riders| == |c.riders|
  {
    if outs == [] then c else
    var n := |outs| - 1;
    Exit(ExitAll(c, outs[..n]), outs[n])
  }

  function EnterAll(c: Cabin, capacity: int, ins: seq<nat>): (d: Cabin)
    requires Indices(ins, |c.riders|)
    ensures |d.riders| == |c.riders|
  {
    if ins == [] then c else
    var n := |ins| - 1;
    Enter(EnterAll(c, capacity, ins[..n]), capacity, ins[n])
  }

  // order lists the members of chosen, each once: the order in which the scheduler runs them.
  ghost predicate Lists(order: seq<nat>, chosen: set<nat>) {
    && Distinct(order)
    && (forall i :: i in order <==> i in chosen)
  }

  function Leavers(s: State): set<nat> {
    set i: nat | i < |s.riders| && GettingOut(s.riders[i], s.currentFloor)
  }

  function Callers(s: State): set<nat> {
    set i: nat | i < |s.riders| && Calling(s.riders[i], s.dir, s.currentFloor)
  }

  ghost predicate DoorCycle(s: State, t: State, outs: seq<nat>, ins: seq<nat>) {
    && s.pc.Doors?
    && Indices(outs, |s.riders|) && Lists(outs, Leavers(s))
    && Indices(ins, |s.riders|) && Lists(ins, Callers(s))
    && var c := EnterAll(ExitAll(Cabin(s.riders, s.occupancy), outs), s.capacity, ins);
       t == s.(riders := c.riders, occupancy := c.occupancy, pc := if s.pc.turning then Turned else Depart)
  }

  // ---------- Decisions and moves ----------

  // Leaving STOP, whether a request was there already or the car was woken.
  function LeaveStop(s: State): State {
    s.(dir := if LastRequestFloor(s) > s.currentFloor then Up else Down, pc := Top)
  }

  function Decide(s: State): State {
    var dest := LastRequestFloor(s);
    if s.dir == Stop then
      if dest == -1 then s.(pc := Asleep) else LeaveStop(s)
    else if dest == -1 then
      if s.noRequest then s.(dir := Stop) else s.(dir := Opposite(s.dir), noRequest := true)
    else if dest != s.currentFloor then
      s.(noRequest := false,
         pc := if Calls(s.riders, s.dir, s.currentFloor) || Exits(s.riders, s.currentFloor)
               then Doors(false) else Depart)
    else if Calls(s.riders, s.dir, s.currentFloor) then
      s.(pc := Doors(false))
    else
      s.(dir := Opposite(s.dir), pc := Doors(true))
  }

  function DecideTurned(s: State): State {
    if LastRequestFloor(s) == -1 then s.(dir := Stop, pc := Top) else s.(pc := Depart)
  }

  function Rewait(r: Rider): Rider {
    if r.phase == TurnedAway then r.(phase := Waiting) else r
  }

  // VisitFloor: everybody asleep on ElevatorNotFull calls again; then the car is on the new floor.
  function Visit(s: State): State {
    s.(riders := seq(|s.riders|, i requires 0 <= i < |s.riders| => Rewait(s.riders[i])),
       currentFloor := s.currentFloor + Delta(s.dir),
       pc := Top)
  }

  // A rider signals HaveRequest and then waits at the hall barrier of its floor.
  function Arrive(s: State, src: int, dst: int): State {
    s.(riders := s.riders + [Rider(src, dst, Waiting)], pc := if s.pc == Asleep then Woken else s.pc)
  }

  // ---------- Runs ----------

  ghost predicate Init(s: State) {
    && s.numFloors >= 2 && s.capacity >= 1
    && s.currentFloor == 0 && s.dir == Stop && !s.noRequest && s.occupancy == 0
    && s.pc == Top && s.riders == []
  }

  ghost predicate Arrival(s: State, t: State) {
    exists src, dst :: ValidTrip(s.numFloors, src, dst) && t == Arrive(s, src, dst)
  }

  ghost predicate Control(s: State, t: State) {
    match s.pc
    case Top => t == Decide(s)
    case Asleep => false
    case Woken => t == LeaveStop(s)
    case Doors(_) => exists outs, ins :: DoorCycle(s, t, outs, ins)
    case Depart => t == Visit(s)
    case Turned => t == DecideTurned(s)
  }

  ghost predicate Next(s: State, t: State) {
    Arrival(s, t) || Control(s, t)
  }

  ghost predicate Linked(run: seq<State>, i: nat)
    requires i + 1 < |run|
  {
    Next(run[i], run[i + 1])
  }

  ghost predicate IsRun(run: seq<State>) {
    && |run| > 0 && Init(run[0])
    && forall i: nat | i + 1 < |run| :: Linked(run, i)
  }

  // ---------- What is summed over riders ----------

  function Load(r: Rider): nat {
    if r.phase == Aboard then 1 else 0
  }

  // Boardings and exits this rider still needs.
  function Work(r: Rider): nat {
    match r.phase
    case Waiting => 2
    case TurnedAway => 2
    case Aboard => 1
    case Done => 0
  }

  // ---------- What the folds over riders do ----------

  lemma LastIsNew(order: seq<nat>)
    requires order != [] && Distinct(order)
    ensures Distinct(order[..|order| - 1])
    ensures order[|order| - 1] !in order[..|order| - 1]
    ensures forall i :: i in order <==> i in order[..|order| - 1] || i == order[|order| - 1]
  {
    assert order == order[..|order| - 1] + [order[|order| - 1]];
  }

  lemma {:induction false} ExitAllEffect(c: Cabin, outs: seq<nat>)
    requires Indices(outs, |c.riders|) && Distinct(outs)
    requires forall i | 0 <= i < |c.riders| && i in outs :: c.riders[i].phase == Aboard
    ensures var d := ExitAll(c, outs);
            && d.occupancy == c.occupancy - |outs|
            && (forall i | 0 <= i < |c.riders| ::
                  d.riders[i] == if i in outs then c.riders[i].(phase := Done) else c.riders[i])
            && Tally(d.riders, Load) == Tally(c.riders, Load) - |outs|
            && Tally(d.riders, Work) == Tally(c.riders, Work) - |outs|
  {
    if outs != [] {
      var n := |outs| - 1;
      LastIsNew(outs);
      ExitAllEffect(c, outs[..n]);
      var d := ExitAll(c, outs[..n]);
      var r := d.riders[outs[n]].(phase := Done);
      TallyUpdate(d.riders, Load, outs[n], r);
      TallyUpdate(d.riders, Work, outs[n], r);
    }
  }

  // Turned away only when the car is full; everybody else boards.
  predicate Admitted(before: Rider, after: Rider, full: bool) {
    && after == before.(phase := after.phase)
    && (after.phase == Aboard || (after.phase == TurnedAway && full))
  }

  lemma {:induction false} EnterAllEffect(c: Cabin, capacity: int, ins: seq<nat>)
    requires Indices(ins, |c.riders|) && Distinct(ins)
    requires forall i | 0 <= i < |c.riders| && i in ins :: c.riders[i].phase == Waiting
    requires c.occupancy <= capacity
    ensures var d := EnterAll(c, capacity, ins);
            && c.occupancy <= d.occupancy <= capacity
            && (ins != [] && c.occupancy < capacity ==> c.occupancy < d.occupancy)
            && (forall i | 0 <= i < |c.riders| ::
                  if i in ins then Admitted(c.riders[i], d.riders[i], d.occupancy == capacity)
                  else d.riders[i] == c.riders[i])
            && Tally(d.riders, Load) == Tally(c.riders, Load) + (d.occupancy - c.occupancy)
            && Tally(d.riders, Work) == Tally(c.riders, Work) - (d.occupancy - c.occupancy)
  {
    if ins != [] {
      var n := |ins| - 1;
      LastIsNew(ins);
      EnterAllEffect(c, capacity, ins[..n]);
      var d := EnterAll(c, capacity, ins[..n]);
      var e := Enter(d, capacity, ins[n]);
      TallyUpdate(d.riders, Load, ins[n], e.riders[ins[n]]);
      TallyUpdate(d.riders, Work, ins[n], e.riders[ins[n]]);
    }
  }
}
