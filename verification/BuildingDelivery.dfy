/** Delivery in a building with any number of elevators: once nobody new shows up, every run is short, and a run that
    cannot go on has delivered everybody. */
module BuildingDelivery {
  import opened Sums
  import opened Travel
  import opened Building
  import opened BuildingSafety

  // ---------- The measure ----------

  // How far a rider is from being done: in a car it comes closer with every floor.
  function Owed(cars: seq<Car>, numFloors: int): Rider -> nat {
    (r: Rider) =>
      match r.phase
      case Done => 0
      case Aboard(c) => if c < |cars| then 1 + Abs(r.dst - cars[c].floor) else 0
      case _ => Abs(numFloors) + 1
  }

  function OwedTo(s: State, r: Rider): nat {
    Owed(s.cars, s.numFloors)(r)
  }

  // How far it is from getting into a car, or being turned away by one.
  function Stage(r: Rider): nat {
    match r.phase
    case Calling => 3
    case Waiting => 2
    case Released => 1
    case _ => 0
  }

  // What the search returns to car c.
  function Search(s: State, c: nat): int
    requires c < |s.cars|
  {
    if s.cars[c].dir == Up then HighestRequest(s, c, s.numFloors - 1) else LowestRequest(s, c, 0)
  }

  // How long car c can go on while no rider does anything.
  function Rank(s: State, c: nat): int
    requires c < |s.cars|
  {
    var car, n := s.cars[c], s.numFloors;
    var dest, hall := Search(s, c), HallWaiters(s, car.dir, car.floor);
    match car.pc
    case Asleep => 0
    case Boarding(_) => 0
    case Woken => 3 * n + 4
    case Top =>
      if car.dir == Stop then if dest == -1 then 1 else 3 * n + 1
      else if dest == -1 then if car.noRequest then 3 * n + 2 else 3 * n + 3
      else 3 * Abs(dest - car.floor) + 3
    case Doors(_) => if OutWaiters(s, c, car.floor) then 0 else if hall then 2 else 3 * n + 7
    case Opened(_) => if hall then 1 else 3 * n + 6
    case Depart => if dest != -1 && dest != car.floor then 3 * Abs(dest - car.floor) + 1 else 3 * n + 4
    case Turned => 3 * n + 5
  }

  function RankList(s: State): seq<int> {
    seq(|s.cars|, c requires 0 <= c < |s.cars| => Rank(s, c))
  }

  function Total(xs: seq<int>): int {
    if xs == [] then 0 else Total(xs[..|xs| - 1]) + xs[|xs| - 1]
  }

  function Ranks(s: State): int {
    Total(RankList(s))
  }

  // No car has a higher rank than this, and all together less than that.
  function TopRank(s: State): nat {
    3 * Abs(s.numFloors) + 7
  }

  function RankUnit(s: State): nat {
    Worth(|s.cars|, TopRank(s)) + 1
  }

  function StageUnit(s: State): nat {
    Worth(3 * |s.riders| + 1, RankUnit(s))
  }

  function AllOwed(s: State): nat {
    Tally(s.riders, Owed(s.cars, s.numFloors))
  }

  function Stages(s: State): nat {
    Tally(s.riders, Stage)
  }

  // What riders owe counts for more than their stages, and these for more than the ranks.
  function Potential(s: State): int {
    Worth(AllOwed(s), StageUnit(s)) + Worth(Stages(s), RankUnit(s)) + Ranks(s)
  }

  // ---------- Bounds ----------

  lemma SearchIsUnique(s: State, c: nat, dest: int)
    requires Inv(s) && c < |s.cars| && IsLastRequest(s, c, dest)
    ensures dest == Search(s, c)
  {
    assert CarInv(s, c);
    SearchIsLast(s, c);
    LastIsUnique(s, c, dest, Search(s, c));
  }

  lemma SearchIsLast(s: State, c: nat)
    requires Inv(s) && c < |s.cars|
    ensures IsLastRequest(s, c, Search(s, c))
  {
    assert CarInv(s, c);
  }

  lemma LastIsUnique(s: State, c: nat, d: int, e: int)
    requires c < |s.cars| && IsLastRequest(s, c, d) && IsLastRequest(s, c, e)
    requires 0 <= s.cars[c].floor < s.numFloors
    ensures d == e
  {
  }

  lemma RankBounds(s: State, c: nat)
    requires Inv(s) && c < |s.cars|
    ensures 0 <= Rank(s, c) <= TopRank(s)
    ensures s.cars[c].pc == Top && s.cars[c].dir != Stop ==>
              Rank(s, c) <= 3 * s.numFloors + 3 && (Search(s, c) != -1 ==> Rank(s, c) <= 3 * s.numFloors)
  {
    assert CarInv(s, c);
    SearchIsLast(s, c);
  }

  lemma {:induction false} TotalBound(xs: seq<int>, top: nat)
    requires forall i | 0 <= i < |xs| :: 0 <= xs[i] <= top
    ensures 0 <= Total(xs) <= Worth(|xs|, top)
  {
    if xs != [] { TotalBound(xs[..|xs| - 1], top); }
  }

  lemma RanksBound(s: State)
    requires Inv(s)
    ensures 0 <= Ranks(s) < RankUnit(s)
  {
    forall c: nat | c < |s.cars| ensures 0 <= RankList(s)[c] <= TopRank(s) {
      RankBounds(s, c);
    }
    TotalBound(RankList(s), TopRank(s));
  }

  lemma {:induction false} StagesBound(riders: seq<Rider>)
    ensures Tally(riders, Stage) <= 3 * |riders|
  {
    if riders != [] { StagesBound(riders[..|riders| - 1]); }
  }

  // Stages and ranks together are worth less than one step of what is owed.
  lemma InnerBound(s: State)
    requires Inv(s)
    ensures 0 <= Ranks(s) < RankUnit(s)
    ensures Worth(Stages(s), RankUnit(s)) + Ranks(s) < StageUnit(s)
  {
    RanksBound(s);
    StagesBound(s.riders);
    WorthGrows(Stages(s), 3 * |s.riders| + 1, RankUnit(s));
  }

  // ---------- What pays ----------

  predicate SameSize(s: State, t: State) {
    s.numFloors == t.numFloors && |s.cars| == |t.cars| && |s.riders| == |t.riders|
  }

  lemma SameUnits(s: State, t: State)
    requires SameSize(s, t)
    ensures RankUnit(t) == RankUnit(s) && StageUnit(t) == StageUnit(s)
  {
  }

  lemma OwedPays(s: State, t: State)
    requires Inv(s) && Inv(t) && SameSize(s, t) && AllOwed(t) < AllOwed(s)
    ensures Potential(t) < Potential(s)
  {
    SameUnits(s, t);
    InnerBound(s);
    InnerBound(t);
    WorthGrows(AllOwed(t), AllOwed(s), StageUnit(s));
  }

  lemma StagePays(s: State, t: State)
    requires Inv(s) && Inv(t) && SameSize(s, t) && AllOwed(t) == AllOwed(s) && Stages(t) < Stages(s)
    ensures Potential(t) < Potential(s)
  {
    SameUnits(s, t);
    InnerBound(s);
    InnerBound(t);
    WorthGrows(Stages(t), Stages(s), RankUnit(s));
  }

  // A rider comes closer to being done, and nobody is thrown back.
  lemma ProgressPays(s: State, t: State, i: nat)
    requires Inv(s) && Inv(t) && SameSize(s, t) && i < |s.riders|
    requires forall j | 0 <= j < |s.riders| :: OwedTo(s, s.riders[j]) >= OwedTo(t, t.riders[j])
    requires OwedTo(s, s.riders[i]) > OwedTo(t, t.riders[i])
    ensures Potential(t) < Potential(s)
  {
    TallyFalls(s.riders, Owed(s.cars, s.numFloors), t.riders, Owed(t.cars, t.numFloors));
    OwedPays(s, t);
  }

  lemma SameOwed(s: State, t: State)
    requires SameSize(s, t)
    requires forall j | 0 <= j < |s.riders| :: OwedTo(s, s.riders[j]) == OwedTo(t, t.riders[j])
    ensures AllOwed(s) == AllOwed(t)
  {
    TallyFalls(s.riders, Owed(s.cars, s.numFloors), t.riders, Owed(t.cars, t.numFloors));
    TallyFalls(t.riders, Owed(t.cars, t.numFloors), s.riders, Owed(s.cars, s.numFloors));
  }

  // A rider comes closer to a car, and nobody is thrown back.
  lemma CloserPays(s: State, t: State, i: nat)
    requires Inv(s) && Inv(t) && SameSize(s, t) && i < |s.riders|
    requires forall j | 0 <= j < |s.riders| ::
               OwedTo(s, s.riders[j]) == OwedTo(t, t.riders[j]) && Stage(s.riders[j]) >= Stage(t.riders[j])
    requires Stage(s.riders[i]) > Stage(t.riders[i])
    ensures Potential(t) < Potential(s)
  {
    SameOwed(s, t);
    TallyFalls(s.riders, Stage, t.riders, Stage);
    StagePays(s, t);
  }

  // ---------- Steps of a car alone ----------

  // Only car c changes, and no rider.
  predicate CarAlone(s: State, t: State, c: nat) {
    && c < |s.cars| && SameSize(s, t) && t.riders == s.riders
    && forall k | 0 <= k < |s.cars| && k != c :: t.cars[k] == s.cars[k]
  }

  lemma OtherRank(s: State, t: State, c: nat, k: nat)
    requires Inv(s) && Inv(t) && CarAlone(s, t, c) && k < |s.cars| && k != c
    ensures Rank(t, k) == Rank(s, k)
  {
    SameRidersWait(s, t);
    assert Search(s, k) == Search(t, k) by {
      assert 0 <= s.cars[k].floor < s.numFloors by { assert CarInv(s, k); }
      SearchIsLast(s, k);
      SearchIsLast(t, k);
      SameTravel(t, s, k, Search(t, k));
      LastIsUnique(s, k, Search(s, k), Search(t, k));
    }
  }

  lemma {:induction false} TotalFalls(xs: seq<int>, ys: seq<int>, c: nat)
    requires c < |xs| == |ys| && ys[c] < xs[c]
    requires forall k | 0 <= k < |xs| && k != c :: ys[k] == xs[k]
    ensures Total(ys) < Total(xs)
  {
    var n := |xs| - 1;
    if c < n {
      TotalFalls(xs[..n], ys[..n], c);
    } else {
      assert xs[..n] == ys[..n];
    }
  }

  lemma RanksFall(s: State, t: State, c: nat)
    requires Inv(s) && Inv(t) && CarAlone(s, t, c) && Rank(t, c) < Rank(s, c)
    ensures Ranks(t) < Ranks(s)
  {
    forall k: nat | k < |s.cars| && k != c ensures RankList(t)[k] == RankList(s)[k] {
      OtherRank(s, t, c, k);
    }
    TotalFalls(RankList(s), RankList(t), c);
  }

  lemma RankPays(s: State, t: State, c: nat)
    requires Inv(s) && Inv(t) && CarAlone(s, t, c) && Rank(t, c) < Rank(s, c)
    requires forall j | 0 <= j < |s.riders| :: OwedTo(s, s.riders[j]) == OwedTo(t, t.riders[j])
    ensures Potential(t) < Potential(s)
  {
    assert AllOwed(s) == AllOwed(t) by { SameOwed(s, t); }
    RanksFall(s, t, c);
    SameUnits(s, t);
    RanksPay(s, t);
  }

  lemma RanksPay(s: State, t: State)
    requires RankUnit(t) == RankUnit(s) && StageUnit(t) == StageUnit(s)
    requires AllOwed(s) == AllOwed(t) && Stages(s) == Stages(t) && Ranks(t) < Ranks(s)
    ensures Potential(t) < Potential(s)
  {
  }

  lemma DecideRank(s: State, t: State, c: nat, dest: int)
    requires Inv(s) && Inv(t) && Decide(s, t, c, dest)
    ensures Rank(t, c) < Rank(s, c)
  {
    SearchIsUnique(s, c, dest);
    SameRidersWait(s, t);
    assert CarInv(s, c);
    if s.cars[c].dir == Stop || dest == -1 {
      RedirectRank(s, t, c, dest);
    } else if dest == s.cars[c].floor {
      LastFloorRank(s, t, c);
    } else {
      TravelRank(s, t, c, dest);
    }
  }

  lemma RedirectRank(s: State, t: State, c: nat, dest: int)
    requires Inv(s) && Inv(t) && Decide(s, t, c, dest) && dest == Search(s, c)
    requires s.cars[c].dir == Stop || dest == -1
    ensures Rank(t, c) < Rank(s, c)
  {
    assert CarInv(s, c);
    RankBounds(t, c);
    SearchIsLast(t, c);
    if dest != -1 {
      SameRidersWait(s, t);
      assert Pending(t, c, dest) && Searched(t, t.cars[c], dest);
    }
  }

  lemma LastFloorRank(s: State, t: State, c: nat)
    requires Inv(s) && Inv(t) && c < |s.cars| && Decide(s, t, c, s.cars[c].floor)
    requires Search(s, c) == s.cars[c].floor && s.cars[c].dir != Stop
    ensures Rank(t, c) < Rank(s, c)
  {
    SameRidersWait(s, t);
    assert CarInv(s, c);
    assert Pending(s, c, s.cars[c].floor);
    assert Rank(s, c) == 3;
  }

  lemma TravelRank(s: State, t: State, c: nat, dest: int)
    requires Inv(s) && Inv(t) && Decide(s, t, c, dest) && dest == Search(s, c)
    requires s.cars[c].dir != Stop && dest != -1 && dest != s.cars[c].floor
    ensures Rank(t, c) < Rank(s, c)
  {
    SameRidersWait(s, t);
    assert Rank(s, c) == 3 * Abs(dest - s.cars[c].floor) + 3;
    if t.cars[c].pc == Depart {
      assert CarInv(s, c);
      SearchIsLast(t, c);
      assert IsLastRequest(t, c, dest) by { SameTravel(s, t, c, dest); }
      LastIsUnique(t, c, dest, Search(t, c));
    }
  }

  // The search depends on where the car is and where it goes.
  lemma SameTravel(s: State, t: State, c: nat, dest: int)
    requires c < |s.cars| == |t.cars| && s.cars[c].floor == t.cars[c].floor && s.cars[c].dir == t.cars[c].dir
    requires s.riders == t.riders && s.numFloors == t.numFloors && IsLastRequest(s, c, dest)
    ensures IsLastRequest(t, c, dest)
  {
    SameRidersWait(s, t);
    assert forall f :: Pending(s, c, f) == Pending(t, c, f);
  }

  lemma WakeUpRank(s: State, t: State, c: nat, dest: int)
    requires Inv(s) && Inv(t) && WakeUp(s, t, c, dest)
    ensures Rank(t, c) < Rank(s, c)
  {
    RankBounds(t, c);
    assert t.cars[c] == LeaveStop(s.cars[c], dest) && t.cars[c].pc == Top && t.cars[c].dir != Stop;
    assert Rank(s, c) == 3 * s.numFloors + 4;
  }

  lemma DecideTurnedRank(s: State, t: State, c: nat, dest: int)
    requires Inv(s) && Inv(t) && DecideTurned(s, t, c, dest)
    ensures Rank(t, c) < Rank(s, c)
  {
    SearchIsLast(t, c);
    assert CarInv(t, c);
  }

  lemma DoneLettingOutRank(s: State, t: State, c: nat)
    requires DoneLettingOut(s, t, c)
    ensures Rank(t, c) < Rank(s, c)
  {
    SameRidersWait(s, t);
  }

  lemma ShutRank(s: State, t: State, c: nat)
    requires Inv(s) && Inv(t) && OpenHall(s, t, c) && !HallWaiters(s, s.cars[c].dir, s.cars[c].floor)
    ensures Rank(t, c) < Rank(s, c)
  {
    SearchIsLast(t, c);
    assert CarInv(t, c);
  }

  // An empty car that moves comes closer to its last request, or has none any more.
  lemma MoveRank(s: State, t: State, c: nat)
    requires Inv(s) && Inv(t) && Visit(s, t, c) && t.riders == s.riders
    ensures Rank(t, c) < Rank(s, c)
  {
    SameRidersWait(s, t);
    assert CarInv(s, c);
    SearchIsLast(s, c);
    SearchIsLast(t, c);
    RankBounds(t, c);
    var dest := Search(s, c);
    if dest != -1 && dest != s.cars[c].floor {
      assert Pending(t, c, dest);
      assert IsLastRequest(t, c, dest);
      LastIsUnique(t, c, dest, Search(t, c));
    }
  }

  // ---------- Every step pays ----------

  lemma DecidePays(s: State, t: State, c: nat, dest: int)
    requires Inv(s) && Inv(t) && Decide(s, t, c, dest)
    ensures SameSize(s, t) && Potential(t) < Potential(s)
  {
    DecideRank(s, t, c, dest);
    RankPays(s, t, c);
  }

  lemma WakeUpPays(s: State, t: State, c: nat, dest: int)
    requires Inv(s) && Inv(t) && WakeUp(s, t, c, dest)
    ensures SameSize(s, t) && Potential(t) < Potential(s)
  {
    WakeUpRank(s, t, c, dest);
    RankPays(s, t, c);
  }

  lemma DecideTurnedPays(s: State, t: State, c: nat, dest: int)
    requires Inv(s) && Inv(t) && DecideTurned(s, t, c, dest)
    ensures SameSize(s, t) && Potential(t) < Potential(s)
  {
    DecideTurnedRank(s, t, c, dest);
    RankPays(s, t, c);
  }

  lemma DoneLettingOutPays(s: State, t: State, c: nat)
    requires Inv(s) && Inv(t) && DoneLettingOut(s, t, c)
    ensures SameSize(s, t) && Potential(t) < Potential(s)
  {
    DoneLettingOutRank(s, t, c);
    RankPays(s, t, c);
  }

  // The doors release somebody, or the car alone goes on to wait or to close them.
  lemma OpenHallPays(s: State, t: State, c: nat)
    requires Inv(s) && Inv(t) && OpenHall(s, t, c)
    ensures SameSize(s, t) && Potential(t) < Potential(s)
  {
    var car := s.cars[c];
    if !HallWaiters(s, car.dir, car.floor) {
      ShutRank(s, t, c);
      RankPays(s, t, c);
    } else if i: nat :| i < |s.riders| && s.riders[i].phase == Waiting && AtBarrier(s.riders[i], car.dir, car.floor) {
      CloserPays(s, t, i);
    } else {
      assert t.riders == s.riders;
      RankPays(s, t, c);
    }
  }

  // A move brings everybody in the car closer; an empty car moves alone.
  lemma VisitPays(s: State, t: State, c: nat)
    requires Inv(s) && Inv(t) && Visit(s, t, c)
    ensures SameSize(s, t) && Potential(t) < Potential(s)
  {
    assert CarInv(s, c);
    if s.cars[c].occupancy > 0 { LoadedVisitPays(s, t, c); } else { EmptyVisitPays(s, t, c); }
  }

  lemma LoadedVisitPays(s: State, t: State, c: nat)
    requires Inv(s) && Inv(t) && Visit(s, t, c) && Tally(s.riders, InCar(c)) > 0
    ensures Potential(t) < Potential(s)
  {
    var i := TallyPositive(s.riders, InCar(c));
    assert RiderInv(s, s.riders[i]);
    forall j: nat | j < |s.riders| ensures OwedTo(s, s.riders[j]) >= OwedTo(t, t.riders[j]) {
      assert RiderInv(s, s.riders[j]);
    }
    ProgressPays(s, t, i);
  }

  lemma EmptyVisitPays(s: State, t: State, c: nat)
    requires Inv(s) && Inv(t) && Visit(s, t, c) && s.cars[c].occupancy == 0
    ensures Potential(t) < Potential(s)
  {
    assert CarInv(s, c);
    forall j: nat | j < |s.riders| ensures s.riders[j] == t.riders[j] && s.riders[j].phase != Aboard(c) {
      assert RiderInv(s, s.riders[j]);
      TallyAtLeast(s.riders, InCar(c), j);
    }
    assert t.riders == s.riders;
    MoveRank(s, t, c);
    RankPays(s, t, c);
  }

  lemma CallPays(s: State, t: State, i: nat, c: int)
    requires Inv(s) && Inv(t) && Call(s, t, i, c)
    ensures SameSize(s, t) && Potential(t) < Potential(s)
  {
    CloserPays(s, t, i);
  }

  lemma BoardPays(s: State, t: State, i: nat, c: nat)
    requires Inv(s) && Inv(t) && Board(s, t, i, c)
    ensures SameSize(s, t) && Potential(t) < Potential(s)
  {
    CloserPays(s, t, i);
  }

  lemma EnterDonePays(s: State, t: State, i: nat)
    requires Inv(s) && Inv(t) && EnterDone(s, t, i)
    ensures SameSize(s, t) && Potential(t) < Potential(s)
  {
    assert RiderInv(s, s.riders[i]);
    ProgressPays(s, t, i);
  }

  lemma ExitPays(s: State, t: State, i: nat)
    requires Inv(s) && Inv(t) && Exit(s, t, i)
    ensures SameSize(s, t) && Potential(t) < Potential(s)
  {
    ProgressPays(s, t, i);
  }

  // Every step of a car or of a rider uses up potential.
  lemma NextPays(s: State, t: State, step: Step)
    requires Inv(s) && Inv(t) && Next(s, t, step) && !step.ArriveStep?
    ensures SameSize(s, t) && Potential(t) < Potential(s)
  {
    match step {
      case CallStep(i, c) => CallPays(s, t, i, c);
      case BoardStep(i, c) => BoardPays(s, t, i, c);
      case EnterDoneStep(i) => EnterDonePays(s, t, i);
      case ExitStep(i) => ExitPays(s, t, i);
      case DecideStep(c, dest) => DecidePays(s, t, c, dest);
      case WakeUpStep(c, dest) => WakeUpPays(s, t, c, dest);
      case DoneLettingOutStep(c) => DoneLettingOutPays(s, t, c);
      case OpenHallStep(c) => OpenHallPays(s, t, c);
      case VisitStep(c) => VisitPays(s, t, c);
      case DecideTurnedStep(c, dest) => DecideTurnedPays(s, t, c, dest);
    }
  }

  // ---------- Delivery ----------

  ghost predicate NoArrivalsFrom(run: seq<State>, k: nat)
    requires k < |run|
  {
    forall i | k <= i < |run| :: |run[i].riders| == |run[k].riders|
  }

  lemma FollowPays(s: State, t: State)
    requires Inv(s) && Inv(t) && Follows(s, t) && |t.riders| == |s.riders|
    ensures SameSize(s, t) && Potential(t) < Potential(s)
  {
    var step :| Next(s, t, step);
    NextPays(s, t, step);
  }

  lemma {:induction false} PotentialFalls(run: seq<State>, k: nat, i: nat)
    requires IsRun(run) && k <= i < |run| && NoArrivalsFrom(run, k)
    ensures SameSize(run[i], run[k]) && Potential(run[i]) <= Potential(run[k]) - (i - k)
    decreases i
  {
    if i > k {
      PotentialFalls(run, k, i - 1);
      assert |run[i].riders| == |run[k].riders| == |run[i - 1].riders|;
      StepPays(run, i - 1);
    }
  }

  lemma StepPays(run: seq<State>, i: nat)
    requires IsRun(run) && i + 1 < |run| && |run[i + 1].riders| == |run[i].riders|
    ensures SameSize(run[i], run[i + 1]) && Potential(run[i + 1]) < Potential(run[i])
  {
    RunKeeps(run, i);
    RunKeeps(run, i + 1);
    assert Linked(run, i);
    FollowPays(run[i], run[i + 1]);
  }

  lemma PotentialBounds(s: State)
    requires Inv(s)
    ensures 0 <= Potential(s) < Worth(AllOwed(s) + 1, StageUnit(s))
  {
    InnerBound(s);
  }

  lemma {:induction false} OwedBound(s: State, riders: seq<Rider>)
    requires Inv(s) && forall r | r in riders :: RiderInv(s, r)
    ensures Tally(riders, Owed(s.cars, s.numFloors)) <= Worth(|riders|, s.numFloors + 1)
  {
    if riders != [] {
      var last := riders[|riders| - 1];
      OwedBound(s, riders[..|riders| - 1]);
      assert RiderInv(s, last);
      if last.phase.Aboard? { assert CarInv(s, last.phase.car); }
    }
  }

  // A closed form for the worth of one unit of what is owed.
  lemma UnitIsProduct(s: State)
    requires s.numFloors >= 0
    ensures StageUnit(s) == (3 * |s.riders| + 1) * (|s.cars| * (3 * s.numFloors + 7) + 1)
  {
    WorthIsProduct(|s.cars|, TopRank(s));
    WorthIsProduct(3 * |s.riders| + 1, RankUnit(s));
  }

  // Once nobody new shows up, R riders and K cars take fewer than (W + 1)(3R + 1)(K(3 numFloors + 7) + 1) further
  // steps, W being at most R(numFloors + 1); and when nothing can happen any more, every rider has been delivered.
  lemma {:induction false} EveryRiderIsDelivered(run: seq<State>, k: nat)
    requires IsRun(run) && k < |run| && NoArrivalsFrom(run, k)
    ensures var s := run[k];
            && |run| - 1 - k <
               (AllOwed(s) + 1) * ((3 * |s.riders| + 1) * (|s.cars| * (3 * s.numFloors + 7) + 1))
            && AllOwed(s) <= |s.riders| * (s.numFloors + 1)
    ensures var last := run[|run| - 1];
            CanGoOn(last) || forall i | 0 <= i < |last.riders| :: last.riders[i].phase == Done
  {
    ShortFrom(run, k);
    EndsDelivered(run);
  }

  lemma ShortFrom(run: seq<State>, k: nat)
    requires IsRun(run) && k < |run| && NoArrivalsFrom(run, k)
    ensures var s := run[k];
            && |run| - 1 - k <
               (AllOwed(s) + 1) * ((3 * |s.riders| + 1) * (|s.cars| * (3 * s.numFloors + 7) + 1))
            && AllOwed(s) <= |s.riders| * (s.numFloors + 1)
  {
    var n := |run| - 1;
    assert |run| - 1 - k < Worth(AllOwed(run[k]) + 1, StageUnit(run[k])) by {
      PotentialFalls(run, k, n);
      assert 0 <= Potential(run[n]) by { RunKeeps(run, n); PotentialBounds(run[n]); }
      assert Potential(run[k]) < Worth(AllOwed(run[k]) + 1, StageUnit(run[k])) by {
        RunKeeps(run, k);
        PotentialBounds(run[k]);
      }
    }
    RunKeeps(run, k);
    ClosedBound(run[k]);
  }

  lemma EndsDelivered(run: seq<State>)
    requires IsRun(run)
    ensures var last := run[|run| - 1];
            CanGoOn(last) || forall i | 0 <= i < |last.riders| :: last.riders[i].phase == Done
  {
    BuildingNeverGetsStuck(run, |run| - 1);
    AwakeAlways(run, |run| - 1);
  }

  lemma ClosedBound(s: State)
    requires Inv(s)
    ensures Worth(AllOwed(s) + 1, StageUnit(s)) ==
            (AllOwed(s) + 1) * ((3 * |s.riders| + 1) * (|s.cars| * (3 * s.numFloors + 7) + 1))
    ensures AllOwed(s) <= |s.riders| * (s.numFloors + 1)
  {
    UnitIsProduct(s);
    WorthIsProduct(AllOwed(s) + 1, StageUnit(s));
    OwedBound(s, s.riders);
    WorthIsProduct(|s.riders|, s.numFloors + 1);
  }
}
