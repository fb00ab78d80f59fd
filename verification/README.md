# Nachos threads and elevators: a verified model

This project models the thread-synchronisation stack of a Nachos teaching kernel and the elevator system that is built
on it, and proves what the two promise.

* **The elevator.** `OneCar` is one bounded elevator and its riders as a transition system, for any number of floors
  (at least two), any capacity (at least one) and any riders that arrive at any time between two actions of the car.
  `OneCarSafety` proves the invariant of every reachable state, `OneCarDelivery` what follows for whole runs: the car
  stays in its shaft, carries everybody the right way, strands nobody, sleeps only when everybody has been delivered,
  and delivers everybody within a bounded number of actions. `ElevatorCode` is the class with the source's fields,
  waiter counts and loops; its methods produce runs of that transition system, so the theorems hold of the code, and
  `ElevatorControl` is proved to end, with every scripted rider delivered. `Building`, `BuildingSafety` and
  `BuildingCode` do the safety part for any number of elevators that share the hall barriers, one rider action at a time,
  and `BuildingDelivery` proves that they deliver everybody, within a bounded number of actions of cars and riders.
  `OneCarBehaviour` and `BuildingBehaviour` say what each step of a run does, in terms of floors, waiting riders and
  riders on board alone.
* **The event barrier.** `EventBarriers` is the broadcast-and-acknowledge rendezvous, step by step, with any number of
  threads and one signaller at a time, on conditions that keep their documented contract. `BarrierTokens` puts it on the
  conditions that are built from semaphores and proves when it is still the same protocol, and `BarrierRendezvous`
  proves for each of its promises when it is kept there.
* **Semaphore, lock, condition.** `Semaphores`, `Locks` and `Conditions` interleave any threads at every semaphore
  operation; the class beside each of them refines its steps.
* **The structures that threads wait in.** `BoundedBuffers` is the byte ring over an array, `Monitor` its readers and
  writers on documented conditions and `MonitorTokens` the same on the conditions of `synch.cc`; `DLLists` is the linked
  list on the heap and `KeyedLists` what it means; `Alarms` is the alarm queue on that list while a clock ticks.

`Common`, `Sums` and `Travel` hold shared names, sums over riders and directions of travel.

Each protocol has the same shape. A datatype is the state; `Take`, or a predicate `Next`, is one step; a run is a
sequence of enabled steps from the initial state. An invariant is proved to be kept by every step, and the theorems
speak of every state of every run. Where the source updates an object, a class has the source's fields and its methods'
postconditions tie the new state to a step; ghost fields record only what the source keeps elsewhere (in the ready list,
say, or on a thread's stack).

## Where the code does not do what is said of it

The model follows the code in each of these cases. Where the promise fails, a lemma or a contract gives the input, and
another says exactly when it is kept.

* `EventBarrier.h:11-13` promises that `Signal` returns when everybody who waits has responded. A thread that calls
  `Wait` between the last `Complete` and the signaller's return from its own wait goes straight through
  (`LateArrivalSlipsThrough`). Whenever the signaller resumes, nobody is left to respond if and only if nobody calls
  `Wait` in that window (`NobodySlipsThrough`).
* `BoundedBuffer.h:9-14` allows sizes greater than `maxsize`. No such transfer ever completes
  (`OnlyFittingTransfersComplete`).
* A transfer signals one thread. For a set of transfer sizes that is enough, in that no run leaves a reader asleep whose
  bytes are there, or a writer whose room is there, with no such thread on its way, if and only if no two positive sizes
  in the set differ, unless both are too large for the buffer (`OneSignalIsEnough`). Any two other sizes strand a reader
  in one run and a writer in another (`MixedSizesCanStrandAReader`, `MixedSizesCanStrandAWriter`). All this is so on the
  conditions of `synch.cc` too (`MonitorTokens.OneSignalIsEnough`).
* A buffer of size 0 can be made, and the empty transfer on it takes a remainder by 0; no other transfer crashes
  (`BoundedBuffer.Write`, `BoundedBuffer.Read`).
* `CheckIfDue` puts the first entry that is not due back behind its equals (`EqualDeadlinesRotate`); a check leaves the
  order alone exactly if the remaining entries with the earliest due time are all the same (`OrderKeptUnlessEqual`).
* `SortedRemove` dereferences a null pointer exactly when the list holds one element and that element has the key
  (`DLList.SortedRemove`).
* `synch.h:91-98` lets `Wait` go on when the thread is signalled. A token of `Condition` is not bound to the thread that
  was woken: one that comes later can take it (`TokenCanBeStolen`). Throughout a run there is a token for every woken
  thread if and only if no thread that was not woken takes one when there are just enough (`ServedUnlessBarging`); then
  every woken thread gets through (`WokenThreadGetsThrough`), and otherwise the woken threads by themselves can bring one
  of them back to sleep (`UnservedThreadSleepsAgain`).
* For the event barrier on the conditions of `synch.cc` this means the following. Say that a step barges if a thread
  begins to wait on a condition while a token is about.
  * No thread gets out of `Complete` before an instant after its call at which everybody has responded, if and only if no
    `Complete` barges (`BarrierRendezvous.CompleteIsARendezvous`). `BargingBreaksTheRendezvous` is a run in which one
    returns while another thread has not responded.
  * No signaller gets out of `Signal` before such an instant, at its call or after it, if and only if no `Signal` barges
    while somebody has yet to respond (`BarrierRendezvous.SignalIsARendezvous`).
  * No thread that comes to the closed barrier gets out of `Wait` before a later `Signal`, if and only if no `Wait` barges
    (`BarrierRendezvous.ClosedBarrierHolds`). `BargingBreaksSignalAndWait` is a run in which a `Signal` returns at once
    and a thread passes the closed barrier.
  * A thread asleep in `Complete` has somebody left to wait for, if and only if every thread that resumes from `Complete`
    when nobody is left finds a token (`SleepersAreAwaited`; `BargingStrandsACompleter` is a run in which one does not).
  * Nobody sleeps at the open barrier, and the last response wakes everybody asleep in `Complete`, whoever barges
    (`OpenBarrierHoldsNobody`, `CompWakes`).
  * A run is, state by state, one that the documented contract allows, if and only if no step of it barges
    (`BarrierTokens.FollowsUnlessBarging`).

## Assumptions

* Above the semaphores, threads are not preempted: without `-rs` the timer handler asks for no yield
  (`threads/system.cc:61-71`). A call to `CallUp` or `CallDown` and the wait that follows it are then one step, and
  `Condition::Wait` is atomic. `Semaphores`, `Locks` and `Conditions` do not assume this.
* `EventBarriers`, `Monitor` and the elevator take their conditions by the documented Mesa contract
  (`threads/synch.h:91-117`): a woken thread is out of the condition's queue and resumes some time later, and no other
  thread can use up its wakeup. The conditions of `synch.cc` keep this in the runs that `ServedUnlessBarging` describes;
  atomicity alone does not ensure it. `BarrierTokens`, `BarrierRendezvous` and `MonitorTokens` do not assume it.
* In the one-car model a door cycle is one step, after which everybody who boarded has requested a floor, as the pause
  in `CloseDoors` is meant to ensure (`threads/Elevator.cc:254`); a rider that arrives in the middle of a cycle counts
  as having come before it. In the many-car model doors open, riders choose a car, enter, complete and step out one by
  one.
* Riders keep to `rider` (`threads/Elevator.cc:450-476`). One whose floors are equal returns at once (line 452) and
  takes part in nothing, so trips have two different floors.

## Model

| member | source | states |
|---|---|---|
| OneCar.Highest | threads/Elevator.cc:324-333 | a downward search finds the highest floor of the range with a request; -1 means that the range has none |
| OneCar.Lowest | threads/Elevator.cc:314-323 | an upward search finds the lowest floor of the range with a request; -1 means that the range has none |
| OneCar.ExitAllEffect | threads/Elevator.cc:301-305 | whatever the order in which riders get out, exactly they are done and occupancy drops by their number |
| OneCar.EnterAllEffect | threads/Elevator.cc:269-299 | whatever the order in which callers try to enter, each boards or is turned away, somebody is turned away only if the car ends up full, and occupancy grows by those who boarded and never exceeds the capacity |
| OneCarSafety.LastRequestFloorIsFurthest | threads/Elevator.cc:311-346 | the search returns -1 if and only if no request is pending at or ahead of the car, and otherwise the furthest pending floor (the lowest one for a stopped car) |
| OneCarSafety.AheadIffSearch | threads/Elevator.cc:366-377 | the travelling loop goes on exactly while a request is pending strictly ahead |
| OneCarSafety.SleepKeeps | threads/Elevator.cc:351-356 | a stopped car that finds no request has only delivered riders when it goes to sleep |
| OneCarSafety.LeaveStopKeeps | threads/Elevator.cc:360-364 | leaving STOP keeps the invariant |
| OneCarSafety.ReverseKeeps | threads/Elevator.cc:378-388 | turning or stopping on an empty search keeps the invariant: nobody is on board then |
| OneCarSafety.TravelKeeps | threads/Elevator.cc:367-377 | a pass of the travelling loop keeps the invariant, and the next floor exists because a request is ahead |
| OneCarSafety.LastFloorKeeps | threads/Elevator.cc:389-404 | at the last requested floor both branches keep the invariant: when the car turns, everybody on board gets out there |
| OneCarSafety.LastFloorHasAWayOut | threads/Elevator.cc:396-403 | the unchecked floor after the last requested one exists, because whoever asked for this floor needs a neighbour of it |
| OneCarSafety.DecideKeeps | threads/Elevator.cc:348-448 | every decision of the control loop keeps the invariant |
| OneCarSafety.DoorCycleEffect | threads/Elevator.cc:227-305 | a door cycle lets out exactly the riders for this floor, then every caller of this direction boards or is turned away by a full car, nobody else changes; work remaining falls if anybody gets out, or if somebody calls and there is room |
| OneCarSafety.DoorsKeep | threads/Elevator.cc:227-255 | a door cycle keeps the invariant, in whatever order riders act |
| OneCarSafety.VisitKeeps | threads/Elevator.cc:257-267 | moving a floor keeps the invariant and wakes everybody asleep on ElevatorNotFull |
| OneCarSafety.TurnedKeeps | threads/Elevator.cc:389-397 | after a reversal the car does not stop while a turned-away rider is outstanding: its full load is pending ahead |
| OneCarSafety.WokenKeeps | threads/Elevator.cc:355-364 | a car woken from HaveRequest finds a request |
| OneCarSafety.ControlKeeps | threads/Elevator.cc:348-448 | every action of the control thread keeps the invariant |
| OneCarSafety.ArriveKeeps | threads/Elevator.cc:450-468 | a rider that calls and waits keeps the invariant at whatever point it arrives |
| OneCarSafety.NextKeeps | threads/Elevator.cc:348-476 | every step of the car or of a rider keeps the invariant |
| OneCarSafety.RunKeeps | threads/Elevator.cc:348-476 | every state of every run satisfies the invariant |
| OneCarDelivery.OccupancyIsRidersOnBoard | threads/Elevator.cc:269-305 | in every reachable state occupancy is the number of riders on board and at most the capacity |
| OneCarDelivery.CarStaysInShaft | threads/Elevator.cc:374-441 | 0 <= currentfloor < numFloors in every reachable state, although four moves check no bound |
| OneCarDelivery.DirectionOfTravel | threads/Elevator.cc:366-445 | an UP car carries only riders going up whose floor is not below it, a DOWN car the mirror image, a STOP car nobody; at a reversal everybody on board is at their floor |
| OneCarDelivery.NobodyIsCarriedAway | threads/Elevator.cc:257-267 | each move brings everybody on board one floor closer to their destination |
| OneCarDelivery.NobodyIsStranded | threads/Elevator.cc:257-287 | a rider asleep on ElevatorNotFull sees a full, moving car whose next move wakes it; no branch to STOP comes in between |
| OneCarDelivery.IdleCarHasNothingToDo | threads/Elevator.cc:351-360 | a car asleep on HaveRequest has no request pending anywhere and every rider there is has been delivered |
| OneCarDelivery.SameRequestsAhead | threads/Elevator.cc:366-377 | only requests strictly ahead decide how far the car still travels in its direction |
| OneCarDelivery.IdleDoors | threads/Elevator.cc:269-287 | a door cycle in which nobody gets out or boards changes nothing but callers into turned-away riders |
| OneCarDelivery.LastFloorProgress | threads/Elevator.cc:389-404 | at the last floor of a direction a door cycle always lets somebody out or takes somebody in |
| OneCarDelivery.TopPays | threads/Elevator.cc:348-388 | every decision brings the car closer to its next door cycle, its stop or its sleep, a stale no_requset_flag included |
| OneCarDelivery.DoorsPay | threads/Elevator.cc:227-305 | every door cycle lowers the measure, even when a full car opens its doors and boards nobody |
| OneCarDelivery.DepartPays | threads/Elevator.cc:257-267 | every move lowers the measure, though it wakes turned-away riders who call again |
| OneCarDelivery.TurnedPays | threads/Elevator.cc:389-397 | so does the decision after a reversal |
| OneCarDelivery.ControlPays | threads/Elevator.cc:348-448 | every action of the control thread lowers one measure: boardings and exits outstanding, then direction flips, distance and phase |
| OneCarDelivery.ControlIsTotal | threads/Elevator.cc:348-448 | the control thread has a next action if and only if it is not asleep on HaveRequest |
| OneCarDelivery.PotentialFalls | threads/Elevator.cc:348-448 | without arrivals the measure falls at each action along every run |
| OneCarDelivery.EveryRiderIsDelivered | threads/Elevator.cc:348-476 | once arrivals cease the car acts fewer than (W+1)(3 numFloors+5) times more, W being the boardings and exits still to come (at most two a rider), and when it can act no more every rider has been delivered |
| OneCarDelivery.ArrivalCosts | threads/Elevator.cc:450-468 | an arrival at any moment adds a bounded amount to the measure |
| OneCarDelivery.ControlActionsPerRider | threads/Elevator.cc:348-476 | with arrivals interleaved in any way the car acts at most 1 + R(9 numFloors+15) times |
| OneCarBehaviour.LeavingStop | threads/Elevator.cc:360-364 | in every run a car leaves STOP only when somebody waits or wants out somewhere, changing neither riders nor floor, and it goes down if and only if somebody does on its floor or below |
| OneCarBehaviour.FallingAsleep | threads/Elevator.cc:351-356 | a stopped car about to decide goes to sleep if and only if nobody waits or wants out on any floor |
| OneCarBehaviour.OnTheWay | threads/Elevator.cc:367-377 | while somebody wants the car further on it keeps its direction and clears the flag, and opens its doors if and only if somebody here goes its way or gets out |
| OneCarBehaviour.AtTheLastFloor | threads/Elevator.cc:389-404 | where nobody wants it further on but somebody does here it opens its doors, reversing first unless somebody here goes on its way |
| OneCarBehaviour.NobodyThisWay | threads/Elevator.cc:378-388 | where nobody wants it here or further on it reverses the first time and stops the second |
| OneCarBehaviour.AfterAReversal | threads/Elevator.cc:393-397 | after the doors of a reversal it moves on if and only if somebody wants it here or further on, and stops otherwise |
| OneCarBehaviour.MovesByOne | threads/Elevator.cc:257-267 | in every step of every run the floor changes only when the car departs, by one, in its direction |
| OneCarBehaviour.LifeOfARider | threads/Elevator.cc:450-476 | in every step of every run a rider keeps its trip and stays as it is, or boards or is turned away by a car that ends up full, on its floor with the car going its way, or calls again when the car moves, or gets out on the floor it wants |
| OneCarBehaviour.DoorsServeAll | threads/Elevator.cc:227-255 | a door cycle leaves nobody on board who wants out here, and nobody waiting here to go the way of the car |
| OneCarBehaviour.Newcomer | threads/Elevator.cc:450-468 | a step that adds riders adds one, waiting, changes no other rider and nothing of the car, but for waking it from HaveRequest |
| ElevatorCode.CallsCounted | threads/Elevator.cc:316-318 | the waiter count of a hall barrier is not zero exactly if somebody calls there |
| ElevatorCode.ExitsCounted | threads/Elevator.cc:316-318 | the waiter count of a car's barrier is not zero exactly if somebody on board wants out there |
| ElevatorCode.Elevator.constructor | threads/Elevator.cc:190-212 | a new car at floor 0 in STOP, with empty barriers, is the initial state of a run |
| ElevatorCode.Elevator.GetLastRequestFloor | threads/Elevator.cc:311-346 | the three search loops over the waiter counts return the furthest request of the riders they count |
| ElevatorCode.Elevator.Exit | threads/Elevator.cc:301-305 | a rider gets out: occupancy and the count of this floor's barrier drop by one and all counts stay right |
| ElevatorCode.Elevator.CompleteHall | threads/Elevator.cc:276-281 | the count of the hall barrier for the car's floor and direction, and of no other, drops by one |
| ElevatorCode.Elevator.Enter | threads/Elevator.cc:269-299 | true if and only if the car had room; otherwise occupancy is as before and the rider is turned away; either way it has answered the hall barrier |
| ElevatorCode.Elevator.RequestFloor | threads/Elevator.cc:307-309 | the rider is counted at the car's barrier for its floor and all counts are right again |
| ElevatorCode.Elevator.LetOut | threads/Elevator.cc:230-231 | the signal returns when exactly the riders for this floor are out |
| ElevatorCode.Elevator.LetIn | threads/Elevator.cc:237-244 | the signal returns when exactly the callers of this floor and direction have answered |
| ElevatorCode.Elevator.OpenHall | threads/Elevator.cc:237-244 | the hall barrier is signalled if it has waiters, the one of the direction the car has now |
| ElevatorCode.Elevator.OpenDoors | threads/Elevator.cc:227-245 | opening the doors is a door cycle of the transition system, exits before entries |
| ElevatorCode.Elevator.OpenAndCloseDoors | threads/Elevator.cc:371-372 | a door cycle extends the run of the transition system |
| ElevatorCode.Elevator.CycleDoors | threads/Elevator.cc:401-402 | riders that show up around a door cycle are steps of the same run; the car keeps its direction |
| ElevatorCode.Elevator.CallAgain | threads/Elevator.cc:455-469 | a woken rider is counted again at the hall barrier of its floor and direction |
| ElevatorCode.Elevator.RecallTurnedAway | threads/Elevator.cc:259-263 | the broadcast makes every turned-away rider, and nobody else, wait at a hall barrier again |
| ElevatorCode.Elevator.VisitFloor | threads/Elevator.cc:257-267 | a move to the next floor extends the run |
| ElevatorCode.Elevator.Wait | threads/EventBarrier.cc:30-43 | a new rider is counted at exactly one hall barrier, that of its floor and direction |
| ElevatorCode.Elevator.Call | threads/Elevator.cc:54-64 | a rider's call wakes a car asleep on HaveRequest and is an arrival of the transition system |
| ElevatorCode.Elevator.RidersArrive | threads/Elevator.cc:450-468 | the riders of the next batch stand behind those there are, waiting, in its order, whatever the car is doing, and only a sleeping car changes its place for it |
| ElevatorCode.Elevator.PassFloorUp | threads/Elevator.cc:368-374 | a pass of the upward loop: doors if anybody here wants them, then exactly one floor up and still UP, as steps of the run |
| ElevatorCode.Elevator.PassFloorDown | threads/Elevator.cc:409-415 | the mirror image going down |
| ElevatorCode.Elevator.LastFloorUp | threads/Elevator.cc:389-404 | the end of an upward trip: turn, or board and go on up, as steps of the run |
| ElevatorCode.Elevator.LastFloorDown | threads/Elevator.cc:428-442 | the mirror image going down |
| ElevatorCode.Elevator.TurnedDown | threads/Elevator.cc:393-397 | after turning down: one floor down if a request is pending here or below, and stopped otherwise |
| ElevatorCode.Elevator.TurnedUp | threads/Elevator.cc:432-436 | after turning up: one floor up if a request is pending here or above, and stopped otherwise |
| ElevatorCode.Elevator.ControlUp | threads/Elevator.cc:366-406 | the UP branch ends and is a stretch of a run |
| ElevatorCode.Elevator.ControlDown | threads/Elevator.cc:407-445 | the DOWN branch ends and is a stretch of a run |
| ElevatorCode.Elevator.LookAroundGoingUp | threads/Elevator.cc:368-370 | the doors are to open exactly if somebody here goes up or gets out |
| ElevatorCode.Elevator.LookAroundGoingDown | threads/Elevator.cc:409-411 | the mirror image going down |
| ElevatorCode.Elevator.TurnOrStayUp | threads/Elevator.cc:389-390 | at the last floor the car turns exactly if nobody here goes up |
| ElevatorCode.Elevator.TurnOrStayDown | threads/Elevator.cc:428-429 | the mirror image going down |
| ElevatorCode.Elevator.NobodyAbove | threads/Elevator.cc:379-388 | with nothing pending here or above, an UP car turns down the first time and stops the second |
| ElevatorCode.Elevator.NobodyBelow | threads/Elevator.cc:419-427 | the mirror image going down |
| ElevatorCode.Elevator.SleepUntilCalled | threads/Elevator.cc:355-356 | the car sleeps on HaveRequest until a rider calls, or for good when none is left to come |
| ElevatorCode.Elevator.ChooseDirection | threads/Elevator.cc:360-364 | the car leaves STOP as a step of the run, with riders and floor unchanged: DOWN if and only if a request is pending on its floor or below, UP otherwise |
| ElevatorCode.Elevator.ControlStop | threads/Elevator.cc:352-365 | the STOP branch leaves with a direction, or sleeps when no rider is left to come |
| ElevatorCode.Elevator.ElevatorControl | threads/Elevator.cc:348-448 | the loop reaches its final sleep within the proved number of actions; the riders are then those of every scripted batch, in order, and no others, and every one has been delivered |
| ElevatorCode.RunIsLimited | threads/Elevator.cc:348-448 | no run with that many riders is longer than the limit |
| ElevatorCode.DoorsAreAStep | threads/Elevator.cc:227-255 | a door cycle from a reachable state is a step and changes nobody's trip |
| ElevatorCode.EveryBatchShowedUp | threads/Elevator.cc:450-476 | riders with the trips of a script are those of each batch behind those of all earlier batches, and no others |
| BuildingSafety.CompleteKeeps | threads/EventBarrier.cc:47-57 | the last response lets every car that signalled the barrier go on and keeps the invariant of the building |
| BuildingSafety.WayOut | threads/Elevator.cc:389-404 | the floor after the last requested one exists for every car |
| BuildingSafety.DecideKeeps | threads/Elevator.cc:348-448 | decisions of any car keep the invariant though other cars may have served its requests |
| BuildingSafety.WakeUpKeeps | threads/Elevator.cc:355-364 | so does waking up, even when the request is gone |
| BuildingSafety.DoneLettingOutKeeps | threads/Elevator.cc:230-231 | so does the end of letting out |
| BuildingSafety.OpenHallKeeps | threads/Elevator.cc:233-244 | so does setting canEnter and signalling a hall barrier, which releases everybody asleep at it |
| BuildingSafety.DecideTurnedKeeps | threads/Elevator.cc:393-397 | so does the decision after a reversal |
| BuildingSafety.VisitKeeps | threads/Elevator.cc:257-267 | so does a move, which recalls the riders this car turned away |
| BuildingSafety.ExitKeeps | threads/Elevator.cc:301-305 | so does a rider stepping out |
| BuildingSafety.CallKeeps | threads/Elevator.cc:150-183 | so does a call, at an open or a closed barrier |
| BuildingSafety.BoardKeeps | threads/Elevator.cc:269-287 | so does a rider that picks a car and starts to get in or is turned away |
| BuildingSafety.EnterDoneKeeps | threads/Elevator.cc:291-298 | so does the end of getting in |
| BuildingSafety.NextKeeps | threads/Elevator.cc:118-476 | every step of any car or rider keeps the invariant |
| BuildingSafety.RunKeeps | threads/Elevator.cc:118-476 | every state of every run of the building satisfies the invariant |
| BuildingSafety.ChoiceIsTotal | threads/Elevator.cc:118-148 | in a state with the invariant, whatever AwaitUp or AwaitDown assigns is a car held in the signal of the rider's barrier |
| BuildingSafety.ElevatorChoiceIsTotal | threads/Elevator.cc:118-148 | a released rider always finds a car at its floor, in its direction, with canEnter set, so the returned pointer is always assigned |
| BuildingSafety.ChosenCarStays | threads/Elevator.cc:291-298 | until a rider inside Enter completes, its car keeps floor and direction, so Complete reaches the barrier the rider waited at |
| BuildingSafety.OpenBarrierDrains | threads/Elevator.cc:237-244 | while a hall barrier is open nobody sleeps at it and somebody counted there has yet to respond |
| BuildingSafety.EveryCarIsInBounds | threads/Elevator.cc:269-305 | every car stays in its shaft, and its occupancy is the number of riders that entered and have not left, at most the capacity |
| BuildingSafety.EveryCarKeepsDirection | threads/Elevator.cc:366-445 | every car carries its riders in its direction, and at a reversal everybody in it is at their floor |
| BuildingSafety.TurnedAwayRiderIsRecalled | threads/Elevator.cc:257-287 | the car that turned a rider away is full, not stopped, and finds a request after a reversal, and its next move makes the rider call again |
| BuildingSafety.CallWakesSomebody | threads/Elevator.cc:150-183 | after a call not all cars are asleep |
| BuildingSafety.IdleBuildingHasServedEverybody | threads/Elevator.cc:150-183 | when every car is asleep, every rider that has called and waited has been delivered |
| BuildingSafety.AwakeCarGoesOn | threads/Elevator.cc:348-448 | a car that is not asleep on HaveRequest can act, or waits for a rider that can |
| BuildingSafety.BuildingNeverGetsStuck | threads/Elevator.cc:118-476 | in every reachable state some car or rider can act if and only if some car is awake or some rider is about to call |
| BuildingDelivery.SearchIsUnique | threads/Elevator.cc:311-346 | in every state of the building the search has exactly one outcome for each car |
| BuildingDelivery.DecideRank | threads/Elevator.cc:348-388 | while no rider acts, a decision brings a car closer to waiting for riders, or to its sleep |
| BuildingDelivery.MoveRank | threads/Elevator.cc:257-267 | a move of an empty car brings it closer to its last request, or leaves it without one |
| BuildingDelivery.OpenHallPays | threads/Elevator.cc:233-244 | opening the doors releases somebody, or the car goes on alone to wait or to close them; the measure falls |
| BuildingDelivery.VisitPays | threads/Elevator.cc:257-267 | a move brings everybody in the car closer to their floor, or the car is empty; the measure falls, though the riders it turned away call again |
| BuildingDelivery.CallPays | threads/Elevator.cc:150-183 | a call lowers the measure, though it may wake a car |
| BuildingDelivery.BoardPays | threads/Elevator.cc:269-287 | so does getting into a car or being turned away by it |
| BuildingDelivery.EnterDonePays | threads/Elevator.cc:291-298 | so does the end of getting in, though it may let other cars go on |
| BuildingDelivery.ExitPays | threads/Elevator.cc:301-305 | so does stepping out |
| BuildingDelivery.NextPays | threads/Elevator.cc:118-476 | every step of a car or a rider lowers one measure: floors still to travel, then stages on the way into a car, then ranks of the cars |
| BuildingDelivery.PotentialFalls | threads/Elevator.cc:118-476 | without arrivals the measure falls at each step along every run of the building |
| BuildingDelivery.EveryRiderIsDelivered | threads/Elevator.cc:118-476 | once arrivals cease, with R riders and K cars fewer than (W+1)(3R+1)(K(3 numFloors+7)+1) steps of cars and riders follow, W being at most R(numFloors+1), and when no step is possible every rider has been delivered |
| BuildingBehaviour.LeavingStop | threads/Elevator.cc:360-364 | in every run of the building a car that leaves STOP goes up if and only if somebody wants it and nobody does on its floor or below; a request another car has served makes it go down |
| BuildingBehaviour.FallingAsleep | threads/Elevator.cc:351-356 | a stopped car that decides goes to sleep if and only if nobody is counted, or wants out of it, on any floor |
| BuildingBehaviour.Decisions | threads/Elevator.cc:366-445 | what a travelling car decides: on while it is wanted further on, with doors exactly for those who get in or out here; at the last floor around, unless somebody goes on from here; otherwise around once, then stop |
| BuildingBehaviour.AfterAReversal | threads/Elevator.cc:393-397 | after a reversal it moves if and only if it is wanted here or further on, and stops otherwise |
| BuildingBehaviour.Awakening | threads/Elevator.cc:150-183 | a car asleep on HaveRequest wakes only by the call of a rider to whom no stopped car is nearer and none before it in the list is as near |
| BuildingBehaviour.CallWakesTheNearest | threads/Elevator.cc:150-183 | a call wakes the nearest stopped car, the first of the equally near ones, if that one is asleep |
| BuildingBehaviour.MovesByOne | threads/Elevator.cc:257-267 | in every step a car changes its floor only when it departs, by one, in its direction |
| BuildingBehaviour.DoorsInTurn | threads/Elevator.cc:227-255 | a car lets riders out one at a time until none of them wants out here, then lets riders in if and only if somebody is counted here to go its way, and closes its doors when nobody is any more |
| BuildingBehaviour.LifeOfARider | threads/Elevator.cc:450-476 | in every step a rider keeps its trip and stays as it is, or goes to the first open car on its floor that goes its way, gets in if that has room and is turned away if it is full, calls again when that car moves, and gets out where it wants to be |
| BuildingCode.CallIsAStep | threads/Elevator.cc:150-183 | what the call loop does to the cars is what a rider's call does to them in the building |
| BuildingCode.AwaitIsAStep | threads/Elevator.cc:118-148 | what the await loops return to a released rider is a car, and entering it is a step of the building |
| BuildingCode.Building.constructor | threads/Elevator.cc:83-101 | all cars start at floor 0 in STOP with nobody in |
| BuildingCode.Building.AwaitUp | threads/Elevator.cc:134-148 | the loop returns the first car at the floor that goes up or stands and may be entered, in those words, and -1 if and only if there is none |
| BuildingCode.Building.AwaitDown | threads/Elevator.cc:118-132 | the mirror image going down |
| BuildingCode.Building.Call | threads/Elevator.cc:150-183 | by the squares of the floors between: no stopped car is nearer than the one signalled, none before it in the list is as near, none is signalled if and only if none is stopped, and the car signalled wakes up if it was asleep, with nothing else changed |
| BuildingCode.NearestInFloors | threads/Elevator.cc:150-183 | the nearest stopped car, in terms of floors: its squared distance is at most that of any stopped car, and less than that of any before it |
| EventBarriers.WaitKeeps | threads/EventBarrier.cc:30-43 | a call to Wait at an open or closed barrier keeps the invariant: waiternum counts those asleep, woken or yet to respond |
| EventBarriers.WaitReturnKeeps | threads/EventBarrier.cc:40-41 | so does the return of a woken waiter |
| EventBarriers.SignalKeeps | threads/EventBarrier.cc:19-23 | so does opening the barrier |
| EventBarriers.CompleteKeeps | threads/EventBarrier.cc:47-57 | so does Complete, by the last responder or an earlier one |
| EventBarriers.TakeKeeps | threads/EventBarrier.cc:19-57 | every step of any thread keeps the invariant |
| EventBarriers.OpenBarrierCounts | threads/EventBarrier.cc:19-57 | in every run a completer asleep implies waiternum > 0, and while the barrier is open nobody sleeps on event and waiternum counts the released threads that have yet to complete |
| EventBarriers.ExactlyWaiternumCompletes | threads/EventBarrier.cc:47-57 | without new arrivals, exactly waiternum calls of Complete wake the signaller, not one fewer |
| EventBarriers.SomebodyCanGoOn | threads/EventBarrier.cc:19-57 | until the signaller is woken some thread can go on; once woken it closes the barrier |
| EventBarriers.CompleteIsARendezvous | threads/EventBarrier.cc:47-57 | on conditions that keep a wakeup for the thread they woke (BarrierTokens for those of synch.cc): no thread returns from Complete before an instant after its call at which waiternum was 0 |
| EventBarriers.SignalIsARendezvous | threads/EventBarrier.cc:19-26 | on such conditions: no signaller returns from Signal before such an instant |
| EventBarriers.ClosedBarrierHolds | threads/EventBarrier.cc:30-43 | a thread that arrives at a closed barrier does not leave Wait before a later Signal |
| EventBarriers.LateArrivals | threads/EventBarrier.h:11-13 | after the last Complete waiternum is the number of threads that came in the window less those of them that have completed |
| EventBarriers.NobodySlipsThrough | threads/EventBarrier.h:11-13 | from the last Complete on, nobody is left to respond whenever the signaller resumes, if and only if nobody calls Wait in the window |
| EventBarriers.LateArrivalSlipsThrough | threads/EventBarrier.h:11-13 | a run in which Signal returns while a thread has not responded |
| EventBarriers.EventBarrier.constructor | threads/EventBarrier.cc:3-9 | a new barrier is closed with nobody in it |
| EventBarriers.EventBarrier.Wait | threads/EventBarrier.cc:30-43 | Wait is the step of that name: waiternum grows by one, and it returns at once exactly if the barrier is open, else the thread is asleep on event |
| EventBarriers.EventBarrier.Signal | threads/EventBarrier.cc:19-23 | Signal up to its sleep opens the barrier and wakes everybody asleep on event |
| EventBarriers.EventBarrier.Reset | threads/EventBarrier.cc:24-25 | the woken signaller closes the barrier |
| EventBarriers.EventBarrier.Complete | threads/EventBarrier.cc:47-57 | Complete is the step of that name: waiternum drops by one; the last responder returns at once and wakes the signaller and everybody on comp, an earlier one sleeps |
| BarrierTokens.StepFollows | threads/EventBarrier.cc:19-57 | on the conditions of synch.cc a step is the one the contract allows if and only if it does not begin to wait while a token is about |
| BarrierTokens.FollowsUnlessBarging | threads/EventBarrier.cc:19-57 | a run on the conditions of synch.cc is, state by state, a run of EventBarriers if and only if no step of it barges |
| BarrierTokens.BroadcastKeeps | threads/synch.cc:175-188 | Broadcast wakes everybody asleep on the condition and leaves a token for every woken thread |
| BarrierRendezvous.RunKeeps | threads/EventBarrier.cc:19-57 | in every run on the conditions of synch.cc waiternum counts the threads in Wait or yet to complete, and both conditions conserve their tokens |
| BarrierRendezvous.CompWakes | threads/EventBarrier.cc:47-57 | sleep on comp ends only at a Complete after which waiternum is 0, and then for everybody |
| BarrierRendezvous.EventWakes | threads/EventBarrier.cc:19-43 | sleep on event ends only at a Signal |
| BarrierRendezvous.CompleteIsARendezvous | threads/EventBarrier.cc:47-57 | no thread gets out of its sleep in Complete, or through it, before an instant after its call at which waiternum was 0, if and only if no Complete of the run barges |
| BarrierRendezvous.SignalIsARendezvous | threads/EventBarrier.cc:19-26 | no signaller gets out of Signal before an instant at or after its call at which waiternum was 0, if and only if no Signal of the run barges while waiternum is not 0 |
| BarrierRendezvous.ClosedBarrierHolds | threads/EventBarrier.cc:30-43 | no thread that comes to the closed barrier gets out of Wait before a later Signal, if and only if no Wait of the run barges |
| BarrierRendezvous.SleepersAreAwaited | threads/EventBarrier.cc:47-57 | throughout a run every thread asleep in Complete has somebody left to wait for, if and only if every thread that resumes from Complete at waiternum 0 finds a token |
| BarrierRendezvous.OpenBarrierHoldsNobody | threads/EventBarrier.cc:19-43 | in every run nobody sleeps on event while the barrier is open, and waiternum counts those yet to respond |
| BarrierRendezvous.BargingBreaksTheRendezvous | threads/EventBarrier.cc:47-57 | a run in which a thread takes the signaller's token and returns from Complete while another has not responded |
| BarrierRendezvous.BargingBreaksSignalAndWait | threads/EventBarrier.cc:19-43 | a run in which Signal takes a completer's token and returns at once, and a thread then passes the closed barrier on the token of one that was woken |
| BarrierRendezvous.BargingStrandsACompleter | threads/EventBarrier.cc:19-57 | a run in which Signal on the idle barrier takes a completer's token, and the completer sleeps again with nobody left to respond |
| Semaphores.CheckKeeps | threads/synch.cc:65-69 | a test of the value in P keeps the invariant, by a woken thread or by one that barges in |
| Semaphores.VeeKeeps | threads/synch.cc:83-91 | so does V |
| Semaphores.RunKeeps | threads/synch.cc:62-91 | in every interleaving the value is the initial value plus completed Vs minus completed Ps |
| Semaphores.NoWakeupIsLost | threads/synch.cc:62-91 | the value is never negative; if any thread is asleep the value is at most the number of woken threads, and a positive value means that a woken thread is about to test it |
| Semaphores.WokenInOrder | threads/synch.cc:62-91 | counted off the steps of any interleaving: the value is the initial value plus the calls of V less the tests that found a value, and the threads asleep are all that ever fell asleep, in order, but the first ones, one for each V that found somebody asleep |
| Semaphores.Semaphore.constructor | threads/synch.cc:36-40 | a new semaphore has its initial value and an empty queue |
| Semaphores.Semaphore.TestValue | threads/synch.cc:65-69 | a pass of the loop in P is one step: asleep at the end of the queue exactly if the value is 0 |
| Semaphores.Semaphore.V | threads/synch.cc:83-91 | V is one step: the value grows by one and the queue loses its first sleeper, if there is one |
| Semaphores.Semaphore.P | threads/synch.cc:62-73 | P under any schedule of the other threads is a run; it returns only after taking a value that was not 0, and otherwise its thread is asleep in the queue |
| Locks.SemKept | threads/synch.cc:113-131 | every step of Acquire or Release keeps sem.value plus owners at 1 |
| Locks.InteKept | threads/synch.cc:113-131 | and inte.value plus threads in the guarded part of Release at 1 |
| Locks.HolderKept | threads/synch.cc:113-131 | and LockHoder names exactly the thread between the end of Acquire and line 127 |
| Locks.TakeKeeps | threads/synch.cc:113-131 | every step keeps the invariant, and the assertions at lines 116 and 126 hold |
| Locks.LockBalances | threads/synch.cc:109-131 | at every interleaving point both semaphores balance, at most one thread owns the lock and LockHoder is no other thread |
| Locks.AssertionsHold | threads/synch.cc:116-126 | no assertion in Acquire or Release can fail for threads that release only what they hold and do not acquire what they hold |
| Locks.HolderIsExact | threads/synch.cc:116-126 | line 116 would fail, and line 126 hold, exactly for a thread between the end of its Acquire and line 127 |
| Locks.SomebodyCanStep | threads/synch.cc:113-131 | unless every thread is out of the lock, some thread involved can take a step |
| Locks.Lock.constructor | threads/synch.cc:96-101 | a new lock is free |
| Locks.Lock.Acquire | threads/synch.cc:113-121 | Acquire is its steps: exactly if the lock was free LockHoder is the caller at its end, else LockHoder is unchanged and the caller is last in the queue of sem |
| Locks.Lock.Release | threads/synch.cc:123-131 | Release by the holder sleeps exactly if another thread is inside Release, keeping the lock; otherwise it leaves the lock free |
| Locks.ReleaseKeeps | threads/synch.cc:123-131 | with nobody else inside Release, its five steps by the holder end in a free lock with the invariant |
| Locks.ReleaseWaits | threads/synch.cc:124 | with somebody inside Release, the holder sleeps on inte and still holds the lock |
| Conditions.TakeKeeps | threads/synch.cc:146-188 | every step keeps the number of counted threads at blockNum plus tokens |
| Conditions.TokensAreConserved | threads/synch.cc:146-188 | in every interleaving the threads between blockNum++ and the end of sem->P number blockNum + sem.value; with none of them a signal changes nothing and nothing accumulates |
| Conditions.OneTokenForEachSignal | threads/synch.cc:146-188 | counted off the steps of any interleaving: blockNum is the counted calls of Wait less the signals that found one, sem.value those signals less the tests that found a token, and the counted threads the calls less those tests |
| Conditions.BroadcastFreesEverybody | threads/synch.cc:175-188 | when Broadcast leaves its loop every counted thread has a token, nobody is asleep, and whoever tests next gets through |
| Conditions.TokenCanBeStolen | threads/synch.cc:146-174 | a run in which a later thread takes the token of the thread that was woken |
| Conditions.StepServes | threads/synch.cc:146-188 | while there is a token for every woken thread, a step ends this if and only if it barges: a thread that was not woken takes a token when there are just enough |
| Conditions.ServedUnlessBarging | threads/synch.cc:146-188 | in every state of a run there is a token for every woken thread if and only if no step barges |
| Conditions.WokenThreadGetsThrough | threads/synch.cc:146-158 | then a woken thread gets through at its next test |
| Conditions.UnservedThreadSleepsAgain | threads/synch.cc:146-158 | with fewer tokens than woken threads, tests by woken threads alone bring one of them back to sleep |
| Conditions.SignalHalvesCommute | threads/synch.cc:168-171 | every test and count of other threads between blockNum-- and sem->V could as well come before both, in the same order |
| Conditions.Condition.constructor | threads/synch.cc:134-139 | a new condition has no waiter and no token |
| Conditions.Condition.BeginWait | threads/synch.cc:153-154 | Wait from the count on is two steps: blockNum grows by one, and the thread is through with a token if there is one, else counted and last in the queue |
| Conditions.Condition.Signal | threads/synch.cc:160-174 | Signal changes nothing if blockNum is 0, and otherwise takes one from blockNum, adds one token and wakes the first sleeper |
| Conditions.Condition.Broadcast | threads/synch.cc:175-188 | the loop ends with a token for each counted thread and none of them asleep |
| Monitor.ByteStream | threads/BoundedBuffer.cc:21-51 | over every interleaving of reads and writes of any sizes, the bytes of the writes that found room, one after the other, are the bytes that the reads that found enough were handed from the front, followed by the content, and the content fits |
| Monitor.WriteFlows | threads/BoundedBuffer.cc:21-35 | with transfers of one size k, and empty ones, a pass of Write keeps: a sleeping reader means full transfers <= woken readers, a sleeping writer means free transfers <= woken writers |
| Monitor.ReadFlows | threads/BoundedBuffer.cc:37-51 | so does a pass of Read |
| Monitor.RunFlows | threads/BoundedBuffer.cc:21-51 | so it holds in every state of every run with such transfers |
| Monitor.EqualSizesWakeEnough | threads/BoundedBuffer.cc:21-51 | with 1 <= k <= maxsize: a sleeping reader implies UsedSize / k <= woken readers, a sleeping writer (maxsize - UsedSize) / k <= woken writers, though each operation signals one thread |
| Monitor.EqualSizesNeverGetStuck | threads/BoundedBuffer.cc:21-51 | no reachable state has a reader and a writer asleep and no woken thread on either side |
| Monitor.OneSignalIsEnough | threads/BoundedBuffer.cc:21-51 | for any set of sizes: no run strands a reader, and no run strands a writer, if and only if no two positive sizes differ unless both exceed maxsize |
| Monitor.MixedSizesCanStrandAReader | threads/BoundedBuffer.cc:21-51 | for any two different positive sizes, the smaller of which fits, a run leaves a reader asleep whose bytes are there, with no reader on its way |
| Monitor.MixedSizesCanStrandAWriter | threads/BoundedBuffer.cc:21-51 | and a run leaves a writer asleep whose room is there, with no writer on its way |
| Monitor.NothingFits | threads/BoundedBuffer.cc:21-51 | where no positive size fits, the buffer stays empty and whoever sleeps wants more than maxsize |
| MonitorTokens.ByteStream | threads/BoundedBuffer.cc:21-51 | the same law, read off the steps, on the conditions of synch.cc, barging or not |
| MonitorTokens.RunFlows | threads/BoundedBuffer.cc:21-51 | with one size, while somebody waits unsignalled there is a token for every transfer that could be made |
| MonitorTokens.EqualSizesWakeEnough | threads/BoundedBuffer.cc:21-51 | on the conditions of synch.cc, with one size k: a sleeping reader implies UsedSize / k <= tokens <= woken readers, a sleeping writer (maxsize - UsedSize) / k <= tokens <= woken writers |
| MonitorTokens.OneSignalIsEnough | threads/BoundedBuffer.cc:21-51 | on those conditions too no run strands a reader, and none a writer, if and only if no two positive sizes differ unless both exceed maxsize |
| MonitorTokens.MixedSizesCanStrandAReader | threads/BoundedBuffer.cc:21-51 | for any other two sizes a run leaves a reader asleep whose bytes are there, and no token |
| MonitorTokens.MixedSizesCanStrandAWriter | threads/BoundedBuffer.cc:21-51 | and a run leaves a writer asleep whose room is there, and no token |
| Monitor.FullBuffer | threads/BoundedBuffer.cc:21-51 | any two sizes, the smaller of which fits, can fill the buffer so that a read of the smaller leaves too little room for the larger |
| Monitor.OnlyFittingTransfersComplete | threads/BoundedBuffer.h:9-14 | a write or read of a size completes in some run if and only if the size is at most maxsize and maxsize is positive |
| BoundedBuffers.SlotIsMod | threads/BoundedBuffer.cc:29-31 | an index modulo maxsize is the slot reached by one wrap-around at most |
| BoundedBuffers.RingGrows | threads/BoundedBuffer.cc:28-32 | storing a byte in the next slot appends it to what the ring holds, oldest first |
| BoundedBuffers.FrontSlot | threads/BoundedBuffer.cc:29-31 | writing goes on from the slot after the used bytes, wherever they begin |
| BoundedBuffers.BackSlot | threads/BoundedBuffer.cc:45-47 | reading moves BackPlace by at most one wrap-around and leaves FrontPlace right |
| BoundedBuffers.BoundedBuffer.constructor | threads/BoundedBuffer.cc:3-12 | a new buffer of any size is empty |
| BoundedBuffers.BoundedBuffer.CopyIn | threads/BoundedBuffer.cc:28-32 | the wrap-around loop appends the bytes to the ring's content and keeps FrontPlace = (BackPlace + UsedSize) mod maxsize |
| BoundedBuffers.BoundedBuffer.CopyOut | threads/BoundedBuffer.cc:43-48 | the wrap-around loop takes the oldest bytes off, in order, and touches no other byte of the target |
| BoundedBuffers.BoundedBuffer.SignalReader | threads/BoundedBuffer.cc:33 | one sleeping reader, if there is one, is made ready |
| BoundedBuffers.BoundedBuffer.SignalWriter | threads/BoundedBuffer.cc:49 | one sleeping writer, if there is one, is made ready |
| BoundedBuffers.BoundedBuffer.Write | threads/BoundedBuffer.cc:21-35 | a pass of Write that finds room leaves the content followed by the bytes of data, in order; one that does not is asleep with the content unchanged; a crash exactly for the empty transfer on a buffer of size 0; all this as a step of the monitor |
| BoundedBuffers.BoundedBuffer.Read | threads/BoundedBuffer.cc:37-51 | a pass of Read that finds enough delivers the first bytes of the content, in order, and leaves the rest; one that does not is asleep with the content unchanged; a crash exactly for the empty transfer on a buffer of size 0; all this as a step of the monitor |
| KeyedLists.Place | threads/dllist.cc:107-108 | the insertion search stops at the first larger key |
| KeyedLists.Find | threads/dllist.cc:140-141 | the removal search stops at the first equal key |
| KeyedLists.InsertKeepsSorted | threads/dllist.cc:98-130 | a sorted insertion keeps keys sorted |
| KeyedLists.EndsKeepSorted | threads/dllist.cc:25-84 | so do prepending, appending, removing the head and removing by key |
| KeyedLists.InsertIsLast | threads/dllist.cc:107-126 | an inserted item comes after all items with its key and leaves the order of the others alone |
| KeyedLists.RemovedIsFirst | threads/dllist.cc:132-162 | a removal by key takes the first of the items with that key, leaves the items of every key in order, and removes nothing else, as multisets |
| KeyedLists.InsertAllSorts | threads/dllist-driver.cc:6-15 | any sequence of insertions gives a sorted list that holds, for every key, its items in order of insertion |
| KeyedLists.StableSortIsUnique | threads/dllist-driver.cc:6-15 | two sorted lists with the same items in the same order for every key are equal |
| KeyedLists.InsertAllIsTheStableSort | threads/dllist-driver.cc:6-15 | a list is the outcome of the insertions if and only if it is their stable sort |
| DLLists.DLLElement.constructor | threads/dllist.cc:4-9 | a new element is linked to nothing |
| DLLists.DLList.constructor | threads/dllist.cc:12-16 | a new list is empty |
| DLLists.DLList.IsEmpty | threads/dllist.cc:87-96 | true exactly for the empty list |
| DLLists.DLList.Prepend | threads/dllist.cc:25-41 | the item becomes the first, with the key of the old first less one (0 in an empty list); forward and backward chains mirror each other |
| DLLists.DLList.Append | threads/dllist.cc:44-60 | the item becomes the last, with the key of the old last plus one (0 in an empty list); the chains mirror each other |
| DLLists.DLList.Remove | threads/dllist.cc:63-84 | the first entry is returned and unlinked, nothing in an empty list; the chains mirror each other |
| DLLists.DLList.FindPlace | threads/dllist.cc:101-108 | the traversal ends at the first element with a larger key, or at null |
| DLLists.DLList.LinkFirst | threads/dllist.cc:115-120 | relinking at the head keeps both chains |
| DLLists.DLList.LinkLast | threads/dllist.cc:109-114 | relinking at the tail keeps both chains |
| DLLists.DLList.LinkBefore | threads/dllist.cc:121-126 | relinking in front of an inner element keeps both chains |
| DLLists.DLList.SortedInsert | threads/dllist.cc:98-130 | the entry is put in front of the first larger key and everything else stays in order |
| DLLists.DLList.FindKey | threads/dllist.cc:134-141 | the traversal ends at the first element with the key, or at null |
| DLLists.DLList.Unlink | threads/dllist.cc:151-158 | taking out the last or an inner element keeps both chains |
| DLLists.DLList.UnlinkFirst | threads/dllist.cc:147-150 | taking out the first element keeps both chains, or crashes exactly if it is the only one |
| DLLists.DLList.SortedRemove | threads/dllist.cc:132-162 | the entry at the first position with the key is gone and its item returned; every entry before that position is where it was and every one behind it has moved up by one; absent exactly if no entry has the key; a crash exactly on a one-element list with that key |
| DLLists.GenerateList | threads/dllist-driver.cc:6-15 | the loop of insertions yields the insertions' meaning on an empty list |
| DLLists.RemoveFromHead | threads/dllist-driver.cc:18-30 | what is removed followed by what is left is the list that was there, and removal ends early only on an empty list |
| DLLists.SortThrough | threads/dllist-driver.cc:6-30 | insertions followed by draining yield the stable sort |
| Alarms.CheckIsLoop | threads/Alarm.cc:39-65 | the loop of CheckIfDue makes ready the due prefix of the queue and puts the first entry that is not due back |
| Alarms.CheckIsExact | threads/Alarm.cc:39-65 | exactly the threads with due time <= now are woken, in nondecreasing order of due time, and the rest stays sorted |
| Alarms.CheckLosesNobody | threads/Alarm.cc:39-65 | woken and remaining entries together are the queue, as multisets |
| Alarms.EqualDeadlinesRotate | threads/Alarm.cc:56 | two equal deadlines change places under a check |
| Alarms.OrderKeptUnlessEqual | threads/Alarm.cc:56 | a check leaves the order of the rest alone if and only if its entries with the earliest due time are all the same |
| Alarms.PauseKeeps | threads/Alarm.cc:21-37 | a call to Pause keeps: the queue is sorted, waiters is its length, and a waiter means a live check thread |
| Alarms.TimerCheckKeeps | threads/Alarm.cc:39-65 | so does a timer check, and everybody it wakes is on time |
| Alarms.NobodyGetsLost | threads/Alarm.cc:21-65 | at every step all calls of Pause are those woken, each once, and those asleep |
| Alarms.RunKeeps | threads/Alarm.cc:21-72 | all this holds in every state of every run |
| Alarms.PausesEndOnTime | threads/Alarm.cc:21-72 | with a check at least every P ticks, the calls of Pause in the steps of the run are those served, each once, and those asleep; Pause(h) begun at t ends no earlier than t + TimerTicks * h and, for h >= 0, at most P after that (for h < 0, at most P after t); nobody asleep is later than that; waiters = queue length, and waiters > 0 implies a live check thread |
| Alarms.PausedAreSteps | threads/Alarm.cc:21-37 | the clock is the sum of the ticks in the steps, and what has been paused is, for every Pause(h) among them at time t, an entry for t + TimerTicks * h |
| Alarms.ChecksWakeTheDue | threads/Alarm.cc:39-65 | in every run a check takes out exactly the sleepers whose t + TimerTicks * h is not later than now and makes them ready at that tick; no other step wakes anybody or loses a sleeper |
| Alarms.CheckThreadsAreSteps | threads/Alarm.cc:21-72 | in every run a check thread is started exactly by a call of Pause that finds nobody asleep, and ends only while nobody is |
| Alarms.Alarm.constructor | threads/Alarm.cc:9-13 | a new alarm has nobody asleep |
| Alarms.Alarm.Pause | threads/Alarm.cc:21-37 | Pause up to its sleep inserts the caller with the key totalTicks + TimerTicks * howLong, behind equal keys, counts it in waiters and forks a check thread exactly for the first waiter |
| Alarms.Alarm.WakeOne | threads/Alarm.cc:45-50 | a turn of the loop makes the entry in hand ready and takes the next one out, with the same outcome ahead |
| Alarms.Alarm.WakeDue | threads/Alarm.cc:43-62 | the loop, on the linked list, ends and computes the check's outcome |
| Alarms.Alarm.CheckIfDue | threads/Alarm.cc:39-65 | exactly the due entries are made ready in order, the rest stays, waiters drops by their number |
| Alarms.Alarm.Check | threads/Alarm.cc:67-72 | a check thread finishes exactly when waiters is 0 |

## Left out

- Printing, debug names, rider statistics, `main.cc`, the drivers in `threadtest.cc`, `sysdep.cc` and the makefiles: input, output and plumbing.
- The scheduler, the ready list, context switches, interrupts, the timer device and `List`: they are not part of this model. Threads that were made ready are a set, sleepers of a semaphore a first-in first-out sequence.
- `Table.cc`: the table is not modelled.
- Exact lengths of the pauses in the elevator: only what they order is kept.
- The choice between SINGLE and MULTIPLE and between BOUNDED and UNBOUNDED: the one-car modules take the SINGLE half, the building the MULTIPLE half, and the capacity is a parameter (6 in `Elevator.h:24`).
- The time a delivery takes: the bounds count actions of the car, or steps of cars and riders, not ticks.
- The window between the last `Complete` and the signaller's return, in the elevator models: there a barrier closes with the last response. `EventBarriers` has the window.
- More than one signaller at a time in `EventBarriers`; in `Building` several cars may be held at one barrier and leave it together.
- Destructors, `Remove(NULL)`, negative transfer sizes and overflow of machine integers.
- The locks inside the linked list and the bounded buffer: what they protect is one step.
- `ShowElements` and `ShowElementsReverse`: printing only.
- Elevator.ElevatorControl: the source's loop never ends; the method returns when the car sleeps and the script of arrivals has no more riders, and its body is split over the methods named after its branches, so that `no_requset_flag` is a field.
- Elevator.CompleteHall: the response is counted, and the sleep of early responders in `Complete` is in `EventBarriers` only.
- Building.Call: stands for `CallUp` and `CallDown`, whose bodies are the same.
- Condition.BeginWait: starts at line 153; between `Release` and `blockNum++` a thread is not counted, so a signal sent there under preemption does not reach it.
- Lock.Release: up to the end or the sleep on `inte`; the rest after such a sleep is in the steps of `Locks`.
- Locks.AssertionsHold: a holder that calls `Acquire` again is not a step; `Locks.HolderIsExact` says that line 116 would stop exactly it.
- Lock.Acquire: up to the end or the first sleep; later tests of a woken thread are steps of `Locks`.
- EventBarrier.Wait: up to its return or its sleep on `event`; the return of a sleeper is the step `EndWait`.
- Elevator.Wait: the arrival of a rider at a closed hall barrier; the rider's return is part of the door cycle.
- Alarm.Pause: up to its sleep; the return is in the steps of `Alarms`, as a wakening.
- EventBarrier.Complete: up to its return or its sleep; the return of a sleeper is the step `EndComplete`.
- EventBarriers.CompleteIsARendezvous, EventBarriers.SignalIsARendezvous: on conditions that keep a wakeup for the thread they woke; `BarrierRendezvous` has the conditions of `synch.cc`.
- Monitor.EqualSizesWakeEnough: for transfers of one size; `Monitor.OneSignalIsEnough` says what holds of other sets of sizes.
- Semaphore.P: the schedule of the other threads is a finite script, and a thread not woken by its end is left asleep.
