# A verified model of the distributed elevator

The system is a set of nodes, each driving one elevator. A node is Inactive, Disconnected, Master or Slave; the
master collects hall calls, has them assigned, and sends assignments to its slaves, which hand them to their
elevators and report completions back, all over UDP broadcast with acks and retransmission. This project models
that behaviour in Dafny for any number of floors `N >= 2` (the source has 4) and any ring size `n >= 2` (the
source has 5), and proves what the design promises on every run.

**One elevator** (`Elevators`, `Requests`, `ElevatorFsm`, `ElevatorProgram`). The scheduling policy, the state
machine and the event loop. `ElevatorFsm.Step` is the meaning of one event on the controller record, the last
motor command, the door lamp and the timers; the class `ElevatorProgram.ElevatorController` is the code that
updates these in place, and each of its methods is proved to do exactly what `Step` (or the script of steps of an
order) says. About all runs of `Step`, under any interleaving of presses, withdrawals, obstructions, arrivals and
door timeouts:

- `Outcomes`: what each event does in every reachable state, said in terms of the pending calls alone.
- `ElevatorSafety`, `Shaft`: shaft, motor and door safety; the arrival rule is derived from the motion of a cab.
- `BoundedWaiting`: every pending call that is not withdrawn is served within `2 * (N - 1)` arrivals, a bound that
  runs from start-up meet.
- `Settling`: arrivals and door timeouts alone, in whatever number they come, end after at most `6 * (N - 1) + 3`
  of them, at rest with no call left.
- `HallOrders`, `OrderCourse`, `HallLedger`: hall and cab orders are applied exactly, an idle cab goes for the lowest
  floor ordered, and hall calls are conserved.

**The nodes** (`MessageIds`, `MessageBuffer`, `Master`, `Transmitters`, `Slave`, `Election`, `Roles`), and protocols
over networks that misbehave:

- `Slave`, `AssignmentDelivery`: what one remembered id achieves over any session, and assignments over a lossy,
  duplicating channel that keeps order.
- `CompletionProtocol`: completions over a network that loses, duplicates and reorders, to any number of masters.
- `SlaveElevator`, `OrderedCalls`: a slave session together with its elevator, and how long an ordered call waits.
- `ServedCalls`: all elevators, slaves and masters together; behind every cleared hall request is one report, by the
  elevator of the node that passed it on, made as its cab served that call.

Timers are armed flags (the door) or a multiset of outstanding ids (retransmission); a timer fires at any time.
With Go 1.23, which `go.mod` asks for, a reset timer delivers no stale tick, so a door timeout needs an armed timer.
Message ids are drawn at random by the source; runs of the protocols assume the draws distinct. A time of last
connection is a natural number with 0 for Go's zero time.

## Where the code does not do what one expects

The model follows the code in these places. Each is a proved statement that says for all inputs exactly when it happens,
and where one is named, a lemma with a run that reaches it:

- The ring remembers `n - 1` ids, not `n` as its comment says: `MessageBuffer.OneFewerThanSlots` shows the id that is
  missed, `MessageBuffer.WindowIsExact` what is found.
- A door timeout throws away the completions it computes: `HallLedger.ACompletionIsLost` reaches it from start-up,
  `HallLedger.LostExactlyAtTheTurn` gives the condition.
- The door lamp goes dark while the door stays open: `ElevatorSafety.ADoorStandsOpenInTheDark` reaches it from
  start-up, `ElevatorSafety.DoorGoesDarkExactlyAtTheTurn` gives the condition, and `HallLedger.LossesDarkenTheDoor`
  shows that it is the same event as a lost completion. So the lamp implies an open door
  (`ElevatorSafety.EveryRunIsSafe`) but not the reverse, and a call served at the turn is served in the dark
  (`BoundedWaiting.PotentialStep`).
- An assignment with id 0, which only this message type can get, is acked but never applied when it is the first
  a slave accepts: `AssignmentDelivery.AnAckedAssignmentIsNotApplied` reaches it,
  `AssignmentDelivery.AcceptedIsApplied` and `AssignmentDelivery.AckMeansNewestApplied` give the condition.
- One remembered id at the slave is not enough if the channel reorders
  (`AssignmentDelivery.ReorderingReappliesOldAssignments`); `Slave.InOrderIffAcceptedInOrder` says which
  sequences of accepted assignments it is enough for.
- Equal non-zero times of last connection elect several masters: `Election.EqualTimesElectTwo` shows two,
  `Election.ExactlyOneElected` gives the condition.
- The stuck timer watches an obstructed door only from the first door timeout ever, or after a turn:
  `Outcomes.FirstObstructionIsWatched`, `Outcomes.LaterObstructionIsNotWatched`; `Outcomes.ObstructedTimeoutOutcome`
  says exactly when a timeout arms it.
- A completion that comes late clears a press made since: `ServedCalls.ALateMessageClearsANewPress` reaches it from
  start-up, `ServedCalls.EveryClearWasServed` says of every clear and every earlier moment exactly when the report
  behind the clear was made after it, and `ServedCalls.QuietPressIsServed` what can be checked at the press.

## Model

| member | source | states |
|---|---|---|
| Requests.RequestsAbove | elevator/requests.go:12-24 | the scan finds a request iff some floor above the cab has one; nothing for an unknown floor |
| Requests.RequestsBelow | elevator/requests.go:26-38 | the same below the cab |
| Requests.RequestsHere | elevator/requests.go:40-50 | the same at the cab's floor |
| Requests.RequestsClearAtCurrentFloor | elevator/requests.go:106-148 | the edited copy and the reported events are the ones a stop is defined to clear, in the order of travel |
| Requests.ClearReportsTheDifference | elevator/requests.go:106-148 | the events are exactly the hall calls that left the matrix, once each, never a cab call; other floors keep theirs; the direction of travel is always served, and everything where the cab turns |
| ElevatorProgram.ElevatorController.constructor | elevator_fsm/elevator_fsm.go:16-31 | start-up: driving down, no known floor, timers stopped |
| ElevatorProgram.ElevatorController.OnRequestButtonPress | elevator_fsm/elevator_fsm.go:33-96 | a press updates record, motor, lamp and timer as the press step says and returns its completions |
| ElevatorProgram.ElevatorController.RemoveRequest | elevator_fsm/elevator_fsm.go:98-101 | a withdrawal removes that call and nothing else |
| ElevatorProgram.ElevatorController.SetObstruction | elevator_fsm/elevator_fsm.go:103-105 | only the obstruction flag changes |
| ElevatorProgram.ElevatorController.OnFloorArrival | elevator_fsm/elevator_fsm.go:107-134 | an arrival updates the whole state as the arrival step says and returns what it cleared, for any reported floor |
| ElevatorProgram.ElevatorController.OnDoorTimeout | elevator_fsm/elevator_fsm.go:141-216 | the effect of a door timeout on record, motor, lamp and both timers |
| ElevatorProgram.ElevatorController.OnDoorTimer | singleelevator/elevatorprogram.go:130-137 | the timer arm with the stuck flag, as one step of the state machine |
| ElevatorProgram.ElevatorController.OnFloorSensor | singleelevator/elevatorprogram.go:116-125 | every hall completion of an arrival is sent, the filter for cab events drops none |
| ElevatorProgram.ElevatorController.OnCabButton | singleelevator/elevatorprogram.go:81-86 | a cab press is one press step and sends nothing |
| ElevatorProgram.ElevatorController.OnHallSlot | singleelevator/elevatorprogram.go:93-102 | one slot of a hall order takes or withdraws its call as one step, skipping withdrawals of absent calls |
| ElevatorProgram.ElevatorController.OnHallOrder | singleelevator/elevatorprogram.go:90-105 | the nested loop is the run of all slots floor by floor, and sends that run's completions in order |
| ElevatorProgram.ElevatorController.OnCabOrder | singleelevator/elevatorprogram.go:106-111 | a cab order is the run of presses it lists |
| ElevatorSafety.StepKeepsInv | elevator_fsm/elevator_fsm.go:58-216 | every step keeps the cab in the shaft, the schedule sound and the outputs in agreement |
| ElevatorSafety.EveryRunIsSafe | elevator_fsm/elevator_fsm.go:27-216 | on every run from start-up: never up from the top, never down from floor 0, motor as commanded, lamp lit only with the door open, Idle means no call and no direction, timer armed iff the door is open, and the open door left nothing it serves |
| ElevatorSafety.DoorIsSafe | elevator_fsm/elevator_fsm.go:107-216 | as the door opens the motor stands, the lamp is lit and the timer armed; it stays open while obstructed, and only an unobstructed timeout closes it or darkens the lamp |
| ElevatorSafety.DoorGoesDarkExactlyAtTheTurn | elevator_fsm/elevator_fsm.go:150-165 | a lit open door goes dark iff an unobstructed timeout finds a hall call the other way here and no call ahead; a dark one that stays open is lit again iff a press is served at once |
| ElevatorSafety.ADoorStandsOpenInTheDark | elevator_fsm/elevator_fsm.go:199-206 | for every number of floors a run of three events from start-up ends with the door open and its lamp dark |
| Outcomes.ArriveOutcome | elevator_fsm/elevator_fsm.go:107-134 | a moving cab stops at a floor iff its cab call, its hall call in the direction of travel, or nothing further on is pending; which calls a stop serves and reports, in which order, and that all else, outputs included, is as it was |
| Outcomes.StandingOutcome | elevator_fsm/elevator_fsm.go:112-131 | a standing cab reported where it stands changes nothing |
| Outcomes.RemoveOutcome | elevator_fsm/elevator_fsm.go:98-101 | a withdrawal takes that call out and changes nothing else |
| Outcomes.PressOutcome | elevator_fsm/elevator_fsm.go:58-78 | unless idle, a press at the open door's floor and not for the other way is served at once, lighting the lamp, and is reported if a hall call; any other becomes pending and changes nothing else |
| Outcomes.IdlePressOutcome | elevator_fsm/elevator_fsm.go:78-93 | an idle cab sets off towards the pressed floor with that one call, or opens its door there going neither way |
| Outcomes.OpenedFromIdleServesBothWays | elevator/requests.go:71-77 | a door opened by a press at an idle cab then serves both hall buttons of its floor at once |
| Outcomes.TimeoutOutcome | elevator/requests.go:52-84 | as a free door times out the cab goes on if calls lie ahead, else turns for a call here, else for calls behind, up before down if it goes neither way, else is idle; only the call it turns for is served, the lamp is dark, and timers and motor follow |
| Outcomes.TurnedCabServesTheOtherWay | elevator/requests.go:55-70 | after reopening at the turn the hall button it turned for is reported at once when pressed again |
| Outcomes.ObstructedTimeoutOutcome | elevator_fsm/elevator_fsm.go:186-188 | a timeout of an obstructed door arms the door timer again, arms the stuck timer if it is the first timeout ever, and changes nothing else |
| Outcomes.ObstructionHoldsTheDoor | elevator_fsm/elevator_fsm.go:103-105 | from the moment an open door is obstructed, on every run without the obstruction going, it stays open where it is, motor off and lamp as lit as it was |
| Outcomes.FreedDoorCloses | elevator_fsm/elevator_fsm.go:189-210 | once the obstruction is gone the next timeout is that of a free door; without calls the cab is idle |
| Outcomes.StartUpOutcome | elevator_fsm/elevator_fsm.go:16-31 | whichever floor is reported first, the cab stops there, and after one timeout is idle there with no call, nothing lit or armed, and nothing reported |
| Outcomes.FirstObstructionIsWatched | singleelevator/elevatorprogram.go:130-137 | an obstruction at the first timeout ever arms the stuck timer |
| Outcomes.LaterObstructionIsNotWatched | singleelevator/elevatorprogram.go:133-136 | a door opened by a press at an idle cab that has timed out before, and obstructed then, is not watched by the stuck timer on any run while the obstruction lasts |
| Shaft.NextKeepsWorldInv | elevator/elevio.go:99-109 | with a cab that moves half a floor at a time, every sensor report is the arrival the controller expects |
| Shaft.CabStaysInShaft | elevator_fsm/elevator_fsm.go:27-31 | started anywhere at or between floors, the cab stays between floor 0 and floor N - 1 on every run |
| BoundedWaiting.PotentialStep | elevator/requests.go:52-148 | the waiting bound of a pending call drops on every arrival and never rises; the call goes only by withdrawal or as it is served at its floor with motor off and door open, lamp lit if the cab arrives, dark if it is a hall call at the turn |
| BoundedWaiting.BoundedWaiting | elevator_fsm/elevator_fsm.go:58-216 | a pending call not withdrawn is served, as said above, within 2(N - 1) arrivals of any run, a cab call by an arrival, so with the lamp lit |
| BoundedWaiting.BoundIsTight | elevator/requests.go:52-148 | for every N a run from start-up leads to a call that is still pending after 2(N - 1) - 1 further arrivals, with nothing pressed meanwhile |
| Settling.MoveSpendsBudget | elevator_fsm/elevator_fsm.go:107-216 | a lexicographic measure of farthest call and open door strictly drops on every move and never rises on withdrawals |
| Settling.CalmRunsAreShort | elevator_fsm/elevator_fsm.go:107-216 | every run without presses and obstruction makes at most 6(N - 1) + 2 moves, however many calls are pending |
| Settling.NeverStuck | singleelevator/elevatorprogram.go:79-142 | unless Idle with no calls, the awaited arrival or door timeout can happen; Idle has none |
| Settling.MovesLeadToRest | elevator/requests.go:52-100 | from every reachable unobstructed state, every run of moves alone makes at most 6(N - 1) + 3 of them, and no further move is possible iff the elevator is Idle with an empty matrix |
| Settling.Settles | singleelevator/elevatorprogram.go:116-137 | every such run can be continued by moves alone to rest with an empty matrix, within that bound |
| HallOrders.PressEffect | elevator_fsm/elevator_fsm.go:58-96 | a press reports at most its own call, iff that call is served at once with the door open there; the loop's floor filter drops nothing |
| HallOrders.HallOrderRefinesMessage | singleelevator/elevatorprogram.go:90-105 | after a hall order pending hall calls are in the message, each ordered call is pending or reported but not both, each report once and in the order of the slots, cab calls unchanged |
| OrderCourse.CabOrderRefinesMessage | singleelevator/elevatorprogram.go:106-111 | after a cab order each listed cab call is pending unless the door is open at its floor, every other call is pending iff it was before, the cab has not moved and nothing is reported |
| OrderCourse.IdleGoesForLowestHallCall | singleelevator/elevatorprogram.go:91-92 | a hall order sends an idle cab towards the lowest floor ordered, or opens its door if it stands there, whatever else is ordered |
| OrderCourse.IdleGoesForLowestCabCall | singleelevator/elevatorprogram.go:107-109 | a cab order likewise |
| HallLedger.StepLedger | elevator_fsm/elevator_fsm.go:98-134 | a hall request goes out exactly by a reported completion, a withdrawal or a discarded completion, and comes in only by a press |
| HallLedger.LedgerBalances | elevator_fsm/elevator_fsm.go:58-216 | over every run: pending before plus ordered equals reported plus withdrawn plus lost plus pending after |
| HallLedger.ReportedIsServed | singleelevator/elevatorprogram.go:94-99 | a completion is reported only for a hall call, with the cab at its floor, motor off, door open, lamp lit and the call no longer pending |
| HallLedger.LostExactlyAtTheTurn | elevator_fsm/elevator_fsm.go:205 | exactly which completions a door timeout loses: the opposite call at this floor when nothing is left ahead |
| HallLedger.LossesDarkenTheDoor | elevator_fsm/elevator_fsm.go:150-206 | a timeout leaves a lit door open and dark iff it throws a completion away |
| HallLedger.ACompletionIsLost | elevator_fsm/elevator_fsm.go:199-206 | such a loss is reachable from start-up |
| MessageIds.GenerationDoesNotOverflow | Network/messagehandler/receivers.go:35-46 | in 64-bit arithmetic the id is the draw above the type's partition, for every type and draw |
| MessageIds.RoutingInvertsGeneration | Network/messagehandler/receivers.go:49-71 | an ack is routed to a type's channel iff its id can be generated for that type |
| MessageIds.GenerationIsInjective | Network/messagehandler/receivers.go:35-46 | different types or draws never share an id |
| MessageIds.OnlyAssignmentsGetIdZero | config/config.go:11 | id 0 can be drawn for a hall assignment and for no other type |
| MessageIds.PartitionTable | Network/messagehandler/receivers.go:49-71 | the four id ranges in numbers; ids of the upper half of the 64-bit space go nowhere |
| MessageIds.OnlyTypesHaveIds | Network/messagehandler/receivers.go:35-46 | an id is generated iff the code is that of a message type, which are the codes below 4 |
| MessageBuffer.MessageIDBuffer.constructor | node/master.go:23-25 | a new ring is all zeros |
| MessageBuffer.MessageIDBuffer.Add | node/master.go:28-34 | the array and position after an addition |
| MessageBuffer.MessageIDBuffer.Contains | node/master.go:37-44 | the scan finds an id iff it is in a slot |
| MessageBuffer.WindowIsExact | node/master.go:17-44 | after any additions an id is found iff it is 0 or among the last n - 1 added |
| MessageBuffer.OneFewerThanSlots | node/master.go:28-34 | an id is still found after n - 2 other ids, and no longer after n - 1 |
| Master.ProcessHAComplete | node/master.go:297-315 | the returned requests, ring and flag are those of applying an unseen completion and ignoring a seen one |
| Master.ProcessNewHallRequest | node/master.go:317-328 | a hall button is set and nothing else changes; a cab button is refused |
| Master.MasterNode.constructor | node/master.go:51-70 | a master starts with calls to distribute, and asks once for the states of the active elevators, iff some hall request is lit |
| Master.MasterNode.OnElevatorEvent | node/master.go:87-125 | a local press or completion updates its button and the new requests are published; a hall press sets the distribution flag, and the states are asked for iff it is set and the last time was over 100 ms ago |
| Master.MasterNode.OnNewHallRequest | node/master.go:132-155 | a valid request is set and published and sets the distribution flag, an invalid one only clears that flag; the states are asked for iff it was valid and the last time was over 100 ms ago |
| Master.MasterNode.OnHallAssignmentComplete | node/master.go:191-208 | a completion is processed, published iff new, and always acked with its id |
| Master.StateRequestsAreThrottled | node/master.go:116-120 | over any sequence of moments that want the states, they are asked for more than 100 ms apart, and always unless asked for in the 100 ms before |
| Master.DeduplicationWindow | node/master.go:297-315 | over a session equal applied ids have at least n - 1 distinct others in between; a completion takes effect iff its id is not 0 and not among the last n - 1 applied, and else leaves even re-pressed buttons alone |
| Master.BitFallsOnlyOnCompletion | node/master.go:108-113 | a request goes out iff its own elevator or a fresh message completes that button, and comes in iff that hall button is pressed |
| Transmitters.HallAssignmentsTransmitter.OnEnable | Network/messagehandler/transmitters.go:23-28 | disabling empties the pending map, timers stay out |
| Transmitters.HallAssignmentsTransmitter.OnNewAssignment | Network/messagehandler/transmitters.go:29-49 | an enabled transmitter stores, sends and arms a timer under the new id; a disabled one does nothing |
| Transmitters.HallAssignmentsTransmitter.OnTimeout | Network/messagehandler/transmitters.go:51-64 | one pending message with the timed-out id, if any, is resent and armed again, whatever the map order |
| Transmitters.HallAssignmentsTransmitter.OnAck | Network/messagehandler/transmitters.go:66-72 | an ack removes the entry of its node iff the ids agree |
| Transmitters.AssignmentsAreRetransmitted | Network/messagehandler/transmitters.go:29-72 | on every run each pending assignment is under its own node with exactly one timer, which resends it; stale timers send nothing |
| Transmitters.PendingEndsExactlyBy | Network/messagehandler/transmitters.go:23-72 | on every run a pending assignment stops being pending iff its own ack arrives, a newer one is made for its node, or the transmitter is disabled |
| Transmitters.SupersededIsForgotten | Network/messagehandler/transmitters.go:51-72 | once acked or superseded, in every continuation an assignment is not sent again, its timer is silent, and its acks, however late and from whatever node, remove nothing |
| Transmitters.NewAssignmentIsTaken | Network/messagehandler/transmitters.go:29-49 | on every run an enabled transmitter sends a new assignment at once, replaces the one pending for its node and retries it; a disabled one has nothing pending and drops it |
| Transmitters.AssignTimersOnlyFire | Network/messagehandler/transmitters.go:46-64 | on every run a timer is outstanding from the sending of a new assignment until it fires and finds that id pending no more; nothing calls it off |
| Transmitters.HallAssignmentCompleteTransmitter.OnEnable | Network/messagehandler/transmitters.go:110-116 | disabling empties the pending map |
| Transmitters.HallAssignmentCompleteTransmitter.OnNewCompletion | Network/messagehandler/transmitters.go:117-128 | a completion is stored, sent and timed under an id of its own type, enabled or not |
| Transmitters.HallAssignmentCompleteTransmitter.OnTimeout | Network/messagehandler/transmitters.go:133-145 | a pending completion is resent and armed again, another timer is spent |
| Transmitters.HallAssignmentCompleteTransmitter.OnAck | Network/messagehandler/transmitters.go:129-132 | an ack removes its completion and no other |
| Transmitters.CompletionsAreRetransmitted | Network/messagehandler/transmitters.go:117-145 | on every run each pending completion has exactly one timer, which resends it; the timer of an acked one sends nothing and is gone |
| Transmitters.NewCompletionIsTaken | Network/messagehandler/transmitters.go:117-128 | on every run a new completion is sent at once, pending beside all others and timed, enabled or not |
| Transmitters.CompletionEndsExactlyBy | Network/messagehandler/transmitters.go:109-132 | on every run a pending completion stops being pending iff its own ack arrives or the transmitter is disabled, and is unchanged until then |
| Transmitters.AckedCompletionIsForgotten | Network/messagehandler/transmitters.go:129-145 | once gone, in every continuation a completion is not sent again, its acks do nothing and its timer only ends |
| Transmitters.CompleteTimersOnlyFire | Network/messagehandler/transmitters.go:126-145 | on every run its timer is outstanding from its sending until it fires and finds it pending no more |
| Slave.CanAcceptHallAssignments | node/slave.go:123-134 | accepts iff every assigned call is lit in the global requests |
| Slave.HasChanged | node/slave.go:151-162 | true iff the two request matrices differ |
| Slave.SlaveNode.OnHallAssignments | node/slave.go:76-89 | acks iff acceptable and addressed here; forwards iff also the id is not the last one |
| Slave.SlaveNode.OnGlobalHallRequest | node/slave.go:91-97 | the copy becomes the broadcast one; lights are sent iff it changed; the time of last connection is now and the master timeout is armed |
| Slave.OrdersAreConsistent | node/slave.go:48-97 | on every run a forwarded order assigns only calls lit in its copy, which is the first one or one broadcast; the copy held is the last broadcast |
| Slave.AppliedIsDedup | node/slave.go:15-89 | over every session a slave applies, and orders from its elevator, exactly what it accepts, less each assignment with the id of the accepted one just before it, or 0 at the start |
| Slave.InOrderIffAcceptedInOrder | node/slave.go:85-89 | over every session and for every order of generation, assignments are applied at most once each and in that order iff those accepted, after any leading ones with id 0, come in that order |
| Slave.NothingAppliedIffOnlyZeros | node/slave.go:15-89 | a session applies nothing iff it accepts no id but 0 |
| SlaveElevator.PendingCallsWereLit | node/slave.go:76-97 | on every run of a slave with its elevator, hall calls pending there were lit in the copy sent with the last order taken, which is the first one or one broadcast |
| OrderedCalls.OrderedCallIsServed | singleelevator/elevatorprogram.go:88-125 | on every run of a slave with its elevator, a hall call in an order taken, and in every order taken later, is reported, or its completion lost at the turn, with the door open at its floor within 2(N - 1) further arrivals |
| OrderedCalls.RunsAlone | singleelevator/elevatorprogram.go:88-137 | spelled out step by step, each order as the presses and withdrawals it causes, a run of the session takes the elevator to the same state |
| AssignmentDelivery.NextKeepsInv | Network/messagehandler/transmitters.go:29-72 | sending, losing, duplicating, delivering and acking keep the order of generation for every node |
| AssignmentDelivery.DeliveredInOrder | node/slave.go:76-89 | on every run no older assignment is sent after a newer one, and the slave applies its own at most once and in order |
| AssignmentDelivery.PendingCanBeDelivered | Network/messagehandler/transmitters.go:51-72 | on every run, whatever is lost, what is pending for a slave that can accept it can still be resent, arrive, be acked and leave the map |
| AssignmentDelivery.AckMeansNewestApplied | Network/messagehandler/transmitters.go:66-72 | when an ack empties the slave's entry its last applied assignment is the newest made for it; it has applied none iff the acked id is 0 and it accepted no other |
| AssignmentDelivery.AcceptedIsApplied | node/slave.go:15-89 | on every run every assignment accepted is acked, and it is applied iff its id is not 0 or it is not the first accepted |
| AssignmentDelivery.AnAckedAssignmentIsNotApplied | node/slave.go:15-89 | for every acceptable assignment a run from the start in which it is made with id 0 and acked, its entry emptied, and nothing applied |
| AssignmentDelivery.ReorderingReappliesOldAssignments | node/slave.go:86-89 | an old assignment arriving again after a newer one is applied again |
| CompletionProtocol.NextKeepsInv | Network/messagehandler/transmitters.go:117-145 | every step keeps: rings and acks know a completion only after it took effect, and session completions are pending or took effect |
| CompletionProtocol.NoCompletionForgotten | node/master.go:191-208 | on every run a completion of the session is pending or was applied by a master, and an ack in flight means it was applied |
| CompletionProtocol.PendingGoesOnlyByAck | Network/messagehandler/transmitters.go:110-132 | a pending completion leaves the map only at session end or by its ack, after a master applied it |
| CompletionProtocol.PendingCanBeResent | Network/messagehandler/transmitters.go:133-145 | on every run the timer of a pending completion can fire, which sends it once more and changes nothing else at the transmitter |
| CompletionProtocol.PendingCanBeAcknowledged | node/master.go:191-208 | on every run a pending completion can reach any running master, after which it has taken effect, and its ack ends the wait |
| CompletionProtocol.ClearsAreJustified | node/master.go:108-113 | within a master session a hall bit falls only by its own elevator or by a completion some slave issued for that bit; applying one clears its bit |
| ServedCalls.EveryClearWasServed | node/slave.go:48-61 | on every run of all elevators, slaves and masters, behind every hall request a running master clears is one earlier report of that call, made by the elevator of the node that passed it on (its own, or the one that issued the message) with its cab at the floor, motor off, door open and lamp lit; and for every earlier moment the report was made since iff neither it nor its message was under way then |
| ServedCalls.QuietPressIsServed | node/master.go:191-200 | if at a press no report of the call is queued anywhere, and the clear is not by a message issued before, some cab has reported and served the call since the press |
| ServedCalls.ALateMessageClearsANewPress | node/master.go:191-200 | for every number of floors a run from start-up in which a message issued before a press is the next to arrive and clears it |
| ServedCalls.AllBacked | singleelevator/elevatorprogram.go:90-125 | on every run every completion queued for a node program was reported by that node's elevator at the step it is stamped with, and every message issued has a report of its issuer behind it, node me for its own session |
| Election.ShouldBeMaster | node/disconnected.go:102-118 | the scan decides as defined, whatever order it visits the requests in |
| Election.DisconnectedNode.OnConnectionReq | node/disconnected.go:43-48 | the map holds the last request of every other node |
| Election.CollectedIsLast | node/disconnected.go:43-48 | whatever the nodes send, the last request of each other node is the one held, and none of one's own |
| Election.DisconnectedNode.OnDecisionTimer | node/disconnected.go:50-59 | a node becomes master iff it has heard of someone and wins against all it has heard of |
| Election.ArrivalOrderDoesNotMatter | node/disconnected.go:43-48 | having heard of every other node gives the full view, however often and in whatever order requests came |
| Election.ElectedAre | node/disconnected.go:102-118 | with full views the elected are the greatest id if none was connected, else those connected last |
| Election.SomeoneIsElected | node/disconnected.go:102-118 | with full views at least one node is elected |
| Election.ExactlyOneElected | node/disconnected.go:102-118 | with full views of two or more exactly one is elected iff all times are zero or the latest is unique |
| Election.EqualTimesElectTwo | node/disconnected.go:112-117 | two nodes with the same non-zero time are both elected |
| Election.RivalsShareTime | node/disconnected.go:112-117 | under any partial views two nodes holding each other's requests both win only with equal non-zero times |
| Roles.SwitchesFollowRoles | node/master.go:78-81 | on every run assignment and broadcast transmitters are on only in Master, the completion one only in Slave, and nothing is pending at one outside its role |
| Roles.NoShortcutBetweenSlaveAndMaster | main.go:19-36 | no run goes from Slave to Master or back without passing Disconnected |
| Roles.OnlyThesePassages | main.go:19-36 | on every run a role changes only from Inactive to Disconnected, from Disconnected to any other, and from Master and Slave to Inactive and Disconnected |
| Roles.EachPassageIsPossible | main.go:19-36 | from every reachable role loop each of these passages leads on to the loop of the next role |

## Left out

- Sockets, JSON, reflection and the driver link: the network is a sequence or set of messages, the motor, the door lamp and the timers are fields.
- Button lamps and `SetHallLights`: `RemoveRequest` darkens a lamp independently of the light states, so they do not agree.
- The external hall request assigner and `ComputeHallAssignments`: what is assigned to whom is not part of this model; assignments are arbitrary.
- The zero-valued assignment and global request a master sends when an update holds all nodes (node/master.go:157-176), and the cab request answers.
- `NodeElevStateServer` and `findActiveNodes`: the table of the latest state of each node, and which nodes count as active or lost, are not modelled.
- Door-stuck detection: the stuck timer and its flag are in the state, but no claim is made that a stuck door is reported, because the flag is never cleared.
- The Inactive loop and the timeouts that end roles appear in `Roles` only as the choice of the next role.
- Wall-clock durations other than the throttle of state requests, the time of last connection a leaving master sets, blocking channels, the data race on the shared elevator record, and two equal random ids.
- AssignmentDelivery.AckMeansNewestApplied: covers one transmitter and one slave session; a restarted slave forgets its last id and may apply the pending assignment again.
- MessageBuffer.MessageIDBuffer.Add: a ring of one slot is not modelled, because the source would then write outside it.
