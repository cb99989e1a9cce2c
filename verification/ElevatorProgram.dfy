/** The event loop of one elevator (singleelevator/elevatorprogram.go) with the state-changing shell of
    elevator_fsm/elevator_fsm.go. One object holds the package variable of the state machine, the motor and
    door lamp outputs, the timers, the stuck flag of the loop and the completions sent to the node. */
module ElevatorProgram {
  import opened Elevators
  import opened Requests
  import opened ElevatorFsm

  /** What a hall order asks of floor f and hall button i: take the call, or withdraw it. */
  function SlotEvent(order: HallCalls, f: nat, i: nat): Event
    requires f < |order| && i < 2
  {
    var c := ButtonEvent(f, ButtonAt(i));
    if Lit(order, c) then Press(c) else Remove(c)
  }

  /** The slots of floor f, the up button first. */
  function FloorScript(order: HallCalls, f: nat): seq<Event>
    requires f < |order|
  {
    [SlotEvent(order, f, 0), SlotEvent(order, f, 1)]
  }

  /** All slots of the first k floors. */
  function HallScript(order: HallCalls, k: nat): seq<Event>
    requires k <= |order|
  {
    if k == 0 then [] else HallScript(order, k - 1) + FloorScript(order, k - 1)
  }

  function CabScript(order: seq<bool>, k: nat): seq<Event>
    requires k <= |order|
  {
    if k == 0 then []
    else CabScript(order, k - 1) + (if order[k - 1] then [Press(ButtonEvent(k - 1, Cab))] else [])
  }

  class ElevatorController {
    var elev: Elevator
    var motor: Direction
    var doorLamp: bool
    var doorTimer: bool
    var stuckTimer: bool
    var stuckTimerActive: bool

    function Snapshot(): State
      reads this
    {
      State(elev, motor, doorLamp, doorTimer, stuckTimer, stuckTimerActive)
    }

    constructor (floors: nat)
      ensures Snapshot() == Initial(floors)
    {
      elev := Elevator(-1, Down, Moving, seq(floors, _ => Row(false, false, false)), false);
      motor, doorLamp, doorTimer, stuckTimer, stuckTimerActive := Down, false, false, false, false;
    }

    method OnRequestButtonPress(c: ButtonEvent) returns (events: seq<ButtonEvent>)
      requires 0 <= c.floor < |elev.requests|
      modifies this
      ensures Snapshot() == Step(old(Snapshot()), Press(c))
      ensures events == HandleButtonEvent(old(elev), c).events
    {
      var r := HandleButtonEvent(elev, c);
      if r.resetTimer {
        doorTimer := true;
        doorLamp := true;
      }
      if r.state.behavior == Moving && elev.behavior != Moving {
        motor := r.state.dir;
      }
      elev := r.state;
      events := r.events;
    }

    method RemoveRequest(c: ButtonEvent)
      requires 0 <= c.floor < |elev.requests|
      modifies this
      ensures Snapshot() == old(Snapshot()).(elev := SetRequest(old(elev), c, false))
    {
      elev := SetRequest(elev, c, false);
    }

    method SetObstruction(on: bool)
      modifies this
      ensures Snapshot() == Step(old(Snapshot()), Obstruct(on))
    {
      elev := elev.(obstructed := on);
    }

    method OnFloorArrival(floor: int) returns (events: seq<ButtonEvent>)
      requires 0 <= floor < |elev.requests|
      modifies this
      ensures Snapshot() == Arrived(old(Snapshot()), floor)
      ensures events == ArrivalEvents(old(Snapshot()), floor)
    {
      events := [];
      elev := elev.(floor := floor);
      if elev.behavior == Moving && ShouldStop(elev) {
        motor := Stop;
        doorLamp := true;
        doorTimer := true;
        elev, events := RequestsClearAtCurrentFloor(elev);
        elev := elev.(behavior := DoorOpen);
      }
    }

    method OnDoorTimeout()
      modifies this
      ensures elev == HandleDoorTimeout(old(elev)).state
      ensures motor == if elev.behavior == Moving && old(elev).behavior != Moving then elev.dir else old(motor)
      ensures doorLamp == (old(doorLamp) && !HandleDoorTimeout(old(elev)).stopStuckTimer)
      ensures doorTimer == (old(doorTimer) || HandleDoorTimeout(old(elev)).resetDoorTimer)
      ensures stuckTimerActive == old(stuckTimerActive)
      ensures stuckTimer == (HandleDoorTimeout(old(elev)).resetStuckTimer
                             || (old(stuckTimer) && !HandleDoorTimeout(old(elev)).stopStuckTimer))
    {
      var r := HandleDoorTimeout(elev);
      if r.resetDoorTimer {
        doorTimer := true;
      }
      if r.stopStuckTimer {
        stuckTimer := false;
        doorLamp := false;
      }
      if r.resetStuckTimer {
        stuckTimer := true;
      }
      if r.state.behavior != elev.behavior {
        if r.state.behavior == Moving {
          motor := r.state.dir;
        } else if elev.behavior == DoorOpen && r.state.behavior != DoorOpen {
          doorLamp := false;
        }
      }
      elev := r.state;
    }

    /** The select arm of the door timer, which has just fired. */
    method OnDoorTimer()
      modifies this
      ensures Snapshot() == TimedOut(old(Snapshot()))
    {
      doorTimer := false;
      if !stuckTimerActive {
        stuckTimer := true;
        stuckTimerActive := true;
      }
      OnDoorTimeout();
    }

    /** The select arms below return the completions they send to the node, in order. */
    method OnFloorSensor(floor: int) returns (sent: seq<ButtonEvent>)
      requires 0 <= floor < |elev.requests|
      modifies this
      ensures Snapshot() == Arrived(old(Snapshot()), floor)
      ensures sent == ArrivalEvents(old(Snapshot()), floor)
    {
      var events := OnFloorArrival(floor);
      ClearReportsTheDifference(old(elev).(floor := floor));
      sent := SendHallEvents(events);
      OnlyHallEvents(events);
    }

    method OnCabButton(floor: int) returns (sent: seq<ButtonEvent>)
      requires 0 <= floor < |elev.requests|
      modifies this
      ensures Snapshot() == Step(old(Snapshot()), Press(ButtonEvent(floor, Cab)))
      ensures sent == Reports(old(Snapshot()), Press(ButtonEvent(floor, Cab)))
    {
      var _ := OnRequestButtonPress(ButtonEvent(floor, Cab));
      sent := [];
    }

    /** The body of the nested loop: take or withdraw one hall call. */
    method OnHallSlot(order: HallCalls, floor: int, hallButton: int) returns (sent: seq<ButtonEvent>)
      requires |order| == |elev.requests| && 0 <= floor < |order| && 0 <= hallButton < 2
      modifies this
      ensures Snapshot() == Step(old(Snapshot()), SlotEvent(order, floor, hallButton))
      ensures sent == Reports(old(Snapshot()), SlotEvent(order, floor, hallButton))
    {
      sent := [];
      var c := ButtonEvent(floor, ButtonAt(hallButton));
      if Lit(order, c) {
        var events := OnRequestButtonPress(c);
        sent := SendAtFloor(events, floor);
      } else if !Lit(order, c) && elev.requests[floor].Get(c.button) {
        RemoveRequest(c);
      } else {
        RemoveAbsent(elev, c);
      }
    }

    /** The inner loop over the hall buttons of one floor. */
    method OnHallFloor(order: HallCalls, floor: int) returns (sent: seq<ButtonEvent>)
      requires |order| == |elev.requests| && 0 <= floor < |order|
      modifies this
      ensures Allowed(old(Snapshot()), FloorScript(order, floor))
      ensures Snapshot() == Run(old(Snapshot()), FloorScript(order, floor))
      ensures sent == RunReports(old(Snapshot()), FloorScript(order, floor))
    {
      sent := [];
      for hallButton := 0 to 2
        invariant Allowed(old(Snapshot()), FloorScript(order, floor)[..hallButton])
        invariant Snapshot() == Run(old(Snapshot()), FloorScript(order, floor)[..hallButton])
        invariant sent == RunReports(old(Snapshot()), FloorScript(order, floor)[..hallButton])
      {
        ghost var script := FloorScript(order, floor);
        assert script[..hallButton + 1] == script[..hallButton] + [script[hallButton]];
        RunConcat(old(Snapshot()), script[..hallButton], [SlotEvent(order, floor, hallButton)]);
        RunOne(Snapshot(), SlotEvent(order, floor, hallButton));
        var more := OnHallSlot(order, floor, hallButton);
        sent := sent + more;
      }
      assert FloorScript(order, floor)[..2] == FloorScript(order, floor);
    }

    /** The nested loop over floors and hall buttons that applies a hall order. */
    method OnHallOrder(order: HallCalls) returns (sent: seq<ButtonEvent>)
      requires |order| == |elev.requests|
      modifies this
      ensures Allowed(old(Snapshot()), HallScript(order, |order|))
      ensures Snapshot() == Run(old(Snapshot()), HallScript(order, |order|))
      ensures sent == RunReports(old(Snapshot()), HallScript(order, |order|))
    {
      sent := [];
      for floor := 0 to |order|
        invariant Allowed(old(Snapshot()), HallScript(order, floor))
        invariant Snapshot() == Run(old(Snapshot()), HallScript(order, floor))
        invariant sent == RunReports(old(Snapshot()), HallScript(order, floor))
      {
        RunConcat(old(Snapshot()), HallScript(order, floor), FloorScript(order, floor));
        var more := OnHallFloor(order, floor);
        sent := sent + more;
      }
    }

    method OnCabOrder(order: seq<bool>)
      requires |order| == |elev.requests|
      modifies this
      ensures Allowed(old(Snapshot()), CabScript(order, |order|))
      ensures Snapshot() == Run(old(Snapshot()), CabScript(order, |order|))
    {
      for floor := 0 to |order|
        invariant Allowed(old(Snapshot()), CabScript(order, floor))
        invariant Snapshot() == Run(old(Snapshot()), CabScript(order, floor))
      {
        if order[floor] {
          RunConcat(old(Snapshot()), CabScript(order, floor), [Press(ButtonEvent(floor, Cab))]);
          RunOne(Snapshot(), Press(ButtonEvent(floor, Cab)));
          var _ := OnRequestButtonPress(ButtonEvent(floor, Cab));
        } else {
          assert CabScript(order, floor) + [] == CabScript(order, floor);
        }
      }
    }
  }

  /** The filter of the floor arm: everything but cab events. */
  function HallOnly(events: seq<ButtonEvent>): seq<ButtonEvent> {
    if events == [] then [] else (if events[0].button != Cab then [events[0]] else []) + HallOnly(events[1..])
  }

  method SendHallEvents(events: seq<ButtonEvent>) returns (sent: seq<ButtonEvent>)
    ensures sent == HallOnly(events)
  {
    sent := [];
    for i := 0 to |events|
      invariant sent + HallOnly(events[i..]) == HallOnly(events)
    {
      if events[i].button != Cab {
        sent := sent + [events[i]];
      }
      assert events[i..][1..] == events[i + 1..];
    }
  }

  /** The filter of the hall order arm. */
  method SendAtFloor(events: seq<ButtonEvent>, floor: int) returns (sent: seq<ButtonEvent>)
    ensures sent == AtFloor(events, floor)
  {
    sent := [];
    for i := 0 to |events|
      invariant sent + AtFloor(events[i..], floor) == AtFloor(events, floor)
    {
      if events[i].button != Cab && events[i].floor == floor {
        sent := sent + [events[i]];
      }
      assert events[i..][1..] == events[i + 1..];
    }
  }

  lemma {:induction false} OnlyHallEvents(events: seq<ButtonEvent>)
    requires forall c :: c in events ==> c.button != Cab
    ensures HallOnly(events) == events
  {
    if events != [] {
      OnlyHallEvents(events[1..]);
    }
  }

  /** Withdrawing a call that is not pending changes nothing, which is why the loop may skip it. */
  lemma RemoveAbsent(e: Elevator, c: ButtonEvent)
    requires 0 <= c.floor < |e.requests| && !Pending(e, c)
    ensures SetRequest(e, c, false) == e
  {}
}
