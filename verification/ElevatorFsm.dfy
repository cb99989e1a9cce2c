/** The transition functions of one elevator (elevator_fsm/elevator_fsm.go) as steps of a state machine:
    the controller record together with the last motor command, the door lamp and the two timers. */
module ElevatorFsm {
  import opened Elevators
  import opened Requests

  datatype ButtonResult = ButtonResult(state: Elevator, events: seq<ButtonEvent>, resetTimer: bool)

  datatype TimeoutResult = TimeoutResult(
    state: Elevator, resetDoorTimer: bool, stopStuckTimer: bool, resetStuckTimer: bool)

  function HandleButtonEvent(e: Elevator, c: ButtonEvent): (r: ButtonResult)
    requires 0 <= c.floor < |e.requests|
    ensures |r.state.requests| == |e.requests|
  {
    match e.behavior
    case DoorOpen =>
      if ShouldClearImmediately(e, c) then
        ButtonResult(e, if c.button != Cab then [c] else [], true)
      else
        ButtonResult(SetRequest(e, c, true), [], false)
    case Moving =>
      ButtonResult(SetRequest(e, c, true), [], false)
    case Idle =>
      var pressed := SetRequest(e, c, true);
      var (dir, behavior) := ChooseDirection(pressed);
      var next := pressed.(dir := dir, behavior := behavior);
      if behavior == DoorOpen then
        ButtonResult(Cleared(next), ClearedEvents(next), true)
      else
        ButtonResult(next, [], false)
  }

  function HandleDoorTimeout(e: Elevator): (r: TimeoutResult)
    ensures |r.state.requests| == |e.requests|
  {
    if e.behavior != DoorOpen then TimeoutResult(e, false, false, false)
    else if e.obstructed then TimeoutResult(e, true, false, false)
    else
      var (dir, behavior) := ChooseDirection(e);
      var next := e.(dir := dir, behavior := behavior);
      if behavior == DoorOpen then TimeoutResult(Cleared(next), true, true, true)
      else TimeoutResult(next, false, true, false)
  }

  /** The hall events that HandleDoorTimeout computes and throws away. */
  function DiscardedEvents(e: Elevator): seq<ButtonEvent> {
    if e.behavior == DoorOpen && !e.obstructed && ChooseDirection(e).1 == DoorOpen
    then ClearedEvents(e.(dir := ChooseDirection(e).0, behavior := DoorOpen))
    else []
  }

  datatype State = State(
    elev: Elevator, motor: Direction, doorLamp: bool, doorTimer: bool, stuckTimer: bool, stuckTimerActive: bool)

  datatype Event =
    | Press(call: ButtonEvent)
    | Remove(call: ButtonEvent)
    | Arrive(floor: int)
    | Obstruct(on: bool)
    | DoorTimeout

  /** Buttons and orders name real floors, only hall requests are withdrawn, the sensor reports real floors,
      and a moving cab with a known floor reaches the neighbouring one next. A standing cab can at most be
      reported where it stands. A door timeout needs an armed timer. */
  predicate Enabled(s: State, ev: Event) {
    match ev
    case Press(c) => 0 <= c.floor < |s.elev.requests|
    case Remove(c) => 0 <= c.floor < |s.elev.requests| && c.button != Cab
    case Arrive(f) =>
      && 0 <= f < |s.elev.requests|
      && (if s.elev.behavior != Moving then f == s.elev.floor
          else if s.elev.floor < 0 then true
          else f == s.elev.floor + Delta(s.elev.dir))
    case Obstruct(_) => true
    case DoorTimeout => s.doorTimer
  }

  function Pressed(s: State, c: ButtonEvent): State
    requires 0 <= c.floor < |s.elev.requests|
  {
    var r := HandleButtonEvent(s.elev, c);
    s.(elev := r.state,
       motor := if r.state.behavior == Moving && s.elev.behavior != Moving then r.state.dir else s.motor,
       doorLamp := s.doorLamp || r.resetTimer,
       doorTimer := s.doorTimer || r.resetTimer)
  }

  function Arrived(s: State, f: int): State
    requires 0 <= f < |s.elev.requests|
  {
    var here := s.elev.(floor := f);
    if here.behavior == Moving && ShouldStop(here) then
      s.(elev := Cleared(here).(behavior := DoorOpen), motor := Stop, doorLamp := true, doorTimer := true)
    else
      s.(elev := here)
  }

  /** The timer arm of the event loop: arm the stuck timer the first time ever, then handle the timeout. */
  function TimedOut(s: State): State {
    var r := HandleDoorTimeout(s.elev);
    s.(elev := r.state,
       motor := if r.state.behavior == Moving && s.elev.behavior != Moving then r.state.dir else s.motor,
       doorLamp := s.doorLamp && !r.stopStuckTimer,
       doorTimer := r.resetDoorTimer,
       stuckTimer := r.resetStuckTimer || ((s.stuckTimer || !s.stuckTimerActive) && !r.stopStuckTimer),
       stuckTimerActive := true)
  }

  function Step(s: State, ev: Event): (r: State)
    requires Enabled(s, ev)
    ensures |r.elev.requests| == |s.elev.requests|
  {
    match ev
    case Press(c) => Pressed(s, c)
    case Remove(c) => s.(elev := SetRequest(s.elev, c, false))
    case Arrive(f) => Arrived(s, f)
    case Obstruct(on) => s.(elev := s.elev.(obstructed := on))
    case DoorTimeout => TimedOut(s)
  }

  /** The completions the event loop sends to its node for a step. A cab button's events are ignored, and a
      hall order keeps only events at the ordered floor. */
  function Reports(s: State, ev: Event): seq<ButtonEvent>
    requires Enabled(s, ev)
  {
    match ev
    case Press(c) => if c.button == Cab then [] else AtFloor(HandleButtonEvent(s.elev, c).events, c.floor)
    case Arrive(f) => ArrivalEvents(s, f)
    case _ => []
  }

  function ArrivalEvents(s: State, f: int): seq<ButtonEvent>
    requires 0 <= f < |s.elev.requests|
  {
    var here := s.elev.(floor := f);
    if here.behavior == Moving && ShouldStop(here) then ClearedEvents(here) else []
  }

  function AtFloor(events: seq<ButtonEvent>, f: int): seq<ButtonEvent> {
    if events == [] then []
    else (if events[0].button != Cab && events[0].floor == f then [events[0]] else []) + AtFloor(events[1..], f)
  }

  /** The state InitFSM leaves: driving down with no known floor, both timers stopped, the lamp off. */
  function Initial(n: nat): State {
    State(Elevator(-1, Down, Moving, seq(n, _ => Row(false, false, false)), false), Down, false, false, false, false)
  }

  predicate Allowed(s: State, evs: seq<Event>)
    decreases |evs|
  {
    evs == [] || (Enabled(s, evs[0]) && Allowed(Step(s, evs[0]), evs[1..]))
  }

  function Run(s: State, evs: seq<Event>): (r: State)
    requires Allowed(s, evs)
    ensures |r.elev.requests| == |s.elev.requests|
    decreases |evs|
  {
    if evs == [] then s else Run(Step(s, evs[0]), evs[1..])
  }

  function RunReports(s: State, evs: seq<Event>): seq<ButtonEvent>
    requires Allowed(s, evs)
    decreases |evs|
  {
    if evs == [] then [] else Reports(s, evs[0]) + RunReports(Step(s, evs[0]), evs[1..])
  }

  lemma RunOne(s: State, ev: Event)
    ensures Allowed(s, [ev]) <==> Enabled(s, ev)
    ensures Enabled(s, ev) ==> Run(s, [ev]) == Step(s, ev) && RunReports(s, [ev]) == Reports(s, ev)
  {}

  /** A run in two parts. */
  lemma {:induction false} RunConcat(s: State, a: seq<Event>, b: seq<Event>)
    requires Allowed(s, a)
    ensures Allowed(s, a + b) <==> Allowed(Run(s, a), b)
    ensures Allowed(Run(s, a), b) ==>
      && Run(s, a + b) == Run(Run(s, a), b)
      && RunReports(s, a + b) == RunReports(s, a) + RunReports(Run(s, a), b)
    decreases |a|
  {
    if a == [] {
      assert a + b == b;
    } else {
      assert (a + b)[0] == a[0] && (a + b)[1..] == a[1..] + b;
      var t := Step(s, a[0]);
      RunConcat(t, a[1..], b);
      if Allowed(Run(s, a), b) {
        Concat3(Reports(s, a[0]), RunReports(t, a[1..]), RunReports(Run(s, a), b));
      }
    }
  }

  /** A run of two steps. */
  lemma TwoSteps(t: State, a: Event, b: Event)
    requires Enabled(t, a) && Enabled(Step(t, a), b)
    ensures Allowed(t, [a, b]) && Run(t, [a, b]) == Step(Step(t, a), b)
    ensures RunReports(t, [a, b]) == Reports(t, a) + Reports(Step(t, a), b)
  {
    RunOne(t, a);
    RunOne(Step(t, a), b);
    RunConcat(t, [a], [b]);
    assert [a] + [b] == [a, b];
  }
}
