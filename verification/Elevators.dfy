/** The values the elevator controller works on: directions, buttons, the request matrix and the
    elevator record (elevator/elevator_sys.go and the constants of elevator/elevio.go). */
module Elevators {

  datatype Direction = Up | Down | Stop

  datatype Behavior = Idle | DoorOpen | Moving

  datatype Button = HallUp | HallDown | Cab

  /** A button at a floor: both an event and the name of a call. */
  datatype ButtonEvent = ButtonEvent(floor: int, button: Button)

  /** One floor of the request matrix. */
  datatype Row = Row(up: bool, down: bool, cab: bool) {
    predicate Get(b: Button) {
      match b
      case HallUp => up
      case HallDown => down
      case Cab => cab
    }

    function Set(b: Button, v: bool): Row {
      match b
      case HallUp => this.(up := v)
      case HallDown => this.(down := v)
      case Cab => this.(cab := v)
    }

    predicate Any() {
      up || down || cab
    }
  }

  /** The two hall columns of one floor, as nodes exchange them. */
  datatype HallRow = HallRow(up: bool, down: bool)

  type HallCalls = seq<HallRow>

  /** The number of floors is |requests|; floor -1 means that no sensor has reported yet. */
  datatype Elevator = Elevator(
    floor: int, dir: Direction, behavior: Behavior, requests: seq<Row>, obstructed: bool)

  /** The i-th button in the numbering of the source: HallUp 0, HallDown 1, Cab 2. */
  function ButtonAt(i: int): Button
    requires 0 <= i < 3
  {
    if i == 0 then HallUp else if i == 1 then HallDown else Cab
  }

  function Delta(d: Direction): int {
    match d
    case Up => 1
    case Down => -1
    case Stop => 0
  }

  predicate Pending(e: Elevator, c: ButtonEvent) {
    0 <= c.floor < |e.requests| && e.requests[c.floor].Get(c.button)
  }

  predicate Lit(h: HallCalls, c: ButtonEvent) {
    && 0 <= c.floor < |h|
    && ((c.button == HallUp && h[c.floor].up) || (c.button == HallDown && h[c.floor].down))
  }

  function SetLit(h: HallCalls, c: ButtonEvent, v: bool): (r: HallCalls)
    requires 0 <= c.floor < |h| && c.button != Cab
    ensures |r| == |h|
    ensures forall d: ButtonEvent :: Lit(r, d) <==> (if d == c then v else Lit(h, d))
  {
    if c.button == HallUp then h[c.floor := h[c.floor].(up := v)] else h[c.floor := h[c.floor].(down := v)]
  }

  predicate KnownFloor(e: Elevator) {
    0 <= e.floor < |e.requests|
  }

  function SetRequest(e: Elevator, c: ButtonEvent, v: bool): (r: Elevator)
    requires 0 <= c.floor < |e.requests|
    ensures r == e.(requests := r.requests) && |r.requests| == |e.requests|
    ensures forall d: ButtonEvent :: Pending(r, d) <==> (if d == c then v else Pending(e, d))
  {
    e.(requests := e.requests[c.floor := e.requests[c.floor].Set(c.button, v)])
  }

  lemma Concat3<T>(a: seq<T>, b: seq<T>, c: seq<T>)
    ensures a + b + c == a + (b + c)
  {}
}
