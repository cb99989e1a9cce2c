/** The scheduling policy (elevator/requests.go): which way to go, when to stop and what a stop clears. */
module Requests {
  import opened Elevators

  predicate HasAbove(e: Elevator) {
    KnownFloor(e) && exists f :: e.floor < f < |e.requests| && e.requests[f].Any()
  }

  predicate HasBelow(e: Elevator) {
    KnownFloor(e) && exists f :: 0 <= f < e.floor && e.requests[f].Any()
  }

  predicate HasHere(e: Elevator) {
    KnownFloor(e) && e.requests[e.floor].Any()
  }

  method RequestsAbove(e: Elevator) returns (r: bool)
    ensures r == HasAbove(e)
  {
    if e.floor < 0 || e.floor >= |e.requests| {
      return false;
    }
    for floor := e.floor + 1 to |e.requests|
      invariant forall f :: e.floor < f < floor ==> !e.requests[f].Any()
    {
      for btn := 0 to 3
        invariant forall i :: 0 <= i < btn ==> !e.requests[floor].Get(ButtonAt(i))
      {
        if e.requests[floor].Get(ButtonAt(btn)) {
          return true;
        }
      }
      NoButton(e.requests[floor]);
    }
    return false;
  }

  method RequestsBelow(e: Elevator) returns (r: bool)
    ensures r == HasBelow(e)
  {
    if e.floor < 0 || e.floor >= |e.requests| {
      return false;
    }
    for floor := 0 to e.floor
      invariant forall f :: 0 <= f < floor ==> !e.requests[f].Any()
    {
      for btn := 0 to 3
        invariant forall i :: 0 <= i < btn ==> !e.requests[floor].Get(ButtonAt(i))
      {
        if e.requests[floor].Get(ButtonAt(btn)) {
          return true;
        }
      }
      NoButton(e.requests[floor]);
    }
    return false;
  }

  method RequestsHere(e: Elevator) returns (r: bool)
    ensures r == HasHere(e)
  {
    if e.floor < 0 || e.floor >= |e.requests| {
      return false;
    }
    for btn := 0 to 3
      invariant forall i :: 0 <= i < btn ==> !e.requests[e.floor].Get(ButtonAt(i))
    {
      if e.requests[e.floor].Get(ButtonAt(btn)) {
        return true;
      }
    }
    NoButton(e.requests[e.floor]);
    return false;
  }

  lemma NoButton(r: Row)
    requires forall i :: 0 <= i < 3 ==> !r.Get(ButtonAt(i))
    ensures !r.Any()
  {
    assert !r.Get(ButtonAt(0)) && !r.Get(ButtonAt(1)) && !r.Get(ButtonAt(2));
  }

  function ChooseDirection(e: Elevator): (Direction, Behavior) {
    match e.dir
    case Up =>
      if HasAbove(e) then (Up, Moving)
      else if HasHere(e) then (Down, DoorOpen)
      else if HasBelow(e) then (Down, Moving)
      else (Stop, Idle)
    case Down =>
      if HasBelow(e) then (Down, Moving)
      else if HasHere(e) then (Up, DoorOpen)
      else if HasAbove(e) then (Up, Moving)
      else (Stop, Idle)
    case Stop =>
      if HasHere(e) then (Stop, DoorOpen)
      else if HasAbove(e) then (Up, Moving)
      else if HasBelow(e) then (Down, Moving)
      else (Stop, Idle)
  }

  predicate ShouldStop(e: Elevator)
    requires KnownFloor(e)
  {
    match e.dir
    case Down => e.requests[e.floor].down || e.requests[e.floor].cab || !HasBelow(e)
    case Up => e.requests[e.floor].up || e.requests[e.floor].cab || !HasAbove(e)
    case Stop => true
  }

  predicate ShouldClearImmediately(e: Elevator, c: ButtonEvent) {
    && e.floor == c.floor
    && (|| (e.dir == Up && c.button == HallUp)
        || (e.dir == Down && c.button == HallDown)
        || e.dir == Stop
        || c.button == Cab)
  }

  /** A stop serves the hall button of its direction; the opposite one only where the cab turns. */
  predicate ServesHall(e: Elevator, b: Button) {
    match b
    case HallUp => e.dir == Up || e.dir == Stop || !HasBelow(e)
    case HallDown => e.dir == Down || e.dir == Stop || !HasAbove(e)
    case Cab => false
  }

  /** The elevator after a stop has cleared what it serves here. */
  function Cleared(e: Elevator): (r: Elevator)
    ensures r == e.(requests := r.requests) && |r.requests| == |e.requests|
  {
    if !KnownFloor(e) then e else
    var row := e.requests[e.floor];
    var rest := Row(row.up && !ServesHall(e, HallUp), row.down && !ServesHall(e, HallDown), false);
    e.(requests := e.requests[e.floor := rest])
  }

  function HallEvent(e: Elevator, b: Button): seq<ButtonEvent>
    requires KnownFloor(e)
  {
    if e.requests[e.floor].Get(b) && ServesHall(e, b) then [ButtonEvent(e.floor, b)] else []
  }

  /** The hall calls a stop reports, the one in the direction of travel first. */
  function ClearedEvents(e: Elevator): seq<ButtonEvent> {
    if !KnownFloor(e) then []
    else if e.dir == Down then HallEvent(e, HallDown) + HallEvent(e, HallUp)
    else HallEvent(e, HallUp) + HallEvent(e, HallDown)
  }

  method RequestsClearAtCurrentFloor(e: Elevator) returns (r: Elevator, events: seq<ButtonEvent>)
    ensures r == Cleared(e) && events == ClearedEvents(e)
  {
    r, events := e, [];
    if e.floor < 0 || e.floor >= |e.requests| {
      return;
    }
    r := SetRequest(r, ButtonEvent(r.floor, Cab), false);
    match e.dir {
      case Up =>
        if r.requests[r.floor].up {
          r := SetRequest(r, ButtonEvent(r.floor, HallUp), false);
          events := events + [ButtonEvent(r.floor, HallUp)];
        }
        var above := RequestsAbove(r);
        SameElsewhere(e, r);
        if !above && !r.requests[r.floor].up && r.requests[r.floor].down {
          r := SetRequest(r, ButtonEvent(r.floor, HallDown), false);
          events := events + [ButtonEvent(r.floor, HallDown)];
        }
      case Down =>
        if r.requests[r.floor].down {
          r := SetRequest(r, ButtonEvent(r.floor, HallDown), false);
          events := events + [ButtonEvent(r.floor, HallDown)];
        }
        var below := RequestsBelow(r);
        SameElsewhere(e, r);
        if !below && !r.requests[r.floor].down && r.requests[r.floor].up {
          r := SetRequest(r, ButtonEvent(r.floor, HallUp), false);
          events := events + [ButtonEvent(r.floor, HallUp)];
        }
      case Stop =>
        if r.requests[r.floor].up {
          r := SetRequest(r, ButtonEvent(r.floor, HallUp), false);
          events := events + [ButtonEvent(r.floor, HallUp)];
        }
        if r.requests[r.floor].down {
          r := SetRequest(r, ButtonEvent(r.floor, HallDown), false);
          events := events + [ButtonEvent(r.floor, HallDown)];
        }
    }
  }

  /** Calls at other floors decide what lies above and below. */
  lemma SameElsewhere(e: Elevator, r: Elevator)
    requires KnownFloor(e) && r.floor == e.floor && |r.requests| == |e.requests|
    requires forall f :: 0 <= f < |e.requests| && f != e.floor ==> r.requests[f] == e.requests[f]
    ensures HasAbove(r) == HasAbove(e) && HasBelow(r) == HasBelow(e)
  {}

  ghost predicate Distinct<T>(s: seq<T>) {
    forall i, j :: 0 <= i < j < |s| ==> s[i] != s[j]
  }

  /** A stop reports exactly the hall calls it takes out of the matrix, each once and never a cab call;
      it adds nothing, and every other floor keeps its calls. It always serves the direction of travel; where
      the cab can go no further that way nothing is left here, and while calls lie ahead the opposite hall
      call stays. */
  lemma ClearReportsTheDifference(e: Elevator)
    ensures Distinct(ClearedEvents(e))
    ensures forall c: ButtonEvent ::
      c in ClearedEvents(e) <==> c.button != Cab && Pending(e, c) && !Pending(Cleared(e), c)
    ensures forall c: ButtonEvent :: Pending(Cleared(e), c) ==> Pending(e, c)
    ensures forall c: ButtonEvent :: c.floor != e.floor ==> Pending(Cleared(e), c) == Pending(e, c)
    ensures !Pending(Cleared(e), ButtonEvent(e.floor, Cab))
    ensures e.dir == Up ==> !Pending(Cleared(e), ButtonEvent(e.floor, HallUp))
    ensures e.dir == Down ==> !Pending(Cleared(e), ButtonEvent(e.floor, HallDown))
    ensures e.dir == Stop || (e.dir == Up && !HasAbove(e)) || (e.dir == Down && !HasBelow(e)) ==> !HasHere(Cleared(e))
    ensures e.dir == Up && HasAbove(e) ==>
      Pending(Cleared(e), ButtonEvent(e.floor, HallDown)) == Pending(e, ButtonEvent(e.floor, HallDown))
    ensures e.dir == Down && HasBelow(e) ==>
      Pending(Cleared(e), ButtonEvent(e.floor, HallUp)) == Pending(e, ButtonEvent(e.floor, HallUp))
  {}
}
