/** Termination: without new presses and obstructions the elevator serves everything and comes to rest, within
    a number of arrivals and door timeouts that depends only on the number of floors. */
module Settling {
  import opened Elevators
  import opened Requests
  import opened ElevatorFsm
  import opened ElevatorSafety
  import opened BoundedWaiting

  /** A floor arrival of the moving cab or a door timeout. */
  predicate IsMove(s: State, ev: Event) {
    IsArrival(s, ev) || ev.DoorTimeout?
  }

  /** A run without presses and obstruction changes: moves, interleaved with withdrawals. */
  predicate Calm(s: State, evs: seq<Event>)
    requires Allowed(s, evs)
    decreases |evs|
  {
    evs == [] || ((IsMove(s, evs[0]) || evs[0].Remove?) && Calm(Step(s, evs[0]), evs[1..]))
  }

  function Moves(s: State, evs: seq<Event>): nat
    requires Allowed(s, evs)
    decreases |evs|
  {
    if evs == [] then 0 else (if IsMove(s, evs[0]) then 1 else 0) + Moves(Step(s, evs[0]), evs[1..])
  }

  ghost predicate AllWithin(s: State, w: nat) {
    forall c: ButtonEvent :: Pending(s.elev, c) ==> Potential(s, c) <= w
  }

  /** The measure: first how far the farthest call still is, then what the open door has left to do. */
  ghost function Budget(s: State, w: nat): nat {
    match s.elev.behavior
    case Idle => 0
    case Moving => if NoCalls(s.elev) then 2 else 3 * w
    case DoorOpen => if NoCalls(s.elev) then 1 else if HasHere(s.elev) then 3 * w + 2 else 3 * w + 1
  }

  lemma FarCalls(s: State, w: nat)
    requires Inv(s) && Known(s) && AllWithin(s, w) && s.elev.behavior == Moving && !NoCalls(s.elev)
    ensures w >= 1
  {}

  lemma CallsStayWithin(s: State, ev: Event, w: nat) returns (v: nat)
    requires Inv(s) && Known(s) && AllWithin(s, w) && Enabled(s, ev) && (IsMove(s, ev) || ev.Remove?)
    requires s.elev.behavior != Idle
    ensures v == if IsArrival(s, ev) && w > 0 then w - 1 else w
    ensures AllWithin(Step(s, ev), v)
    ensures forall c: ButtonEvent :: Pending(Step(s, ev).elev, c) ==> Pending(s.elev, c)
  {
    v := if IsArrival(s, ev) && w > 0 then w - 1 else w;
    forall c: ButtonEvent | Pending(Step(s, ev).elev, c)
      ensures Pending(s.elev, c) && Potential(Step(s, ev), c) <= v
    {
      MovesAddNothing(s, ev, c);
      PotentialStep(s, ev, c);
    }
  }

  lemma MovesAddNothing(s: State, ev: Event, c: ButtonEvent)
    requires Inv(s) && Enabled(s, ev) && (IsMove(s, ev) || ev.Remove?) && Pending(Step(s, ev).elev, c)
    ensures Pending(s.elev, c) && ev != Remove(c)
  {}

  /** A door that opens again by itself leaves nothing behind at this floor. */
  lemma ReopeningClearsFloor(s: State)
    requires Inv(s) && s.doorTimer && Known(s)
    requires Step(s, DoorTimeout).elev.behavior == DoorOpen && !s.elev.obstructed
    ensures HasHere(s.elev) && !HasHere(Step(s, DoorTimeout).elev)
  {
    var e := s.elev;
    assert e.dir == Up ==> ShouldClearImmediately(e, ButtonEvent(e.floor, HallUp));
    assert e.dir == Down ==> ShouldClearImmediately(e, ButtonEvent(e.floor, HallDown));
    assert ShouldClearImmediately(e, ButtonEvent(e.floor, Cab));
    assert e.dir == Stop ==> !Pending(e, ButtonEvent(e.floor, HallUp)) && !Pending(e, ButtonEvent(e.floor, HallDown));
  }

  lemma HereHasButton(e: Elevator)
    ensures HasHere(e) ==> exists b :: Pending(e, ButtonEvent(e.floor, b))
  {
    if HasHere(e) {
      var f := e.floor;
      assert Pending(e, ButtonEvent(f, Cab)) || Pending(e, ButtonEvent(f, HallUp))
          || Pending(e, ButtonEvent(f, HallDown));
    }
  }

  lemma MoveSpendsBudget(s: State, ev: Event, w: nat) returns (v: nat)
    requires Inv(s) && Known(s) && AllWithin(s, w) && Enabled(s, ev) && (IsMove(s, ev) || ev.Remove?)
    requires !s.elev.obstructed
    ensures AllWithin(Step(s, ev), v)
    ensures Budget(Step(s, ev), v) + (if IsMove(s, ev) then 1 else 0) <= Budget(s, w)
  {
    var t := Step(s, ev);
    if s.elev.behavior == Idle {
      assert forall c: ButtonEvent :: Pending(t.elev, c) ==> Pending(s.elev, c);
      return w;
    }
    v := CallsStayWithin(s, ev, w);
    if s.elev.behavior == Moving && !NoCalls(s.elev) {
      FarCalls(s, w);
    }
    match ev
    case Remove(_) =>
      assert NoCalls(s.elev) ==> NoCalls(t.elev);
      assert HasHere(t.elev) ==>
        exists b :: Pending(t.elev, ButtonEvent(t.elev.floor, b)) by { HereHasButton(t.elev); }
    case Arrive(f) =>
      if NoCalls(s.elev) {
        NothingAhead(s.elev, s.elev.(floor := f));
      }
    case DoorTimeout =>
      if NoCalls(s.elev) {
        NothingAhead(s.elev, s.elev);
      }
      if t.elev.behavior == DoorOpen {
        ReopeningClearsFloor(s);
      }
  }

  lemma NothingAhead(e: Elevator, here: Elevator)
    requires NoCalls(e) && here.requests == e.requests
    ensures !HasAbove(here) && !HasBelow(here) && !HasHere(here)
  {
    forall f | 0 <= f < |e.requests|
      ensures !e.requests[f].Any()
    {
      assert !Pending(e, ButtonEvent(f, HallUp)) && !Pending(e, ButtonEvent(f, HallDown));
      assert !Pending(e, ButtonEvent(f, Cab));
    }
  }

  lemma {:induction false} MovesWithinBudget(s: State, evs: seq<Event>, w: nat)
    requires Inv(s) && Known(s) && AllWithin(s, w) && !s.elev.obstructed
    requires Allowed(s, evs) && Calm(s, evs)
    ensures Moves(s, evs) <= Budget(s, w)
    decreases |evs|
  {
    if evs != [] {
      StepKeepsInv(s, evs[0]);
      var v := MoveSpendsBudget(s, evs[0], w);
      KnownStays(s, evs[0]);
      MovesWithinBudget(Step(s, evs[0]), evs[1..], v);
    }
  }

  lemma KnownStays(s: State, ev: Event)
    requires Inv(s) && Known(s) && Enabled(s, ev) && (IsMove(s, ev) || ev.Remove?)
    ensures Known(Step(s, ev)) && Step(s, ev).elev.obstructed == s.elev.obstructed
  {}

  lemma StartBudget(s: State)
    requires Inv(s) && Known(s)
    ensures AllWithin(s, 2 * (|s.elev.requests| - 1))
    ensures Budget(s, 2 * (|s.elev.requests| - 1)) <= 6 * (|s.elev.requests| - 1) + 2
  {}

  /** From any reachable state with a known floor, every calm run makes at most 6 * (N - 1) + 2 moves,
      however many calls are outstanding. */
  lemma CalmRunsAreShort(s: State, evs: seq<Event>)
    requires Inv(s) && Known(s) && !s.elev.obstructed && Allowed(s, evs) && Calm(s, evs)
    ensures Moves(s, evs) <= 6 * (|s.elev.requests| - 1) + 2
  {
    StartBudget(s);
    MovesWithinBudget(s, evs, 2 * (|s.elev.requests| - 1));
  }

  /** The move the elevator is waiting for; none is left exactly when it is Idle. */
  function NextMove(s: State): Event {
    if s.elev.behavior != Moving then DoorTimeout
    else if s.elev.floor < 0 then Arrive(0)
    else Arrive(s.elev.floor + Delta(s.elev.dir))
  }

  lemma NeverStuck(s: State)
    requires Inv(s)
    ensures s.elev.behavior != Idle ==> Enabled(s, NextMove(s)) && IsMove(s, NextMove(s))
    ensures s.elev.behavior == Idle ==> NoCalls(s.elev) && s.elev.dir == Stop
    ensures s.elev.behavior == Idle ==> forall ev :: Enabled(s, ev) ==> !IsMove(s, ev)
  {}

  /** Only moves: nothing is pressed, withdrawn or obstructed. */
  predicate JustMoves(s: State, evs: seq<Event>)
    requires Allowed(s, evs)
    decreases |evs|
  {
    evs == [] || (IsMove(s, evs[0]) && JustMoves(Step(s, evs[0]), evs[1..]))
  }

  lemma {:induction false} JustMovesAreCalm(s: State, evs: seq<Event>)
    requires Allowed(s, evs) && JustMoves(s, evs)
    ensures Calm(s, evs) && Moves(s, evs) == |evs|
    decreases |evs|
  {
    if evs != [] {
      JustMovesAreCalm(Step(s, evs[0]), evs[1..]);
    }
  }

  ghost predicate AtRest(s: State) {
    s.elev.behavior == Idle && s.elev.dir == Stop && NoCalls(s.elev)
  }

  ghost predicate CannotMove(s: State) {
    forall ev :: Enabled(s, ev) ==> !IsMove(s, ev)
  }

  /** From every reachable state without obstruction: letting the cab arrive and the door time out can go on for at
      most 6 * (N - 1) + 3 moves, and when no further move is possible, and only then, the elevator is at rest with an
      empty request matrix. The extra move finds the floor during start-up. */
  lemma MovesLeadToRest(s: State, evs: seq<Event>)
    requires Inv(s) && !s.elev.obstructed && Allowed(s, evs) && JustMoves(s, evs)
    ensures |evs| <= 6 * (|s.elev.requests| - 1) + 3
    ensures CannotMove(Run(s, evs)) <==> AtRest(Run(s, evs))
  {
    JustMovesAreCalm(s, evs);
    RunKeepsInv(s, evs);
    NeverStuck(Run(s, evs));
    if Known(s) {
      CalmRunsAreShort(s, evs);
    } else if evs != [] {
      StepKeepsInv(s, evs[0]);
      CalmRunsAreShort(Step(s, evs[0]), evs[1..]);
    }
  }

  lemma {:induction false} Append(s: State, evs: seq<Event>, ev: Event)
    requires Allowed(s, evs) && JustMoves(s, evs) && Enabled(Run(s, evs), ev) && IsMove(Run(s, evs), ev)
    ensures Allowed(s, evs + [ev]) && JustMoves(s, evs + [ev])
    decreases |evs|
  {
    assert (evs + [ev])[0] == (if evs == [] then ev else evs[0]);
    if evs == [] {
      assert [ev][1..] == [] && evs + [ev] == [ev];
    } else {
      assert (evs + [ev])[1..] == evs[1..] + [ev];
      Append(Step(s, evs[0]), evs[1..], ev);
    }
  }

  /** Moves alone lead from s to rest. */
  ghost predicate ComesToRest(s: State, evs: seq<Event>) {
    Allowed(s, evs) && JustMoves(s, evs) && AtRest(Run(s, evs))
  }

  lemma {:induction false} KeepMoving(s: State, evs: seq<Event>) returns (all: seq<Event>)
    requires Inv(s) && !s.elev.obstructed && Allowed(s, evs) && JustMoves(s, evs)
    ensures ComesToRest(s, all) && evs <= all
    decreases 6 * |s.elev.requests| - |evs|
  {
    MovesLeadToRest(s, evs);
    var t := Run(s, evs);
    if AtRest(t) {
      return evs;
    }
    RunKeepsInv(s, evs);
    NeverStuck(t);
    Append(s, evs, NextMove(t));
    all := KeepMoving(s, evs + [NextMove(t)]);
  }

  /** Rest is reached: every run of moves from a reachable state without obstruction can be continued by moves alone
      until the elevator is at rest. */
  lemma Settles(s: State, evs: seq<Event>)
    requires Inv(s) && !s.elev.obstructed && Allowed(s, evs) && JustMoves(s, evs)
    ensures exists all :: evs <= all && ComesToRest(s, all) && |all| <= 6 * (|s.elev.requests| - 1) + 3
  {
    var all := KeepMoving(s, evs);
    MovesLeadToRest(s, all);
  }
}
