/** What each event does to one elevator, in every reachable state, said in terms of the pending calls alone: when the
    cab stops, which way it goes on, what it serves, and what stays as it is. */
module Outcomes {
  import opened Elevators
  import opened Requests
  import opened ElevatorFsm
  import opened ElevatorSafety
  import opened HallOrders

  ghost predicate CallAbove(e: Elevator, f: int) {
    exists c: ButtonEvent :: Pending(e, c) && c.floor > f
  }

  ghost predicate CallBelow(e: Elevator, f: int) {
    exists c: ButtonEvent :: Pending(e, c) && c.floor < f
  }

  /** Some call lies further on in the direction of travel. */
  ghost predicate CallAhead(e: Elevator, f: int) {
    if e.dir == Up then CallAbove(e, f) else CallBelow(e, f)
  }

  predicate GoesTheWay(b: Button, d: Direction) {
    (b == HallUp && d == Up) || (b == HallDown && d == Down)
  }

  lemma AnyIsACall(e: Elevator, f: int)
    requires 0 <= f < |e.requests|
    ensures e.requests[f].Any() <==> exists c: ButtonEvent :: Pending(e, c) && c.floor == f
  {
    var row := e.requests[f];
    assert row.up ==> Pending(e, ButtonEvent(f, HallUp));
    assert row.down ==> Pending(e, ButtonEvent(f, HallDown));
    assert row.cab ==> Pending(e, ButtonEvent(f, Cab));
  }

  lemma ScansAreCalls(e: Elevator)
    requires KnownFloor(e)
    ensures HasAbove(e) <==> CallAbove(e, e.floor)
    ensures HasBelow(e) <==> CallBelow(e, e.floor)
    ensures HasHere(e) <==> exists c: ButtonEvent :: Pending(e, c) && c.floor == e.floor
  {
    forall f | 0 <= f < |e.requests|
      ensures e.requests[f].Any() <==> exists c: ButtonEvent :: Pending(e, c) && c.floor == f
    {
      AnyIsACall(e, f);
    }
  }

  // Arrivals.

  /** A cab driving in direction e.dir has reason to stop at f: somebody to let out, somebody to take along, or nothing
      left further on. */
  ghost predicate StopsAt(e: Elevator, f: int) {
    || Pending(e, ButtonEvent(f, Cab))
    || (exists b :: GoesTheWay(b, e.dir) && Pending(e, ButtonEvent(f, b)))
    || !CallAhead(e, f)
  }

  /** A stop at f serves call d: everything there if the cab can turn, else all but the hall call the other way. */
  ghost predicate StopServes(e: Elevator, f: int, d: ButtonEvent) {
    d.floor == f && Pending(e, d) && (d.button == Cab || GoesTheWay(d.button, e.dir) || !CallAhead(e, f))
  }

  lemma StopDecision(s: State, f: int)
    requires Inv(s) && Enabled(s, Arrive(f)) && s.elev.behavior == Moving
    ensures ShouldStop(s.elev.(floor := f)) <==> StopsAt(s.elev, f)
    ensures var here := s.elev.(floor := f);
      CallAhead(s.elev, f) <==> if s.elev.dir == Up then HasAbove(here) else HasBelow(here)
  {
    var here := s.elev.(floor := f);
    ScansAreCalls(here);
    assert forall c: ButtonEvent :: Pending(here, c) == Pending(s.elev, c);
    assert Pending(s.elev, ButtonEvent(f, HallUp)) == s.elev.requests[f].up;
    assert Pending(s.elev, ButtonEvent(f, HallDown)) == s.elev.requests[f].down;
    assert GoesTheWay(HallUp, Up) && GoesTheWay(HallDown, Down);
  }

  /** Where a moving cab arrives: it stops exactly for a reason, serves exactly what a stop serves there, reports the
      hall calls among it, the one in the direction of travel first, and otherwise drives on as it was. */
  lemma ArriveOutcome(s: State, f: int)
    requires Inv(s) && Enabled(s, Arrive(f)) && s.elev.behavior == Moving
    ensures var t, stops := Step(s, Arrive(f)), StopsAt(s.elev, f);
      && t == s.(elev := t.elev, motor := if stops then Stop else s.elev.dir, doorLamp := stops, doorTimer := stops)
      && t.elev == s.elev.(floor := f, behavior := if stops then DoorOpen else Moving, requests := t.elev.requests)
      && (forall d: ButtonEvent :: Pending(t.elev, d) <==>
            Pending(s.elev, d) && !(stops && StopServes(s.elev, f, d)))
      && (forall d: ButtonEvent :: d in Reports(s, Arrive(f)) <==>
            stops && d.button != Cab && StopServes(s.elev, f, d))
    ensures var sent := Reports(s, Arrive(f));
      Distinct(sent) && (|sent| > 1 ==> GoesTheWay(sent[0].button, s.elev.dir))
  {
    StopDecision(s, f);
    ClearReportsTheDifference(s.elev.(floor := f));
  }

  /** A standing cab may be reported where it stands and nowhere else, and nothing happens. */
  lemma StandingOutcome(s: State, f: int)
    requires Inv(s) && s.elev.behavior != Moving
    ensures Enabled(s, Arrive(f)) <==> f == s.elev.floor
    ensures Enabled(s, Arrive(f)) ==> Step(s, Arrive(f)) == s && Reports(s, Arrive(f)) == []
  {}

  // Presses.

  /** An open door serves at once what is pressed at its floor, except the hall call the other way. */
  ghost predicate ServedAtOnce(e: Elevator, c: ButtonEvent) {
    && e.behavior == DoorOpen && c.floor == e.floor
    && (c.button == Cab || e.dir == Stop || GoesTheWay(c.button, e.dir))
  }

  /** A press at an elevator that is not idle: served at once it only lights the lamp, with the timer armed again;
      otherwise it becomes pending, and nothing else changes. */
  lemma PressOutcome(s: State, c: ButtonEvent)
    requires Inv(s) && Enabled(s, Press(c)) && s.elev.behavior != Idle
    ensures var t := Step(s, Press(c));
      && t == s.(elev := t.elev, doorLamp := s.doorLamp || ServedAtOnce(s.elev, c))
      && t.elev == s.elev.(requests := t.elev.requests)
      && (forall d: ButtonEvent :: Pending(t.elev, d) <==>
            Pending(s.elev, d) || (d == c && !ServedAtOnce(s.elev, c)))
    ensures Reports(s, Press(c)) == if ServedAtOnce(s.elev, c) && c.button != Cab then [c] else []
  {
    PressEffect(s, c);
    if ServedAtOnce(s.elev, c) {
      assert Step(s, Press(c)).elev == s.elev;
      assert ShouldClearImmediately(s.elev, c) && c == ButtonEvent(s.elev.floor, c.button);
    }
  }

  /** A press at an idle elevator: elsewhere, it sets off that way with this one call; here, it opens the door, lamp lit
      and timer armed, going neither way. */
  lemma IdlePressOutcome(s: State, c: ButtonEvent)
    requires Inv(s) && Enabled(s, Press(c)) && s.elev.behavior == Idle
    ensures var t, here := Step(s, Press(c)), c.floor == s.elev.floor;
      var way := if here then Stop else if c.floor > s.elev.floor then Up else Down;
      && t == s.(elev := t.elev, motor := way, doorLamp := here, doorTimer := here)
      && t.elev == s.elev.(dir := way, behavior := if here then DoorOpen else Moving, requests := t.elev.requests)
      && (forall d: ButtonEvent :: Pending(t.elev, d) <==> d == c && !here)
    ensures Reports(s, Press(c)) == if c.floor == s.elev.floor && c.button != Cab then [c] else []
  {
    IdlePressEffect(s, c);
    KeepsOwnFloor(c);
    var pressed := SetRequest(s.elev, c, true);
    assert forall d: ButtonEvent :: Pending(pressed, d) <==> d == c;
    ScansAreCalls(pressed);
  }

  /** So a cab whose door was opened by a press while idle serves both hall buttons of its floor at once. */
  lemma OpenedFromIdleServesBothWays(s: State, c: ButtonEvent, d: ButtonEvent)
    requires Inv(s) && Enabled(s, Press(c)) && s.elev.behavior == Idle && c.floor == s.elev.floor
    requires d.floor == c.floor && d.button != Cab
    ensures Enabled(Step(s, Press(c)), Press(d)) && Reports(Step(s, Press(c)), Press(d)) == [d]
  {
    IdlePressOutcome(s, c);
    StepKeepsInv(s, Press(c));
    PressOutcome(Step(s, Press(c)), d);
  }

  // Withdrawals and obstructions.

  lemma RemoveOutcome(s: State, c: ButtonEvent)
    requires Enabled(s, Remove(c))
    ensures var t := Step(s, Remove(c));
      && t == s.(elev := t.elev) && t.elev == s.elev.(requests := t.elev.requests)
      && (forall d: ButtonEvent :: Pending(t.elev, d) <==> Pending(s.elev, d) && d != c)
      && Reports(s, Remove(c)) == []
  {}

  lemma ObstructOutcome(s: State, on: bool)
    ensures Enabled(s, Obstruct(on)) && Reports(s, Obstruct(on)) == []
    ensures Step(s, Obstruct(on)) == s.(elev := s.elev.(obstructed := on))
  {}

  /** An obstructed door stays open, whatever else is pressed, withdrawn, reported or timed out, until the obstruction
      is gone, and the cab stays where it is with the motor off. */
  lemma {:induction false} ObstructedDoorStaysOpen(s: State, evs: seq<Event>)
    requires Inv(s) && s.elev.behavior == DoorOpen && s.elev.obstructed
    requires Allowed(s, evs) && Obstruct(false) !in evs
    ensures var t := Run(s, evs);
      && t.elev.behavior == DoorOpen && t.elev.obstructed && t.doorTimer && t.motor == Stop
      && t.elev.floor == s.elev.floor && t.elev.dir == s.elev.dir && (s.doorLamp ==> t.doorLamp)
    decreases |evs|
  {
    if evs != [] {
      StepKeepsInv(s, evs[0]);
      DoorIsSafe(s, evs[0]);
      ObstructedStep(s, evs[0]);
      ObstructedDoorStaysOpen(Step(s, evs[0]), evs[1..]);
    }
  }

  lemma ObstructedStep(s: State, ev: Event)
    requires Inv(s) && s.elev.behavior == DoorOpen && s.elev.obstructed && Enabled(s, ev) && ev != Obstruct(false)
    ensures Step(s, ev).elev.obstructed
  {}

  /** From the moment an open door is obstructed it stays open in every run without the obstruction going. */
  lemma ObstructionHoldsTheDoor(s: State, evs: seq<Event>)
    requires Inv(s) && s.elev.behavior == DoorOpen
    requires Allowed(s, [Obstruct(true)] + evs) && Obstruct(false) !in evs
    ensures var t := Run(s, [Obstruct(true)] + evs);
      t.elev.behavior == DoorOpen && t.motor == Stop && t.elev.floor == s.elev.floor && (s.doorLamp ==> t.doorLamp)
  {
    var first := Obstruct(true);
    RunOne(s, first);
    RunConcat(s, [first], evs);
    StepKeepsInv(s, first);
    ObstructedDoorStaysOpen(Step(s, first), evs);
  }

  // Door timeouts.

  /** A call at the floor of the open door that the timeout would serve by opening it again. */
  ghost predicate CallHere(e: Elevator) {
    exists c: ButtonEvent :: Pending(e, c) && c.floor == e.floor
  }

  /** Where an unobstructed cab goes when its door times out: on in its direction if calls lie ahead; else it turns for
      a call here, or for calls behind; up first if it goes neither way; nowhere without calls. */
  ghost function Course(e: Elevator): (Direction, Behavior) {
    if e.dir != Stop && CallAhead(e, e.floor) then (e.dir, Moving)
    else if e.dir != Stop && CallHere(e) then (if e.dir == Up then Down else Up, DoorOpen)
    else if CallAbove(e, e.floor) then (Up, Moving)
    else if CallBelow(e, e.floor) then (Down, Moving)
    else (Stop, Idle)
  }

  /** A timeout of an obstructed door changes no more than the timers: the stuck timer is armed if it is the first
      timeout ever. */
  lemma ObstructedTimeoutOutcome(s: State)
    requires Inv(s) && s.doorTimer && s.elev.obstructed
    ensures Step(s, DoorTimeout) ==
      s.(doorTimer := true, stuckTimer := s.stuckTimer || !s.stuckTimerActive, stuckTimerActive := true)
    ensures Reports(s, DoorTimeout) == []
  {}

  /** A timeout of a free door: the cab takes its course, the lamp goes dark, the call it turns for here is served, no
      other call is touched, and nothing is reported. */
  lemma TimeoutOutcome(s: State)
    requires Inv(s) && s.doorTimer && !s.elev.obstructed
    ensures var t, (way, next) := Step(s, DoorTimeout), Course(s.elev);
      && t == State(t.elev, if next == Moving then way else Stop, false, next == DoorOpen, next == DoorOpen, true)
      && t.elev == s.elev.(dir := way, behavior := next, requests := t.elev.requests)
      && (forall d: ButtonEvent :: Pending(t.elev, d) <==>
            Pending(s.elev, d) && !(next == DoorOpen && d.floor == s.elev.floor))
    ensures Reports(s, DoorTimeout) == []
  {
    var e := s.elev;
    ScansAreCalls(e);
    assert ShouldClearImmediately(e, ButtonEvent(e.floor, Cab));
    assert e.dir != Down ==> ShouldClearImmediately(e, ButtonEvent(e.floor, HallUp));
    assert e.dir != Up ==> ShouldClearImmediately(e, ButtonEvent(e.floor, HallDown));
    var next := e.(dir := ChooseDirection(e).0, behavior := ChooseDirection(e).1);
    ScansAreCalls(next);
    ClearReportsTheDifference(next);
  }

  /** A door that reopens at the turn serves that hall button from then on: pressed again it is reported at once. */
  lemma TurnedCabServesTheOtherWay(s: State, c: ButtonEvent)
    requires Inv(s) && s.doorTimer && AtTurn(s.elev, c)
    ensures Enabled(Step(s, DoorTimeout), Press(c)) && Reports(Step(s, DoorTimeout), Press(c)) == [c]
  {
    ScansAreCalls(s.elev);
    assert CallHere(s.elev) && Course(s.elev) == (if s.elev.dir == Up then Down else Up, DoorOpen);
    TimeoutOutcome(s);
    StepKeepsInv(s, DoorTimeout);
    PressOutcome(Step(s, DoorTimeout), c);
  }

  /** Once the obstruction is gone the next timeout closes the door, and without calls the cab is idle. */
  lemma FreedDoorCloses(s: State)
    requires Inv(s) && s.elev.behavior == DoorOpen
    ensures Allowed(s, [Obstruct(false), DoorTimeout])
    ensures Run(s, [Obstruct(false), DoorTimeout]) == Step(s.(elev := s.elev.(obstructed := false)), DoorTimeout)
    ensures NoCalls(s.elev) ==> Run(s, [Obstruct(false), DoorTimeout]).elev.behavior == Idle
  {
    var free := Step(s, Obstruct(false));
    StepKeepsInv(s, Obstruct(false));
    TwoSteps(s, Obstruct(false), DoorTimeout);
    TimeoutOutcome(free);
    if NoCalls(s.elev) {
      assert forall c: ButtonEvent :: Pending(free.elev, c) == Pending(s.elev, c);
      assert Course(free.elev) == (Stop, Idle);
    }
  }

  // Start-up.

  /** Whichever floor f the sensor reports first, the cab stops there with nothing to do, and is idle after the door
      times out. */
  lemma StartUpOutcome(n: nat, f: nat)
    requires n >= 2 && f < n
    ensures Allowed(Initial(n), [Arrive(f), DoorTimeout]) && RunReports(Initial(n), [Arrive(f), DoorTimeout]) == []
    ensures var t := Run(Initial(n), [Arrive(f), DoorTimeout]);
      && NoCalls(t.elev) && |t.elev.requests| == n
      && t == State(Elevator(f, Stop, Idle, t.elev.requests, false), Stop, false, false, false, true)
  {
    var s := Initial(n);
    InitialInv(n);
    assert NoCalls(s.elev);
    ArriveOutcome(s, f);
    var t := Step(s, Arrive(f));
    StepKeepsInv(s, Arrive(f));
    TimeoutOutcome(t);
    TwoSteps(s, Arrive(f), DoorTimeout);
  }

  /** The flag of the stuck timer is set once and for all, so the timer watches an obstructed door if it is obstructed
      at the first timeout ever. */
  lemma FirstObstructionIsWatched(n: nat, f: nat)
    requires n >= 2 && f < n
    ensures var evs := [Arrive(f), Obstruct(true)];
      && Allowed(Initial(n), evs) && Enabled(Run(Initial(n), evs), DoorTimeout)
      && Step(Run(Initial(n), evs), DoorTimeout).stuckTimer
  {
    var s := Initial(n);
    InitialInv(n);
    assert NoCalls(s.elev);
    ArriveOutcome(s, f);
    TwoSteps(s, Arrive(f), Obstruct(true));
    var t := Run(s, [Arrive(f), Obstruct(true)]);
    StepKeepsInv(s, Arrive(f));
    StepKeepsInv(Step(s, Arrive(f)), Obstruct(true));
    ObstructedTimeoutOutcome(t);
  }

  /** A door that an idle cab opens for a press and that is then obstructed is not watched, however often it times
      out. */
  lemma LaterObstructionIsNotWatched(s: State, c: ButtonEvent, more: seq<Event>)
    requires Inv(s) && s.elev.behavior == Idle && s.stuckTimerActive
    requires Enabled(s, Press(c)) && c.floor == s.elev.floor
    requires var t := Step(Step(s, Press(c)), Obstruct(true));
      Allowed(t, more) && Obstruct(false) !in more
    ensures var t := Run(Step(Step(s, Press(c)), Obstruct(true)), more);
      t.elev.behavior == DoorOpen && t.elev.obstructed && !t.stuckTimer
  {
    StepKeepsInv(s, Press(c));
    IdlePressOutcome(s, c);
    var t := Step(Step(s, Press(c)), Obstruct(true));
    StepKeepsInv(Step(s, Press(c)), Obstruct(true));
    ObstructedDoorStaysOpen(t, more);
    NotWatched(t, more);
  }

  lemma {:induction false} NotWatched(s: State, evs: seq<Event>)
    requires Inv(s) && s.elev.behavior == DoorOpen && s.elev.obstructed && s.stuckTimerActive && !s.stuckTimer
    requires Allowed(s, evs) && Obstruct(false) !in evs
    ensures !Run(s, evs).stuckTimer
    decreases |evs|
  {
    if evs != [] {
      StepKeepsInv(s, evs[0]);
      DoorIsSafe(s, evs[0]);
      ObstructedStep(s, evs[0]);
      NotWatched(Step(s, evs[0]), evs[1..]);
    }
  }
}
