/** Bounded waiting: whatever else is pressed, withdrawn or obstructed, a pending call is served within
    2 * (N - 1) further floor arrivals. */
module BoundedWaiting {
  import opened Elevators
  import opened Requests
  import opened ElevatorFsm
  import opened ElevatorSafety

  /** An upper bound on the arrivals a call still has to wait for when the cab last saw floor g and travels
      in direction d: to the call if it lies ahead and is served that way, otherwise to the far end first,
      and to the other end too if the call is served only on the way back. */
  function Wait(n: int, d: Direction, g: int, c: ButtonEvent): int {
    var top := n - 1;
    if d == Down then
      if c.button == HallDown && c.floor >= g then g + top + (top - c.floor)
      else if c.floor < g && c.button != HallUp then g - c.floor
      else g + c.floor
    else
      if c.button == HallUp && c.floor <= g then (top - g) + top + c.floor
      else if c.floor > g && c.button != HallDown then c.floor - g
      else (top - g) + (top - c.floor)
  }

  function Potential(s: State, c: ButtonEvent): int {
    Wait(|s.elev.requests|, s.elev.dir, s.elev.floor, c)
  }

  predicate IsArrival(s: State, ev: Event) {
    ev.Arrive? && s.elev.behavior == Moving
  }

  function Arrivals(s: State, evs: seq<Event>): nat
    requires Allowed(s, evs)
    decreases |evs|
  {
    if evs == [] then 0 else (if IsArrival(s, evs[0]) then 1 else 0) + Arrivals(Step(s, evs[0]), evs[1..])
  }

  predicate Known(s: State) {
    s.elev.floor >= 0
  }

  /** The step serves call c: it leaves the cab at the floor of the call with the motor off, the door open and its timer
      armed. Either the cab arrives, and the lamp is lit, or the open door starts over for a hall call at the turn,
      and the lamp is dark. */
  predicate Serves(s: State, ev: Event, c: ButtonEvent)
    requires Enabled(s, ev)
  {
    var t := Step(s, ev);
    && Pending(s.elev, c) && !Pending(t.elev, c)
    && t.elev.floor == c.floor && t.elev.behavior == DoorOpen && t.doorTimer && t.motor == Stop
    && if IsArrival(s, ev) then t.doorLamp else ev == DoorTimeout && AtTurn(s.elev, c) && !t.doorLamp
  }

  lemma PotentialBounds(s: State, c: ButtonEvent)
    requires Inv(s) && Known(s) && Pending(s.elev, c)
    ensures 0 <= Potential(s, c) <= 2 * (|s.elev.requests| - 1)
    ensures s.elev.behavior == Moving ==> Potential(s, c) >= 1
  {}

  lemma ArriveDrops(s: State, f: int, c: ButtonEvent)
    requires Inv(s) && Known(s) && Pending(s.elev, c) && Enabled(s, Arrive(f)) && s.elev.behavior == Moving
    ensures var t := Step(s, Arrive(f)); Pending(t.elev, c) ==> 1 <= Potential(t, c) < Potential(s, c)
    ensures !Pending(Step(s, Arrive(f)).elev, c) ==> Serves(s, Arrive(f), c)
  {}

  lemma TimeoutNeverRaises(s: State, c: ButtonEvent)
    requires Inv(s) && Known(s) && Pending(s.elev, c) && Enabled(s, DoorTimeout)
    ensures var t := Step(s, DoorTimeout); Pending(t.elev, c) ==> Potential(t, c) <= Potential(s, c)
    ensures !Pending(Step(s, DoorTimeout).elev, c) ==> Serves(s, DoorTimeout, c)
  {}

  /** One step: an arrival brings a pending call closer, nothing else moves it away, and a call goes only by
      withdrawal or because it is served at its floor: with the door lamp lit if the cab arrives there, dark if it is
      a hall call at the turn. */
  lemma PotentialStep(s: State, ev: Event, c: ButtonEvent)
    requires Inv(s) && Known(s) && Pending(s.elev, c) && Enabled(s, ev) && ev != Remove(c)
    ensures Known(Step(s, ev))
    ensures var t := Step(s, ev);
      if Pending(t.elev, c) then Potential(t, c) + (if IsArrival(s, ev) then 1 else 0) <= Potential(s, c)
      else Serves(s, ev, c)
    ensures IsArrival(s, ev) && Pending(Step(s, ev).elev, c) ==> Potential(Step(s, ev), c) >= 1
  {
    match ev
    case Press(d) => assert s.elev.behavior != Idle;
    case Arrive(f) =>
      if s.elev.behavior == Moving {
        ArriveDrops(s, f, c);
      } else {
        assert Step(s, ev).elev == s.elev;
      }
    case DoorTimeout => TimeoutNeverRaises(s, c);
    case _ =>
  }

  /** The k-th event of the run serves the call. */
  predicate ServedAt(s: State, evs: seq<Event>, k: nat, c: ButtonEvent)
    requires 1 <= k <= |evs|
  {
    && Allowed(s, evs[..k]) && Allowed(s, evs[..k - 1])
    && var t := Run(s, evs[..k - 1]);
    && Enabled(t, evs[k - 1]) && Serves(t, evs[k - 1], c)
  }

  lemma {:induction false} ServedWithinPotential(s: State, evs: seq<Event>, c: ButtonEvent) returns (k: nat)
    requires Inv(s) && Known(s) && Pending(s.elev, c) && Allowed(s, evs) && Remove(c) !in evs
    requires Arrivals(s, evs) >= 1 && Arrivals(s, evs) >= Potential(s, c)
    ensures 1 <= k <= |evs| && ServedAt(s, evs, k, c) && Arrivals(s, evs[..k]) <= Potential(s, c)
    decreases |evs|
  {
    var t := Step(s, evs[0]);
    StepKeepsInv(s, evs[0]);
    PotentialStep(s, evs[0], c);
    PotentialBounds(s, c);
    if Pending(t.elev, c) {
      k := ServedWithinPotential(t, evs[1..], c);
      k := k + 1;
      assert evs[..k][0] == evs[0] && evs[..k][1..] == evs[1..][..k - 1];
      assert evs[..k - 1][0] == evs[0] && evs[..k - 1][1..] == evs[1..][..k - 2];
    } else {
      k := 1;
      assert evs[..k] == [evs[0]];
      RunOne(s, evs[0]);
      assert [evs[0]][1..] == [] && Arrivals(t, []) == 0;
      assert evs[..k - 1] == [];
    }
  }

  /** Once the floor is known, a pending call that is not withdrawn is served, with the cab standing at its floor and
      the door open, before or at the 2 * (N - 1)-th further arrival of any run, whatever else is pressed, withdrawn
      or obstructed in between. A cab call is always served with the door lamp lit. */
  lemma BoundedWaiting(s: State, evs: seq<Event>, c: ButtonEvent)
    requires Inv(s) && Known(s) && Pending(s.elev, c) && Allowed(s, evs) && Remove(c) !in evs
    requires Arrivals(s, evs) >= 2 * (|s.elev.requests| - 1)
    ensures exists k: nat :: 1 <= k <= |evs| && ServedAt(s, evs, k, c)
                             && Arrivals(s, evs[..k]) <= 2 * (|s.elev.requests| - 1)
                             && (c.button == Cab ==> IsArrival(Run(s, evs[..k - 1]), evs[k - 1]))
  {
    PotentialBounds(s, c);
    var k := ServedWithinPotential(s, evs, c);
    assert ServedAt(s, evs, k, c);
  }

  // The bound is tight: a run in which a hall call waits for all 2 * (N - 1) arrivals.

  /** Driving from floor g with an up call at floor 0 and, while driving up, a cab call at the top. */
  function Sweep(n: int, d: Direction, g: int): State
    requires n >= 2
  {
    var rows := seq(n, i => Row(i == 0, false, i == n - 1 && d == Up));
    State(Elevator(g, d, Moving, rows, false), d, false, false, false, false)
  }

  function Upward(g: int, top: int): seq<Event>
    decreases top - g
  {
    if g >= top then [] else [Arrive(g + 1)] + Upward(g + 1, top)
  }

  function Downward(g: int): seq<Event>
    decreases g
  {
    if g <= 1 then [] else [Arrive(g - 1)] + Downward(g - 1)
  }

  lemma {:induction false} DownLeg(n: int, g: int, s: State)
    requires n >= 2 && 1 <= g < n && s.elev == Sweep(n, Down, g).elev
    ensures Allowed(s, Downward(g)) && Arrivals(s, Downward(g)) == g - 1
    ensures Pending(Run(s, Downward(g)).elev, ButtonEvent(0, HallUp))
    decreases g
  {
    if g > 1 {
      var t := Step(s, Arrive(g - 1));
      assert s.elev.(floor := g - 1).requests[0].Any();
      assert t.elev == Sweep(n, Down, g - 1).elev;
      DownLeg(n, g - 1, t);
      assert Downward(g)[1..] == Downward(g - 1);
    }
  }

  lemma Turn(n: int, s: State)
    requires n >= 2 && s.elev == Sweep(n, Up, n - 2).elev
    ensures Enabled(s, Arrive(n - 1)) && Enabled(Step(s, Arrive(n - 1)), DoorTimeout)
    ensures Step(Step(s, Arrive(n - 1)), DoorTimeout).elev == Sweep(n, Down, n - 1).elev
  {
    var here := s.elev.(floor := n - 1);
    assert !HasAbove(here);
    var open := Step(s, Arrive(n - 1)).elev;
    assert open == Cleared(here).(behavior := DoorOpen);
    assert open.requests[0].up;
    assert open.requests == Sweep(n, Down, n - 1).elev.requests;
  }

  lemma {:induction false} UpLeg(n: int, g: int, s: State)
    requires n >= 2 && 0 <= g <= n - 2 && s.elev == Sweep(n, Up, g).elev
    ensures var evs := Upward(g, n - 1) + [DoorTimeout] + Downward(n - 1);
      && Allowed(s, evs) && Arrivals(s, evs) == (n - 1 - g) + (n - 2)
      && Pending(Run(s, evs).elev, ButtonEvent(0, HallUp))
    decreases n - g
  {
    var evs := Upward(g, n - 1) + [DoorTimeout] + Downward(n - 1);
    var t := Step(s, Arrive(g + 1));
    assert evs[0] == Arrive(g + 1) && evs[1..] == Upward(g + 1, n - 1) + [DoorTimeout] + Downward(n - 1);
    if g == n - 2 {
      Turn(n, s);
      DownLeg(n, n - 1, Step(t, DoorTimeout));
      assert evs[1..][0] == DoorTimeout && evs[1..][1..] == Downward(n - 1);
    } else {
      assert s.elev.(floor := g + 1).requests[n - 1].Any();
      assert t.elev == Sweep(n, Up, g + 1).elev;
      UpLeg(n, g + 1, t);
    }
  }

  /** From start-up: find floor 0, let the door close, then press the top cab button and, as the cab has set off, the
      up button at floor 0. */
  lemma SweepIsReachable(n: int) returns (before: seq<Event>, s: State)
    requires n >= 2
    ensures Allowed(Initial(n), before) && s == Run(Initial(n), before)
    ensures s.elev == Sweep(n, Up, 0).elev
  {
    var cab, hall := Press(ButtonEvent(n - 1, Cab)), Press(ButtonEvent(0, HallUp));
    var idle := Step(Step(Initial(n), Arrive(0)), DoorTimeout);
    assert idle.elev == Elevator(0, Stop, Idle, Initial(n).elev.requests, false);
    TwoSteps(Initial(n), Arrive(0), DoorTimeout);
    var pressed := SetRequest(idle.elev, cab.call, true);
    assert pressed.requests[n - 1].Any();
    var off := Step(idle, cab);
    assert off.elev == pressed.(dir := Up, behavior := Moving);
    s := Step(off, hall);
    assert s.elev.requests == Sweep(n, Up, 0).elev.requests;
    TwoSteps(idle, cab, hall);
    before := [Arrive(0), DoorTimeout] + [cab, hall];
    RunConcat(Initial(n), [Arrive(0), DoorTimeout], [cab, hall]);
  }

  /** Nothing is pressed or withdrawn from s on, and the call, pending there, is still pending after 2 * (n - 1) - 1
      arrivals. */
  ghost predicate StillWaiting(n: int, s: State, evs: seq<Event>, c: ButtonEvent) {
    && Known(s) && Pending(s.elev, c) && Allowed(s, evs)
    && (forall ev :: ev in evs ==> !ev.Press? && !ev.Remove?)
    && Arrivals(s, evs) == 2 * (n - 1) - 1 && Pending(Run(s, evs).elev, c)
  }

  lemma SweepWaits(n: int, s: State) returns (evs: seq<Event>)
    requires n >= 2 && s.elev == Sweep(n, Up, 0).elev
    ensures StillWaiting(n, s, evs, ButtonEvent(0, HallUp))
  {
    evs := Upward(0, n - 1) + [DoorTimeout] + Downward(n - 1);
    UpLeg(n, 0, s);
    OnlyMoves(0, n - 1);
  }

  /** A run from start-up in two parts, such that a call waits all through the second. */
  ghost predicate WaitsInRun(n: int, before: seq<Event>, evs: seq<Event>, c: ButtonEvent)
    requires n >= 2
  {
    Allowed(Initial(n), before) && StillWaiting(n, Run(Initial(n), before), evs, c)
  }

  /** For every number of floors some call does wait for more than 2 * (N - 1) - 1 arrivals in a run from start-up. */
  lemma BoundIsTight(n: int)
    requires n >= 2
    ensures exists before: seq<Event>, evs: seq<Event>, c: ButtonEvent :: WaitsInRun(n, before, evs, c)
  {
    var before, s := SweepIsReachable(n);
    var evs := SweepWaits(n, s);
    assert WaitsInRun(n, before, evs, ButtonEvent(0, HallUp));
  }

  lemma OnlyMoves(g: int, top: int)
    ensures forall ev :: ev in Upward(g, top) + [DoorTimeout] + Downward(top) ==> !ev.Press? && !ev.Remove?
  {
    OnlyUp(g, top);
    OnlyDown(top);
  }

  lemma {:induction false} OnlyUp(g: int, top: int)
    ensures forall ev :: ev in Upward(g, top) ==> ev.Arrive?
    decreases top - g
  {
    if g < top {
      OnlyUp(g + 1, top);
    }
  }

  lemma {:induction false} OnlyDown(g: int)
    ensures forall ev :: ev in Downward(g) ==> ev.Arrive?
    decreases g
  {
    if g > 1 {
      OnlyDown(g - 1);
    }
  }
}
