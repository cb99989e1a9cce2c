/** From order to door: in a slave session with its elevator, a hall call that is ordered, and not withdrawn by a later
    order, is reported complete or lost at the turn within 2 * (N - 1) further arrivals. */
module OrderedCalls {
  import opened Elevators
  import opened ElevatorFsm
  import opened ElevatorSafety
  import opened ElevatorProgram
  import opened BoundedWaiting
  import opened HallOrders
  import opened HallLedger
  import opened Slave
  import opened SlaveElevator

  // The run as the elevator sees it.

  function StepsOf(w: World, x: WorldEvent): seq<Event>
    requires CanHappen(w, x)
  {
    match x
    case AtNode(_) => []
    case TakeOrder =>
      var order := w.slave.orders[w.taken].calls;
      HallScript(order, |order|)
    case AtElevator(ev) => [ev]
  }

  lemma StepsAlone(w: World, x: WorldEvent)
    requires WorldInv(w) && CanHappen(w, x)
    ensures Allowed(w.state, StepsOf(w, x))
    ensures (NextKeepsInv(w, x); Run(w.state, StepsOf(w, x)) == Next(w, x).state)
  {
    NextKeepsInv(w, x);
    if x.AtElevator? {
      RunOne(w.state, x.ev);
    }
  }

  /** All that happens at the elevator in a run, each order it takes spelled out. */
  ghost function ElevatorSteps(w: World, xs: seq<WorldEvent>): (r: seq<Event>)
    requires WorldInv(w) && Happens(w, xs)
    ensures Allowed(w.state, r)
    decreases |xs|
  {
    if xs == [] then []
    else
      NextKeepsInv(w, xs[0]);
      var rest := ElevatorSteps(Next(w, xs[0]), xs[1..]);
      StepsAlone(w, xs[0]);
      RunConcat(w.state, StepsOf(w, xs[0]), rest);
      StepsOf(w, xs[0]) + rest
  }

  /** Spelled out, a run of the session takes the elevator where the session takes it. */
  lemma {:induction false} RunsAlone(w: World, xs: seq<WorldEvent>)
    requires WorldInv(w) && Happens(w, xs)
    ensures Run(w.state, ElevatorSteps(w, xs)) == After(w, xs).state
    decreases |xs|
  {
    if xs != [] {
      NextKeepsInv(w, xs[0]);
      StepsAlone(w, xs[0]);
      RunsAlone(Next(w, xs[0]), xs[1..]);
      RunConcat(w.state, StepsOf(w, xs[0]), ElevatorSteps(Next(w, xs[0]), xs[1..]));
    }
  }

  /** Every order taken in the run orders c. */
  ghost predicate StillOrdered(w: World, xs: seq<WorldEvent>, c: ButtonEvent)
    requires WorldInv(w) && Happens(w, xs)
    decreases |xs|
  {
    xs == [] ||
    (&& (xs[0].TakeOrder? ==> Lit(w.slave.orders[w.taken].calls, c))
     && (NextKeepsInv(w, xs[0]); StillOrdered(Next(w, xs[0]), xs[1..], c)))
  }

  lemma {:induction false} ScriptOnlyPressesAndRemoves(order: HallCalls, k: nat, c: ButtonEvent)
    requires k <= |order|
    ensures forall ev :: ev in HallScript(order, k) ==> !ev.Arrive?
    ensures Lit(order, c) ==> Remove(c) !in HallScript(order, k)
  {
    if k > 0 {
      ScriptOnlyPressesAndRemoves(order, k - 1, c);
    }
  }

  lemma {:induction false} NotWithdrawn(w: World, xs: seq<WorldEvent>, c: ButtonEvent)
    requires WorldInv(w) && Happens(w, xs) && StillOrdered(w, xs, c)
    ensures Remove(c) !in ElevatorSteps(w, xs)
    decreases |xs|
  {
    if xs != [] {
      NextKeepsInv(w, xs[0]);
      NotWithdrawn(Next(w, xs[0]), xs[1..], c);
      if xs[0].TakeOrder? {
        var order := w.slave.orders[w.taken].calls;
        ScriptOnlyPressesAndRemoves(order, |order|, c);
      }
    }
  }

  // What becomes of the call.

  /** The step reports c, or loses its completion at the turn; either way the door stands open at its floor. */
  predicate Accounts(s: State, ev: Event, c: ButtonEvent)
    requires Enabled(s, ev)
  {
    && (c in Reports(s, ev) || (ev == DoorTimeout && c in DiscardedEvents(s.elev)))
    && Step(s, ev).elev.behavior == DoorOpen && Step(s, ev).elev.floor == c.floor
    && !Pending(Step(s, ev).elev, c)
  }

  /** Some step of the run accounts for c, no later than the n-th arrival. */
  predicate AccountedWithin(s: State, evs: seq<Event>, c: ButtonEvent, n: int)
    requires Allowed(s, evs)
    decreases |evs|
  {
    && evs != []
    && var left := if IsArrival(s, evs[0]) then n - 1 else n;
    && left >= 0 && (Accounts(s, evs[0], c) || AccountedWithin(Step(s, evs[0]), evs[1..], c, left))
  }

  function Cost(s: State, ev: Event): nat {
    if IsArrival(s, ev) then 1 else 0
  }

  /** A step accounts for a pending call or brings it closer. */
  lemma AccountsOrCloser(s: State, ev: Event, c: ButtonEvent)
    requires Inv(s) && Known(s) && Enabled(s, ev) && ev != Remove(c) && c.button != Cab && Pending(s.elev, c)
    ensures var t := Step(s, ev);
      && Inv(t) && Known(t) && Cost(s, ev) <= Potential(s, c)
      && (if Pending(t.elev, c) then
            && Potential(t, c) + Cost(s, ev) <= Potential(s, c)
            && (Cost(s, ev) == 1 ==> Potential(t, c) >= 1)
          else Accounts(s, ev, c))
  {
    StepKeepsInv(s, ev);
    PotentialStep(s, ev, c);
    PotentialBounds(s, c);
    if !Pending(Step(s, ev).elev, c) {
      StepLedger(s, ev, c);
    }
  }

  lemma {:induction false} PendingIsAccounted(s: State, evs: seq<Event>, c: ButtonEvent, n: int)
    requires Inv(s) && Known(s) && Pending(s.elev, c) && c.button != Cab && Allowed(s, evs) && Remove(c) !in evs
    requires Arrivals(s, evs) >= 1 && Arrivals(s, evs) >= Potential(s, c) && n >= Potential(s, c)
    ensures AccountedWithin(s, evs, c, n)
    decreases |evs|
  {
    var ev, rest := evs[0], evs[1..];
    AccountsOrCloser(s, ev, c);
    if Pending(Step(s, ev).elev, c) {
      PendingIsAccounted(Step(s, ev), rest, c, n - Cost(s, ev));
    }
  }

  lemma ReportAccounts(s: State, ev: Event, c: ButtonEvent)
    requires Inv(s) && Enabled(s, ev) && c in Reports(s, ev)
    ensures Accounts(s, ev, c)
  {
    ReportedIsServed(s, ev, c);
  }

  /** Steps without arrivals in front of a run: what they report is accounted for at once, and they cost nothing. */
  lemma {:induction false} InFront(s: State, a: seq<Event>, b: seq<Event>, c: ButtonEvent, n: nat)
    requires Inv(s) && Allowed(s, a) && Allowed(s, a + b) && Allowed(Run(s, a), b)
    requires forall ev :: ev in a ==> !ev.Arrive?
    requires c in RunReports(s, a) || AccountedWithin(Run(s, a), b, c, n)
    ensures AccountedWithin(s, a + b, c, n)
    decreases |a|
  {
    if a == [] {
      assert a + b == b;
    } else {
      assert (a + b)[0] == a[0] && (a + b)[1..] == a[1..] + b;
      StepKeepsInv(s, a[0]);
      if c in Reports(s, a[0]) {
        ReportAccounts(s, a[0], c);
      } else {
        InFront(Step(s, a[0]), a[1..], b, c, n);
      }
    }
  }

  lemma {:induction false} FrontArrivals(s: State, a: seq<Event>, b: seq<Event>)
    requires Allowed(s, a) && Allowed(s, a + b) && Allowed(Run(s, a), b)
    requires forall ev :: ev in a ==> !ev.Arrive?
    ensures Arrivals(s, a + b) == Arrivals(Run(s, a), b)
    decreases |a|
  {
    if a == [] {
      assert a + b == b;
    } else {
      assert (a + b)[0] == a[0] && (a + b)[1..] == a[1..] + b;
      FrontArrivals(Step(s, a[0]), a[1..], b);
    }
  }

  lemma {:induction false} FloorStays(s: State, a: seq<Event>)
    requires Allowed(s, a) && forall ev :: ev in a ==> !ev.Arrive?
    ensures Run(s, a).elev.floor == s.elev.floor
    decreases |a|
  {
    if a != [] {
      FloorStays(Step(s, a[0]), a[1..]);
    }
  }

  lemma OrderIsServed(s: State, order: HallCalls, rest: seq<Event>, c: ButtonEvent)
    requires Inv(s) && Known(s) && |order| == |s.elev.requests| && Lit(order, c) && c.button != Cab
    requires Allowed(s, HallScript(order, |order|) + rest) && Remove(c) !in rest
    requires Arrivals(s, HallScript(order, |order|) + rest) >= 2 * (|s.elev.requests| - 1)
    ensures AccountedWithin(s, HallScript(order, |order|) + rest, c, 2 * (|s.elev.requests| - 1))
  {
    var script, bound := HallScript(order, |order|), 2 * (|s.elev.requests| - 1);
    HallOrderRefinesMessage(s, order);
    RunConcat(s, script, rest);
    ScriptOnlyPressesAndRemoves(order, |order|, c);
    var t := Run(s, script);
    FrontArrivals(s, script, rest);
    if Pending(t.elev, c) {
      FloorStays(s, script);
      PotentialBounds(t, c);
      PendingIsAccounted(t, rest, c, bound);
    }
    InFront(s, script, rest, c, bound);
  }

  /** The run begins as the elevator takes an order with c, and every order taken later in it has c too. */
  ghost predicate OrderedThroughout(w: World, xs: seq<WorldEvent>, c: ButtonEvent)
    requires WorldInv(w)
  {
    Happens(w, xs) && xs != [] && xs[0] == TakeOrder && StillOrdered(w, xs, c)
  }

  lemma FirstOrder(w: World, xs: seq<WorldEvent>, c: ButtonEvent) returns (order: HallCalls, rest: seq<Event>)
    requires WorldInv(w) && OrderedThroughout(w, xs, c)
    ensures ElevatorSteps(w, xs) == HallScript(order, |order|) + rest
    ensures |order| == |w.state.elev.requests| && Lit(order, c) && Remove(c) !in rest
  {
    NextKeepsInv(w, TakeOrder);
    NotWithdrawn(Next(w, TakeOrder), xs[1..], c);
    order, rest := w.slave.orders[w.taken].calls, ElevatorSteps(Next(w, TakeOrder), xs[1..]);
  }

  lemma OrderThenRest(s: State, evs: seq<Event>, order: HallCalls, rest: seq<Event>, c: ButtonEvent)
    requires Inv(s) && Known(s) && |order| == |s.elev.requests| && Lit(order, c) && Remove(c) !in rest
    requires evs == HallScript(order, |order|) + rest && Allowed(s, evs)
    requires Arrivals(s, evs) >= 2 * (|s.elev.requests| - 1)
    ensures AccountedWithin(s, evs, c, 2 * (|s.elev.requests| - 1))
  {
    OrderIsServed(s, order, rest, c);
  }

  lemma TakenOrderIsServed(w: World, xs: seq<WorldEvent>, c: ButtonEvent)
    requires WorldInv(w) && Known(w.state) && OrderedThroughout(w, xs, c)
    requires Arrivals(w.state, ElevatorSteps(w, xs)) >= 2 * (|w.state.elev.requests| - 1)
    ensures AccountedWithin(w.state, ElevatorSteps(w, xs), c, 2 * (|w.state.elev.requests| - 1))
  {
    var order, rest := FirstOrder(w, xs, c);
    OrderThenRest(w.state, ElevatorSteps(w, xs), order, rest, c);
  }

  /** w is reached in a slave session that began with its elevator in the reachable state s. */
  ghost predicate InSession(w: World, me: int, hall: HallCalls, s: State, before: seq<WorldEvent>) {
    && Inv(s) && Happens(World(SlaveStart(me, hall), s, 0), before)
    && w == After(World(SlaveStart(me, hall), s, 0), before) && WorldInv(w)
  }

  /** In every slave session: from the moment the elevator takes an order with hall call c, if every order taken later
      has c too, c is reported complete or its completion is lost at the turn, the door open at its floor, within
      2 * (N - 1) arrivals of any run. */
  lemma OrderedCallIsServed(w: World, me: int, hall: HallCalls, s: State, before: seq<WorldEvent>,
                            xs: seq<WorldEvent>, c: ButtonEvent)
    requires InSession(w, me, hall, s, before) && Known(w.state) && OrderedThroughout(w, xs, c)
    requires Arrivals(w.state, ElevatorSteps(w, xs)) >= 2 * (|w.state.elev.requests| - 1)
    ensures AccountedWithin(w.state, ElevatorSteps(w, xs), c, 2 * (|w.state.elev.requests| - 1))
  {
    TakenOrderIsServed(w, xs, c);
  }
}
