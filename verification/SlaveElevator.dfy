/** A slave session together with its elevator: orders travel from node to elevator in a queue, and hall calls reach
    the elevator in no other way. */
module SlaveElevator {
  import opened Elevators
  import opened ElevatorFsm
  import opened ElevatorSafety
  import opened ElevatorProgram
  import opened HallOrders
  import opened HallLedger
  import opened Slave

  /** taken counts the orders the elevator has applied. */
  datatype World = World(slave: SlaveState, state: State, taken: nat)

  datatype WorldEvent = AtNode(msg: SlaveEvent) | TakeOrder | AtElevator(ev: Event)

  /** Messages have one row a floor; hall presses go to the node, and only orders withdraw. */
  predicate CanHappen(w: World, x: WorldEvent) {
    match x
    case AtNode(GotAssignment(a)) => |a.hall| == |w.state.elev.requests|
    case AtNode(GotGlobal(h)) => |h| == |w.state.elev.requests|
    case TakeOrder => w.taken < |w.slave.orders|
    case AtElevator(ev) => Enabled(w.state, ev) && !ev.Remove? && (ev.Press? ==> ev.call.button == Cab)
  }

  ghost predicate OrdersFit(w: World) {
    forall i :: 0 <= i < |w.slave.orders| ==> |w.slave.orders[i].calls| == |w.state.elev.requests|
  }

  /** Every pending hall call was ordered by the last order taken. */
  ghost predicate PendingWasOrdered(w: World) {
    0 < w.taken <= |w.slave.orders| ==>
      forall c: ButtonEvent :: c.button != Cab && Pending(w.state.elev, c) ==> Lit(w.slave.orders[w.taken - 1].calls, c)
  }

  ghost predicate WorldInv(w: World) {
    Inv(w.state) && OrdersFit(w) && w.taken <= |w.slave.orders| && PendingWasOrdered(w)
  }

  ghost function Next(w: World, x: WorldEvent): World
    requires CanHappen(w, x)
    requires x.TakeOrder? ==>
      var order := w.slave.orders[w.taken].calls; Allowed(w.state, HallScript(order, |order|))
  {
    match x
    case AtNode(ev) => w.(slave := SlaveStep(w.slave, ev))
    case TakeOrder =>
      var order := w.slave.orders[w.taken].calls;
      w.(state := Run(w.state, HallScript(order, |order|)), taken := w.taken + 1)
    case AtElevator(ev) => w.(state := Step(w.state, ev))
  }

  lemma TakeKeepsInv(w: World)
    requires WorldInv(w) && CanHappen(w, TakeOrder)
    ensures var order := w.slave.orders[w.taken].calls; Allowed(w.state, HallScript(order, |order|))
    ensures WorldInv(Next(w, TakeOrder))
  {
    HallOrderRefinesMessage(w.state, w.slave.orders[w.taken].calls);
  }

  lemma ElevatorKeepsInv(w: World, ev: Event)
    requires WorldInv(w) && CanHappen(w, AtElevator(ev))
    ensures WorldInv(Next(w, AtElevator(ev)))
  {
    StepKeepsInv(w.state, ev);
    forall c: ButtonEvent | c.button != Cab && Pending(Step(w.state, ev).elev, c)
      ensures Pending(w.state.elev, c)
    {
      StepLedger(w.state, ev, c);
    }
  }

  lemma NextKeepsInv(w: World, x: WorldEvent)
    requires WorldInv(w) && CanHappen(w, x)
    ensures x.TakeOrder? ==>
      var order := w.slave.orders[w.taken].calls; Allowed(w.state, HallScript(order, |order|))
    ensures WorldInv(Next(w, x))
  {
    match x
    case AtNode(ev) =>
    case TakeOrder => TakeKeepsInv(w);
    case AtElevator(ev) => ElevatorKeepsInv(w, ev);
  }

  ghost predicate Happens(w: World, xs: seq<WorldEvent>)
    requires WorldInv(w)
    decreases |xs|
  {
    xs == [] || (CanHappen(w, xs[0]) && (NextKeepsInv(w, xs[0]); Happens(Next(w, xs[0]), xs[1..])))
  }

  ghost function After(w: World, xs: seq<WorldEvent>): (v: World)
    requires WorldInv(w) && Happens(w, xs)
    ensures WorldInv(v)
    decreases |xs|
  {
    if xs == [] then w else NextKeepsInv(w, xs[0]); After(Next(w, xs[0]), xs[1..])
  }

  function NodeEvent(x: WorldEvent): seq<SlaveEvent> {
    if x.AtNode? then [x.msg] else []
  }

  /** The part of the run that is the slave's. */
  function NodeEvents(xs: seq<WorldEvent>): seq<SlaveEvent> {
    if xs == [] then [] else NodeEvent(xs[0]) + NodeEvents(xs[1..])
  }

  lemma SlaveStepsAlone(w: World, x: WorldEvent, me: int, hall: HallCalls, evs: seq<SlaveEvent>)
    requires WorldInv(w) && CanHappen(w, x) && Consistent(w.slave, me, hall, evs)
    ensures (NextKeepsInv(w, x); Consistent(Next(w, x).slave, me, hall, evs + NodeEvent(x)))
  {
    NextKeepsInv(w, x);
    if x.AtNode? {
      StepKeepsConsistent(w.slave, me, hall, evs, x.msg);
    } else {
      assert evs + NodeEvent(x) == evs;
    }
  }

  lemma NodeEventsSplit(evs: seq<SlaveEvent>, xs: seq<WorldEvent>)
    requires xs != []
    ensures evs + NodeEvent(xs[0]) + NodeEvents(xs[1..]) == evs + NodeEvents(xs)
  {}

  lemma {:induction false} SlaveRunsAlone(w: World, xs: seq<WorldEvent>, me: int, hall: HallCalls, evs: seq<SlaveEvent>)
    requires WorldInv(w) && Happens(w, xs) && Consistent(w.slave, me, hall, evs)
    ensures Consistent(After(w, xs).slave, me, hall, evs + NodeEvents(xs))
    decreases |xs|
  {
    if xs == [] {
      assert evs + NodeEvents(xs) == evs;
    } else {
      NextKeepsInv(w, xs[0]);
      SlaveStepsAlone(w, xs[0], me, hall, evs);
      SlaveRunsAlone(Next(w, xs[0]), xs[1..], me, hall, evs + NodeEvent(xs[0]));
      NodeEventsSplit(evs, xs);
    }
  }

  /** The calls pending at the elevator were lit in the copy that came with the last order taken, and that copy is the
      first one of the session or one of those broadcast. */
  ghost predicate PendingWereLit(w: World, hall: HallCalls, evs: seq<SlaveEvent>) {
    w.taken > 0 ==>
      && w.taken <= |w.slave.orders|
      && var lights := w.slave.orders[w.taken - 1].lights;
      && (forall c: ButtonEvent :: c.button != Cab && Pending(w.state.elev, c) ==> Lit(lights, c))
      && (lights == hall || GotGlobal(lights) in evs)
  }

  lemma WereLit(w: World, me: int, hall: HallCalls, evs: seq<SlaveEvent>)
    requires WorldInv(w) && Consistent(w.slave, me, hall, evs)
    ensures PendingWereLit(w, hall, evs)
  {}

  /** In every slave session, from any reachable state of its elevator: once the elevator has taken an order, each hall
      call pending at it was lit in the copy of the global requests that came with the last order taken, and that
      copy is the one the session began with or one that was broadcast during it. */
  lemma PendingCallsWereLit(me: int, hall: HallCalls, s: State, xs: seq<WorldEvent>)
    requires Inv(s) && Happens(World(SlaveStart(me, hall), s, 0), xs)
    ensures PendingWereLit(After(World(SlaveStart(me, hall), s, 0), xs), hall, NodeEvents(xs))
  {
    var start := World(SlaveStart(me, hall), s, 0);
    SlaveRunsAlone(start, xs, me, hall, []);
    assert [] + NodeEvents(xs) == NodeEvents(xs);
    WereLit(After(start, xs), me, hall, NodeEvents(xs));
  }
}
