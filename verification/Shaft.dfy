/** The cab in its shaft. Positions are half floors: 2 * f is floor f, odd positions lie between two floors.
    The motor moves the cab; a floor the controller does not know yet is reported by the sensor poller
    (elevator/elevio.go) before the cab moves on. The rule that arrivals name the neighbouring floor, which
    ElevatorFsm.Enabled asks of the environment, is derived here from that motion. */
module Shaft {
  import opened Elevators
  import opened ElevatorFsm
  import opened ElevatorSafety

  datatype World = World(state: State, pos: int)

  datatype WorldEvent = Motion | Sensor | Control(ev: Event)

  /** The cab stands at a floor other than the one reported last. */
  predicate Unreported(w: World) {
    w.pos % 2 == 0 && w.pos / 2 != w.state.elev.floor
  }

  predicate CanHappen(w: World, x: WorldEvent) {
    match x
    case Motion => w.state.motor != Stop && !Unreported(w)
    case Sensor => Unreported(w)
    case Control(ev) => !ev.Arrive? && Enabled(w.state, ev)
  }

  ghost predicate WorldInv(w: World) {
    var e := w.state.elev;
    && Inv(w.state)
    && 0 <= w.pos <= 2 * (|e.requests| - 1)
    && (e.behavior != Moving ==> w.pos == 2 * e.floor)
    && (e.behavior == Moving && e.floor >= 0 && e.dir == Up ==> 2 * e.floor <= w.pos <= 2 * e.floor + 2)
    && (e.behavior == Moving && e.floor >= 0 && e.dir == Down ==> 2 * e.floor - 2 <= w.pos <= 2 * e.floor)
  }

  function Next(w: World, x: WorldEvent): World
    requires CanHappen(w, x)
    requires x == Sensor ==> Enabled(w.state, Arrive(w.pos / 2))
  {
    match x
    case Motion => w.(pos := w.pos + Delta(w.state.motor))
    case Sensor => w.(state := Step(w.state, Arrive(w.pos / 2)))
    case Control(ev) => w.(state := Step(w.state, ev))
  }

  /** What the sensor reports is always the arrival the controller expects. */
  lemma SensorIsExpected(w: World)
    requires WorldInv(w) && Unreported(w)
    ensures Enabled(w.state, Arrive(w.pos / 2)) && w.state.elev.behavior == Moving
  {}

  lemma NextKeepsWorldInv(w: World, x: WorldEvent)
    requires WorldInv(w) && CanHappen(w, x)
    ensures x == Sensor ==> Enabled(w.state, Arrive(w.pos / 2))
    ensures WorldInv(Next(w, x))
  {
    match x
    case Motion =>
    case Sensor =>
      SensorIsExpected(w);
      StepKeepsInv(w.state, Arrive(w.pos / 2));
    case Control(ev) =>
      StepKeepsInv(w.state, ev);
  }

  ghost predicate Happens(w: World, xs: seq<WorldEvent>)
    requires WorldInv(w)
    decreases |xs|
  {
    xs == [] || (CanHappen(w, xs[0]) && (NextKeepsWorldInv(w, xs[0]); Happens(Next(w, xs[0]), xs[1..])))
  }

  ghost function After(w: World, xs: seq<WorldEvent>): World
    requires WorldInv(w) && Happens(w, xs)
    decreases |xs|
  {
    if xs == [] then w else NextKeepsWorldInv(w, xs[0]); After(Next(w, xs[0]), xs[1..])
  }

  lemma {:induction false} RunKeepsWorldInv(w: World, xs: seq<WorldEvent>)
    requires WorldInv(w) && Happens(w, xs)
    ensures WorldInv(After(w, xs)) && |After(w, xs).state.elev.requests| == |w.state.elev.requests|
    decreases |xs|
  {
    if xs != [] {
      NextKeepsWorldInv(w, xs[0]);
      RunKeepsWorldInv(Next(w, xs[0]), xs[1..]);
    }
  }

  lemma StartAnywhere(n: nat, pos: int)
    requires n >= 2 && 0 <= pos <= 2 * (n - 1)
    ensures WorldInv(World(Initial(n), pos))
  {}

  /** Started anywhere in the shaft, at or between floors, the cab stays between the lowest and the highest
      floor whatever happens, and every sensor report is an arrival the controller allows for. */
  lemma CabStaysInShaft(n: nat, pos: int, xs: seq<WorldEvent>)
    requires n >= 2 && 0 <= pos <= 2 * (n - 1)
    requires (StartAnywhere(n, pos); Happens(World(Initial(n), pos), xs))
    ensures (StartAnywhere(n, pos);
             var w := After(World(Initial(n), pos), xs);
             && 0 <= w.pos <= 2 * (n - 1)
             && (w.state.elev.behavior != Moving ==> w.pos == 2 * w.state.elev.floor)
             && (Unreported(w) ==> Enabled(w.state, Arrive(w.pos / 2))))
  {
    StartAnywhere(n, pos);
    RunKeepsWorldInv(World(Initial(n), pos), xs);
    if Unreported(After(World(Initial(n), pos), xs)) {
      SensorIsExpected(After(World(Initial(n), pos), xs));
    }
  }
}
