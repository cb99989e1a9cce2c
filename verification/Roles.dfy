/** The roles of a node and the switches of its transmitters (main.go and package node): a node switches a transmitter
    on at the start of the role it serves and off at the end, one channel send at a time. */
module Roles {
  import opened MessageIds
  import opened Transmitters

  datatype Role = Inactive | Disconnected | MasterRole | SlaveRole

  /** Where in its role program a node is: before its first sends, between the two of a master, in its loop, and
      likewise on the way out to the next role. */
  datatype Stage = Entering | HalfIn | Looping | Leaving(next: Role) | HalfOut(next: Role)

  /** assign and complete are the acknowledging transmitters, broadcasting the switch of the one that broadcasts
      the global hall requests; used are the message ids generated so far. */
  datatype Node = Node(
    role: Role, stage: Stage, assign: AssignTx, complete: CompleteTx, broadcasting: bool, used: set<uint64>)

  datatype NodeEvent = Program(next: Role) | ToAssign(a: AssignEvent) | ToComplete(c: CompleteEvent)

  /** The roles a role program may return. */
  predicate MayFollow(role: Role, next: Role) {
    match role
    case Inactive => next == Disconnected
    case Disconnected => next != Disconnected
    case MasterRole => next == Inactive || next == Disconnected
    case SlaveRole => next == Inactive || next == Disconnected
  }

  /** The role program takes its next step; leaving its loop it picks the next role. Only a looping master makes
      assignments and only a looping slave completions; acks and timers come whenever they like, and only the
      role programs operate the switches. */
  predicate CanHappen(v: Node, x: NodeEvent) {
    match x
    case Program(next) => v.stage == Looping ==> MayFollow(v.role, next)
    case ToAssign(a) =>
      && AssignAllowed(v.assign, v.used, a)
      && !a.Enable?
      && (a.New? ==> v.role == MasterRole && v.stage == Looping)
    case ToComplete(c) =>
      && CompleteAllowed(v.complete, v.used, c)
      && !c.EnableC?
      && (c.NewC? ==> v.role == SlaveRole && v.stage == Looping)
  }

  function SwitchAssign(v: Node, on: bool): Node {
    v.(assign := AssignStep(v.assign, Enable(on)))
  }

  function SwitchComplete(v: Node, on: bool): Node {
    v.(complete := CompleteStep(v.complete, EnableC(on)))
  }

  function ProgramStep(v: Node, next: Role): Node {
    match v.stage
    case Entering =>
      if v.role == MasterRole then v.(broadcasting := true, stage := HalfIn)
      else if v.role == SlaveRole then SwitchComplete(v, true).(stage := Looping)
      else v.(stage := Looping)
    case HalfIn => SwitchAssign(v, true).(stage := Looping)
    case Looping => v.(stage := Leaving(next))
    case Leaving(n) =>
      if v.role == MasterRole then v.(broadcasting := false, stage := HalfOut(n))
      else if v.role == SlaveRole then SwitchComplete(v, false).(role := n, stage := Entering)
      else v.(role := n, stage := Entering)
    case HalfOut(n) => SwitchAssign(v, false).(role := n, stage := Entering)
  }

  function Next(v: Node, x: NodeEvent): Node
    requires CanHappen(v, x)
  {
    match x
    case Program(next) => ProgramStep(v, next)
    case ToAssign(a) => v.(assign := AssignStep(v.assign, a), used := UsedIds(v.used, a))
    case ToComplete(c) => v.(complete := CompleteStep(v.complete, c), used := UsedCIds(v.used, c))
  }

  const START := Node(Inactive, Entering, ASSIGN_START, COMPLETE_START, false, {})

  /** Each switch is on exactly during its part of its own role, nothing is pending behind a switch that is off, and
      the next role on the way out is one the program may return. */
  ghost predicate Inv(v: Node) {
    && AssignInv(v.assign, v.used) && CompleteInv(v.complete, v.used)
    && (v.broadcasting <==> v.role == MasterRole && (v.stage == HalfIn || v.stage == Looping || v.stage.Leaving?))
    && (v.assign.enable <==> v.role == MasterRole && (v.stage == Looping || v.stage.Leaving? || v.stage.HalfOut?))
    && (v.complete.enable <==> v.role == SlaveRole && (v.stage == Looping || v.stage.Leaving?))
    && (!v.complete.enable ==> v.complete.active == map[])
    && (v.stage.HalfIn? || v.stage.HalfOut? ==> v.role == MasterRole)
    && (v.stage.Leaving? || v.stage.HalfOut? ==> MayFollow(v.role, v.stage.next))
  }

  lemma UsedMayGrow(t: AssignTx, u: CompleteTx, used: set<uint64>, more: set<uint64>)
    requires AssignInv(t, used) && CompleteInv(u, used) && used <= more
    ensures AssignInv(t, more) && CompleteInv(u, more)
  {}

  lemma NextKeepsInv(v: Node, x: NodeEvent)
    requires Inv(v) && CanHappen(v, x)
    ensures Inv(Next(v, x))
  {
    UsedMayGrow(v.assign, v.complete, v.used, Next(v, x).used);
    match x
    case Program(next) =>
      if v.stage.HalfIn? || v.stage.HalfOut? {
        AssignStepKeepsInv(v.assign, v.used, Enable(v.stage.HalfIn?));
      } else if v.role == SlaveRole {
        CompleteStepKeepsInv(v.complete, v.used, EnableC(v.stage.Entering?));
      }
    case ToAssign(a) => AssignStepKeepsInv(v.assign, v.used, a);
    case ToComplete(c) => CompleteStepKeepsInv(v.complete, v.used, c);
  }

  ghost predicate Happens(v: Node, xs: seq<NodeEvent>)
    decreases |xs|
  {
    xs == [] || (CanHappen(v, xs[0]) && Happens(Next(v, xs[0]), xs[1..]))
  }

  ghost function After(v: Node, xs: seq<NodeEvent>): Node
    requires Happens(v, xs)
    decreases |xs|
  {
    if xs == [] then v else After(Next(v, xs[0]), xs[1..])
  }

  lemma {:induction false} RunKeepsInv(v: Node, xs: seq<NodeEvent>)
    requires Inv(v) && Happens(v, xs)
    ensures Inv(After(v, xs))
    decreases |xs|
  {
    if xs != [] {
      NextKeepsInv(v, xs[0]);
      RunKeepsInv(Next(v, xs[0]), xs[1..]);
    }
  }

  /** In every run the assignment and global-request transmitters are enabled only in the Master role, the completion
      transmitter only in the Slave role, in the loops of these roles they are, and what is pending at a transmitter
      is pending only in its role. */
  lemma SwitchesFollowRoles(xs: seq<NodeEvent>)
    requires Happens(START, xs)
    ensures var v := After(START, xs);
      && (v.assign.enable || v.broadcasting || v.assign.active != map[] ==> v.role == MasterRole)
      && (v.complete.enable || v.complete.active != map[] ==> v.role == SlaveRole)
      && (v.role == MasterRole && v.stage == Looping ==> v.assign.enable && v.broadcasting)
      && (v.role == SlaveRole && v.stage == Looping ==> v.complete.enable)
  {
    RunKeepsInv(START, xs);
  }

  /** Some point of the run is spent in the Disconnected role. */
  ghost predicate VisitsDisconnected(v: Node, xs: seq<NodeEvent>)
    requires Happens(v, xs)
    decreases |xs|
  {
    v.role == Disconnected || (xs != [] && VisitsDisconnected(Next(v, xs[0]), xs[1..]))
  }

  lemma {:induction false} AwayFromDisconnected(v: Node, xs: seq<NodeEvent>, role: Role)
    requires Inv(v) && Happens(v, xs) && role != Disconnected
    requires v.role == role || v.role == Inactive || v.role == Disconnected
    ensures VisitsDisconnected(v, xs) || After(v, xs).role == role || After(v, xs).role == Inactive
    decreases |xs|
  {
    if xs != [] && v.role != Disconnected {
      NextKeepsInv(v, xs[0]);
      AwayFromDisconnected(Next(v, xs[0]), xs[1..], role);
    }
  }

  /** No run leads from Slave to Master or from Master to Slave without passing Disconnected. */
  lemma NoShortcutBetweenSlaveAndMaster(xs: seq<NodeEvent>, ys: seq<NodeEvent>)
    requires Happens(START, xs) && Happens(After(START, xs), ys)
    ensures var v := After(START, xs);
      && (v.role == SlaveRole && After(v, ys).role == MasterRole ==> VisitsDisconnected(v, ys))
      && (v.role == MasterRole && After(v, ys).role == SlaveRole ==> VisitsDisconnected(v, ys))
  {
    RunKeepsInv(START, xs);
    var v := After(START, xs);
    if v.role == SlaveRole || v.role == MasterRole {
      AwayFromDisconnected(v, ys, v.role);
    }
  }

  /** The passages between roles: out of Inactive only to Disconnected, out of Disconnected anywhere, out of Master and
      Slave to Inactive and Disconnected. */
  predicate Passage(from: Role, to: Role) {
    || (from != Disconnected && to == Disconnected)
    || (from != Inactive && to == Inactive)
    || (from == Disconnected && (to == MasterRole || to == SlaveRole))
  }

  lemma OnlyThesePassages(xs: seq<NodeEvent>, x: NodeEvent)
    requires Happens(START, xs) && CanHappen(After(START, xs), x)
    ensures var v, u := After(START, xs), Next(After(START, xs), x);
      v.role != u.role ==> Passage(v.role, u.role) && u.stage == Entering
  {
    RunKeepsInv(START, xs);
  }

  /** The program of the node, left to itself, leaves its loop and enters the loop of the next role. */
  ghost predicate Passes(v: Node, to: Role, xs: seq<NodeEvent>) {
    Happens(v, xs) && After(v, xs).role == to && After(v, xs).stage == Looping
  }

  /** On the way out to a role, or already in it. */
  predicate Bound(v: Node, to: Role) {
    match v.stage
    case Leaving(next) => next == to
    case HalfOut(next) => next == to
    case _ => v.role == to
  }

  function ToLoop(stage: Stage): nat {
    match stage
    case Looping => 0
    case HalfIn => 1
    case Entering => 2
    case HalfOut(_) => 3
    case Leaving(_) => 4
  }

  lemma {:induction false} ProgramAlone(v: Node, to: Role)
    requires Inv(v) && Bound(v, to)
    ensures exists xs :: Passes(v, to, xs)
    decreases ToLoop(v.stage)
  {
    if v.stage == Looping {
      assert Passes(v, to, []);
    } else {
      var x := Program(to);
      NextKeepsInv(v, x);
      ProgramAlone(Next(v, x), to);
      var xs :| Passes(Next(v, x), to, xs);
      assert ([x] + xs)[1..] == xs;
      assert Passes(v, to, [x] + xs);
    }
  }

  /** And each of these passages can be made from every reachable loop. */
  lemma EachPassageIsPossible(xs: seq<NodeEvent>, to: Role)
    requires Happens(START, xs) && After(START, xs).stage == Looping && Passage(After(START, xs).role, to)
    ensures exists ys :: Passes(After(START, xs), to, ys)
  {
    RunKeepsInv(START, xs);
    var v := After(START, xs);
    var u := Next(v, Program(to));
    NextKeepsInv(v, Program(to));
    ProgramAlone(u, to);
    var ys :| Passes(u, to, ys);
    assert ([Program(to)] + ys)[1..] == ys;
    assert Passes(v, to, [Program(to)] + ys);
  }
}
