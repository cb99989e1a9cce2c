/** All elevators and all nodes together: what the elevators report travels to the node programs, from there as
    completion messages to the masters, and clears hall requests. Behind every cleared request is one report of that
    call by the elevator of the node that passed it on. */
module ServedCalls {
  import opened Elevators
  import opened ElevatorFsm
  import opened ElevatorSafety
  import opened HallLedger
  import opened HallOrders
  import opened Master
  import opened MessageBuffer
  import opened MessageIds
  import P = CompletionProtocol

  /** A completion on its way from an elevator to its node program, with the step at which it was reported. */
  datatype Report = Report(call: ButtonEvent, at: nat)

  datatype Node = Node(state: State, queue: seq<Report>)

  /** Which elevator reported, and at which step. */
  datatype Origin = Origin(node: int, at: nat)

  /** The protocol is seen from the completion transmitter of node me; the other nodes' completions are in it too.
      now counts the steps; origins is the history of each completion message. */
  datatype World = World(
    me: int, protocol: P.World, nodes: map<int, Node>, now: nat, origins: map<Completion, Origin>)

  datatype WorldEvent =
    | AtElevator(k: int, ev: Event)
    | Consumed(k: int, x: P.WorldEvent)
    | Ignored(k: int)
    | Network(x: P.WorldEvent)

  /** The program of node k passes on that its elevator completed c: a slave issues a message, a master clears the
      request itself. */
  predicate PassesOn(me: int, k: int, x: P.WorldEvent, c: ButtonEvent) {
    match x
    case Issue(call, _) => k == me && call == c
    case OtherIssue(ha) => k != me && ha.call == c
    case MasterActs(m, LocalComplete(call)) => m == k && call == c
    case _ => false
  }

  predicate NeedsReport(x: P.WorldEvent) {
    x.Issue? || x.OtherIssue? || (x.MasterActs? && x.ev.LocalComplete?)
  }

  /** A program passes on only the next completion its elevator reported; it may also ignore it, being in no role that
      cares. Everything else in the protocol happens as it likes. */
  predicate CanHappen(w: World, x: WorldEvent) {
    match x
    case AtElevator(k, ev) => k in w.nodes && Enabled(w.nodes[k].state, ev)
    case Consumed(k, p) =>
      && k in w.nodes && w.nodes[k].queue != []
      && P.CanHappen(w.protocol, p) && PassesOn(w.me, k, p, w.nodes[k].queue[0].call)
    case Ignored(k) => k in w.nodes && w.nodes[k].queue != []
    case Network(p) => P.CanHappen(w.protocol, p) && !NeedsReport(p)
  }

  function Stamped(calls: seq<ButtonEvent>, at: nat): (r: seq<Report>)
    ensures forall q :: q in r <==> q.at == at && q.call in calls
  {
    if calls == [] then [] else [Report(calls[0], at)] + Stamped(calls[1..], at)
  }

  function Popped(nodes: map<int, Node>, k: int): map<int, Node>
    requires k in nodes && nodes[k].queue != []
  {
    nodes[k := nodes[k].(queue := nodes[k].queue[1..])]
  }

  /** The history with the message issued by x, if it issues one, put down to o. */
  function Recorded(origins: map<Completion, Origin>, w: P.World, x: P.WorldEvent, o: Origin): map<Completion, Origin>
    requires P.CanHappen(w, x)
  {
    match x
    case Issue(call, draw) => origins[Completion(call, P.IdOf(draw)) := o]
    case OtherIssue(ha) => origins[ha := o]
    case _ => origins
  }

  function Next(w: World, x: WorldEvent): World
    requires CanHappen(w, x)
  {
    var v := w.(now := w.now + 1);
    match x
    case AtElevator(k, ev) =>
      var s, queue := w.nodes[k].state, w.nodes[k].queue;
      v.(nodes := w.nodes[k := Node(Step(s, ev), queue + Stamped(Reports(s, ev), w.now))])
    case Consumed(k, p) =>
      v.(protocol := P.Next(w.protocol, p), nodes := Popped(w.nodes, k),
         origins := Recorded(w.origins, w.protocol, p, Origin(k, w.nodes[k].queue[0].at)))
    case Ignored(k) => v.(nodes := Popped(w.nodes, k))
    case Network(p) => v.(protocol := P.Next(w.protocol, p))
  }

  /** Every elevator at start-up, nothing sent. */
  ghost predicate Initially(w: World, n: nat) {
    && w.protocol == P.START && w.now == 0 && w.origins == map[]
    && forall k :: k in w.nodes ==> w.nodes[k] == Node(Initial(n), [])
  }

  /** The worlds of a run and the events between them. */
  ghost predicate Trace(n: nat, ws: seq<World>, xs: seq<WorldEvent>) {
    && |ws| == |xs| + 1 && Initially(ws[0], n)
    && forall i :: 0 <= i < |xs| ==> CanHappen(ws[i], xs[i]) && ws[i + 1] == Next(ws[i], xs[i])
  }

  /** At step o.at of the run, the elevator of o.node reported c complete. */
  ghost predicate Reported(ws: seq<World>, xs: seq<WorldEvent>, o: Origin, c: ButtonEvent) {
    && o.at < |xs| && o.at < |ws| && xs[o.at].AtElevator? && xs[o.at].k == o.node && CanHappen(ws[o.at], xs[o.at])
    && c in Reports(ws[o.at].nodes[o.node].state, xs[o.at].ev)
  }

  // Everything under way was reported.

  ghost predicate Backed(ws: seq<World>, xs: seq<WorldEvent>, i: nat, k: int, v: Node) {
    && Inv(v.state)
    && forall r :: r in v.queue ==> r.at < i && Reported(ws, xs, Origin(k, r.at), r.call)
  }

  ghost predicate QueuesBacked(ws: seq<World>, xs: seq<WorldEvent>, i: nat, w: World) {
    forall k :: k in w.nodes ==> Backed(ws, xs, i, k, w.nodes[k])
  }

  /** Each completion issued has its origin, and the messages of node me have it at node me. */
  ghost predicate IssuedBacked(ws: seq<World>, xs: seq<WorldEvent>, i: nat, w: World) {
    && P.Inv(w.protocol)
    && (forall ha :: ha in w.protocol.issued ==>
          ha in w.origins && w.origins[ha].at < i && Reported(ws, xs, w.origins[ha], ha.call))
    && (forall ha :: ha in w.protocol.session ==> w.origins[ha].node == w.me)
  }

  ghost predicate AllBackedAt(ws: seq<World>, xs: seq<WorldEvent>, i: nat, w: World) {
    w.now == i && QueuesBacked(ws, xs, i, w) && IssuedBacked(ws, xs, i, w)
  }

  lemma QueuesStayBacked(ws: seq<World>, xs: seq<WorldEvent>, i: nat, w: World, x: WorldEvent)
    requires i < |xs| && i < |ws| && ws[i] == w && xs[i] == x && CanHappen(w, x)
    requires w.now == i && QueuesBacked(ws, xs, i, w)
    ensures QueuesBacked(ws, xs, i + 1, Next(w, x))
  {
    var v := Next(w, x);
    forall k | k in v.nodes
      ensures Backed(ws, xs, i + 1, k, v.nodes[k])
    {
      assert k in w.nodes && Backed(ws, xs, i, k, w.nodes[k]);
      if x.AtElevator? && x.k == k {
        StepKeepsInv(w.nodes[k].state, x.ev);
        assert forall r :: r in v.nodes[k].queue ==>
          r in w.nodes[k].queue || (r.at == i && r.call in Reports(w.nodes[k].state, x.ev));
      } else {
        assert forall r :: r in v.nodes[k].queue ==> r in w.nodes[k].queue;
      }
    }
  }

  /** A message is issued once, and what issues it says for which call. */
  lemma NewlyIssued(w: P.World, x: P.WorldEvent, origins: map<Completion, Origin>, o: Origin)
    requires P.Inv(w) && P.CanHappen(w, x)
    ensures w.issued <= P.Next(w, x).issued
    ensures forall ha :: ha in w.issued && ha in origins ==>
      ha in Recorded(origins, w, x, o) && Recorded(origins, w, x, o)[ha] == origins[ha]
    ensures forall ha :: ha in P.Next(w, x).issued && ha !in w.issued ==>
      && NeedsReport(x) && ha in Recorded(origins, w, x, o) && Recorded(origins, w, x, o)[ha] == o
      && forall me, k, c :: PassesOn(me, k, x, c) ==> ha.call == c
    ensures forall ha :: ha in P.Next(w, x).session && ha !in w.session ==> x.Issue? && ha !in w.issued
  {}

  lemma IssuedStaysBacked(ws: seq<World>, xs: seq<WorldEvent>, i: nat, w: World, x: WorldEvent)
    requires CanHappen(w, x) && QueuesBacked(ws, xs, i, w) && IssuedBacked(ws, xs, i, w)
    ensures IssuedBacked(ws, xs, i + 1, Next(w, x))
  {
    match x
    case Consumed(k, p) =>
      var r := w.nodes[k].queue[0];
      P.NextKeepsInv(w.protocol, p);
      NewlyIssued(w.protocol, p, w.origins, Origin(k, r.at));
      assert Backed(ws, xs, i, k, w.nodes[k]) && r in w.nodes[k].queue;
    case Network(p) =>
      P.NextKeepsInv(w.protocol, p);
      NewlyIssued(w.protocol, p, w.origins, Origin(0, 0));
    case _ =>
  }

  /** On every run every completion on its way to a node program was reported by that node's elevator, and every message
      ever issued was reported, before, by the elevator of the node that issued it. */
  lemma {:induction false} AllBacked(n: nat, ws: seq<World>, xs: seq<WorldEvent>, i: nat)
    requires n >= 2 && Trace(n, ws, xs) && i <= |xs|
    ensures AllBackedAt(ws, xs, i, ws[i])
  {
    if i == 0 {
      InitialInv(n);
    } else {
      AllBacked(n, ws, xs, i - 1);
      QueuesStayBacked(ws, xs, i - 1, ws[i - 1], xs[i - 1]);
      IssuedStaysBacked(ws, xs, i - 1, ws[i - 1], xs[i - 1]);
    }
  }

  // What clears a request, and where it comes from.

  /** The i-th event of the run clears hall request c at the running master m. */
  ghost predicate Clears(ws: seq<World>, xs: seq<WorldEvent>, i: nat, m: int, c: ButtonEvent)
    requires i < |xs| && |ws| == |xs| + 1
  {
    && m in ws[i].protocol.masters && m in ws[i + 1].protocol.masters
    && !(xs[i].Network? && xs[i].x.MasterStarts?)
    && Lit(ws[i].protocol.masters[m].hall, c) && !Lit(ws[i + 1].protocol.masters[m].hall, c)
  }

  /** Event x clears c at master m on the strength of report o: the next report of the master's own elevator, or the
      report behind a completion message. */
  ghost predicate BecauseOf(w: World, x: WorldEvent, m: int, c: ButtonEvent, o: Origin) {
    || (&& x == Consumed(m, P.MasterActs(m, LocalComplete(c))) && CanHappen(w, x)
        && o == Origin(m, w.nodes[m].queue[0].at))
    || (exists ha :: ha in w.protocol.issued && ha.call == c && ha in w.origins && o == w.origins[ha]
                     && x == Network(P.MasterActs(m, Completed(ha))))
  }

  lemma OwnClearHasCause(ws: seq<World>, xs: seq<WorldEvent>, i: nat, w: World, k: int, p: P.WorldEvent, m: int,
                         c: ButtonEvent)
    requires CanHappen(w, Consumed(k, p)) && P.Justified(w.protocol, p, m, c) && QueuesBacked(ws, xs, i, w)
    ensures var o := Origin(k, w.nodes[k].queue[0].at);
      BecauseOf(w, Consumed(k, p), m, c, o) && o.at < i && Reported(ws, xs, o, c)
  {
    assert Backed(ws, xs, i, k, w.nodes[k]) && w.nodes[k].queue[0] in w.nodes[k].queue;
  }

  lemma MessageClearHasCause(ws: seq<World>, xs: seq<WorldEvent>, i: nat, w: World, p: P.WorldEvent, m: int,
                             c: ButtonEvent) returns (o: Origin)
    requires CanHappen(w, Network(p)) && P.Justified(w.protocol, p, m, c) && IssuedBacked(ws, xs, i, w)
    ensures BecauseOf(w, Network(p), m, c, o) && o.at < i && Reported(ws, xs, o, c)
  {
    var ha :| ha in w.protocol.issued && ha.call == c && p == P.MasterActs(m, Completed(ha));
    o := w.origins[ha];
  }

  lemma ClearHasCause(n: nat, ws: seq<World>, xs: seq<WorldEvent>, i: nat, m: int, c: ButtonEvent) returns (o: Origin)
    requires n >= 2 && Trace(n, ws, xs) && i < |xs| && Clears(ws, xs, i, m, c)
    ensures BecauseOf(ws[i], xs[i], m, c, o) && o.at < i && Reported(ws, xs, o, c)
  {
    AllBacked(n, ws, xs, i);
    var w := ws[i];
    match xs[i]
    case Consumed(k, p) =>
      P.ClearIsJustified(w.protocol, p, m, c);
      OwnClearHasCause(ws, xs, i, w, k, p, m, c);
      o := Origin(k, w.nodes[k].queue[0].at);
    case Network(p) =>
      P.ClearIsJustified(w.protocol, p, m, c);
      o := MessageClearHasCause(ws, xs, i, w, p, m, c);
    case _ =>
      assert false;
  }

  // Since when the report is under way.

  /** Event x is the arrival of the message ha. */
  predicate Brings(x: WorldEvent, ha: Completion) {
    x.Network? && x.x.MasterActs? && x.x.ev == Completed(ha)
  }

  /** Report o of call c, or the message x brings because of it, is under way at w: on its way to the node program, or
      issued. */
  ghost predicate UnderWay(w: World, x: WorldEvent, c: ButtonEvent, o: Origin) {
    || (o.node in w.nodes && Report(c, o.at) in w.nodes[o.node].queue)
    || (exists ha :: ha in w.protocol.issued && Brings(x, ha))
  }

  /** If the message x brings is issued at w, then because of report o of call c. */
  ghost predicate IssuedFor(w: World, x: WorldEvent, c: ButtonEvent, o: Origin) {
    forall ha :: ha in w.protocol.issued && Brings(x, ha) ==> ha in w.origins && w.origins[ha] == o && ha.call == c
  }

  lemma OriginsStay(w: World, x: WorldEvent)
    requires P.Inv(w.protocol) && CanHappen(w, x)
    ensures w.protocol.issued <= Next(w, x).protocol.issued
    ensures forall ha :: ha in w.protocol.issued && ha in w.origins ==>
      ha in Next(w, x).origins && Next(w, x).origins[ha] == w.origins[ha]
  {
    match x
    case Consumed(k, p) => NewlyIssued(w.protocol, p, w.origins, Origin(k, w.nodes[k].queue[0].at));
    case Network(p) => NewlyIssued(w.protocol, p, w.origins, Origin(0, 0));
    case _ =>
  }

  lemma {:induction false} IssuedForBefore(n: nat, ws: seq<World>, xs: seq<WorldEvent>, h: nat, i: nat, x: WorldEvent,
                                           c: ButtonEvent, o: Origin)
    requires n >= 2 && Trace(n, ws, xs) && h <= i <= |xs| && IssuedFor(ws[i], x, c, o)
    ensures IssuedFor(ws[h], x, c, o)
    decreases i - h
  {
    if h < i {
      IssuedForBefore(n, ws, xs, h + 1, i, x, c, o);
      AllBacked(n, ws, xs, h);
      OriginsStay(ws[h], xs[h]);
    }
  }

  /** Before a report or its message was under way it was made. */
  lemma UnderWayBefore(w: World, y: WorldEvent, x: WorldEvent, c: ButtonEvent, o: Origin)
    requires P.Inv(w.protocol) && CanHappen(w, y) && o.at < w.now
    requires UnderWay(Next(w, y), x, c, o) && IssuedFor(Next(w, y), x, c, o)
    ensures UnderWay(w, x, c, o)
  {
    var v := Next(w, y);
    if o.node in v.nodes && Report(c, o.at) in v.nodes[o.node].queue {
      assert forall r :: r in v.nodes[o.node].queue ==> r in w.nodes[o.node].queue || r.at == w.now;
    } else {
      var ha :| ha in v.protocol.issued && Brings(x, ha);
      if ha !in w.protocol.issued {
        MadeFromQueue(w, y, ha);
      }
    }
  }

  lemma MadeFromQueue(w: World, y: WorldEvent, ha: Completion)
    requires P.Inv(w.protocol) && CanHappen(w, y)
    requires ha in Next(w, y).protocol.issued && ha !in w.protocol.issued
    ensures var v := Next(w, y);
      && ha in v.origins && v.origins[ha].node in w.nodes
      && Report(ha.call, v.origins[ha].at) in w.nodes[v.origins[ha].node].queue
  {
    match y
    case Consumed(k, p) =>
      NewlyIssued(w.protocol, p, w.origins, Origin(k, w.nodes[k].queue[0].at));
      assert w.nodes[k].queue[0] == Report(ha.call, w.nodes[k].queue[0].at);
    case Network(p) => NewlyIssued(w.protocol, p, w.origins, Origin(0, 0));
    case _ =>
  }

  lemma {:induction false} UnderWaySince(n: nat, ws: seq<World>, xs: seq<WorldEvent>, h: nat, i: nat, x: WorldEvent,
                                         c: ButtonEvent, o: Origin)
    requires n >= 2 && Trace(n, ws, xs) && o.at < h <= i <= |xs|
    requires UnderWay(ws[i], x, c, o) && IssuedFor(ws[i], x, c, o)
    ensures UnderWay(ws[h], x, c, o)
    decreases i - h
  {
    if h < i {
      UnderWaySince(n, ws, xs, h + 1, i, x, c, o);
      IssuedForBefore(n, ws, xs, h + 1, i, x, c, o);
      AllBacked(n, ws, xs, h);
      UnderWayBefore(ws[h], xs[h], x, c, o);
    }
  }

  lemma NotUnderWayYet(n: nat, ws: seq<World>, xs: seq<WorldEvent>, h: nat, x: WorldEvent, c: ButtonEvent, o: Origin)
    requires n >= 2 && Trace(n, ws, xs) && h <= |xs| && h <= o.at && IssuedFor(ws[h], x, c, o)
    ensures !UnderWay(ws[h], x, c, o)
  {
    AllBacked(n, ws, xs, h);
    assert o.node in ws[h].nodes ==> Backed(ws, xs, h, o.node, ws[h].nodes[o.node]);
  }

  lemma CauseIsUnderWay(w: World, x: WorldEvent, m: int, c: ButtonEvent, o: Origin)
    requires BecauseOf(w, x, m, c, o)
    ensures UnderWay(w, x, c, o) && IssuedFor(w, x, c, o)
  {
    if x.Consumed? {
      assert w.nodes[m].queue[0] == Report(c, o.at);
    } else {
      var ha :| ha in w.protocol.issued && ha.call == c && x == Network(P.MasterActs(m, Completed(ha)));
      assert Brings(x, ha);
    }
  }

  /** As it made report o, the cab stood at the floor of c with motor off, door open and lamp lit, and c was no longer
      pending there. */
  ghost predicate ServedAs(ws: seq<World>, o: Origin, c: ButtonEvent) {
    o.at + 1 < |ws| && o.node in ws[o.at + 1].nodes && OpenFor(ws[o.at + 1].nodes[o.node].state, c)
  }

  lemma ReportWasServed(n: nat, ws: seq<World>, xs: seq<WorldEvent>, o: Origin, c: ButtonEvent)
    requires n >= 2 && Trace(n, ws, xs) && Reported(ws, xs, o, c)
    ensures ServedAs(ws, o, c)
  {
    AllBacked(n, ws, xs, o.at);
    assert Backed(ws, xs, o.at, o.node, ws[o.at].nodes[o.node]);
    ReportedIsServed(ws[o.at].nodes[o.node].state, xs[o.at].ev, c);
  }

  /** Behind the clear at step i is report o of that very call by the elevator of the node that passed it on, made
      before as that cab served the call; and of any earlier moment h, the report was made since h exactly if neither it
      nor its message was under way at h. */
  ghost predicate Accounted(ws: seq<World>, xs: seq<WorldEvent>, i: nat, m: int, c: ButtonEvent, o: Origin)
    requires i < |xs| && |ws| == |xs| + 1
  {
    && BecauseOf(ws[i], xs[i], m, c, o) && o.at < i && Reported(ws, xs, o, c) && ServedAs(ws, o, c)
    && forall h: nat :: h <= i ==> (h <= o.at <==> !UnderWay(ws[h], xs[i], c, o))
  }

  /** From door to button, on every run of any number of elevators, slaves and masters over a network that loses,
      duplicates and reorders completions: every hall request cleared at a running master is accounted for by a report.
      With h the moment of the press that is cleared, this says when the clear answers that press: exactly if no
      report of the call that leads to this clear was under way as the button was pressed. */
  lemma EveryClearWasServed(n: nat, ws: seq<World>, xs: seq<WorldEvent>, i: nat, m: int, c: ButtonEvent)
    requires n >= 2 && Trace(n, ws, xs) && i < |xs| && Clears(ws, xs, i, m, c)
    ensures exists o: Origin :: Accounted(ws, xs, i, m, c, o)
  {
    var o := ClearHasCause(n, ws, xs, i, m, c);
    ReportWasServed(n, ws, xs, o, c);
    CauseIsUnderWay(ws[i], xs[i], m, c, o);
    forall h: nat | h <= i
      ensures h <= o.at <==> !UnderWay(ws[h], xs[i], c, o)
    {
      if h <= o.at {
        IssuedForBefore(n, ws, xs, h, i, xs[i], c, o);
        NotUnderWayYet(n, ws, xs, h, xs[i], c, o);
      } else {
        UnderWaySince(n, ws, xs, h, i, xs[i], c, o);
      }
    }
    assert Accounted(ws, xs, i, m, c, o);
  }

  /** At w no report of c is on its way to a node program. */
  ghost predicate NoneQueued(w: World, c: ButtonEvent) {
    forall k, r: Report :: k in w.nodes && r in w.nodes[k].queue ==> r.call != c
  }

  /** What can be checked at the press: if no report of c is on its way to a node program then, and the clear is not by
      a message issued before, some cab has served the call since the press. */
  lemma QuietPressIsServed(n: nat, ws: seq<World>, xs: seq<WorldEvent>, h: nat, i: nat, m: int, c: ButtonEvent)
    requires n >= 2 && Trace(n, ws, xs) && h <= i < |xs| && Clears(ws, xs, i, m, c)
    requires NoneQueued(ws[h], c) && forall ha :: ha in ws[h].protocol.issued ==> !Brings(xs[i], ha)
    ensures exists o: Origin :: h <= o.at < i && Reported(ws, xs, o, c) && ServedAs(ws, o, c)
  {
    EveryClearWasServed(n, ws, xs, i, m, c);
    var o :| Accounted(ws, xs, i, m, c, o);
    assert !UnderWay(ws[h], xs[i], c, o);
  }

  // A clear that answers no press: the report made before the press is still on the network.

  ghost predicate Ends(n: nat, ws: seq<World>, xs: seq<WorldEvent>, w: World) {
    Trace(n, ws, xs) && ws[|xs|] == w
  }

  ghost predicate Reachable(n: nat, w: World) {
    exists ws, xs :: Ends(n, ws, xs, w)
  }

  lemma ReachNext(n: nat, w: World, x: WorldEvent)
    requires Reachable(n, w) && CanHappen(w, x)
    ensures Reachable(n, Next(w, x))
  {
    var ws, xs :| Ends(n, ws, xs, w);
    assert Ends(n, ws + [Next(w, x)], xs + [x], Next(w, x));
  }

  /** At the reachable world w hall request c is not lit at master m. A press lights it, and the message ha, issued
      before the press, is the next thing to arrive and clears it again. */
  ghost predicate ClearsUnserved(n: nat, w: World, m: int, c: ButtonEvent, ha: Completion) {
    && Reachable(n, w) && ha in w.protocol.issued && m in w.protocol.masters && !Lit(w.protocol.masters[m].hall, c)
    && var press := Network(P.MasterActs(m, NewHallRequest(c)));
    && CanHappen(w, press)
    && var v := Next(w, press);
    && m in v.protocol.masters && Lit(v.protocol.masters[m].hall, c)
    && var late := Network(P.MasterActs(m, Completed(ha)));
    && CanHappen(v, late)
    && var u := Next(v, late);
    && m in u.protocol.masters && !Lit(u.protocol.masters[m].hall, c)
  }

  function Unlit(n: nat): HallCalls {
    seq(n, _ => HallRow(false, false))
  }

  /** A cab that stops at floor 1 going down reports the down call pressed there while its door is open. */
  lemma ReportsAtFloorOne(n: nat, c: ButtonEvent) returns (s: State)
    requires n >= 2 && c == ButtonEvent(1, HallDown)
    ensures Enabled(Initial(n), Arrive(1)) && s == Step(Initial(n), Arrive(1))
    ensures Reports(Initial(n), Arrive(1)) == []
    ensures Enabled(s, Press(c)) && Reports(s, Press(c)) == [c]
  {
    s := Step(Initial(n), Arrive(1));
    var here := Initial(n).elev.(floor := 1);
    assert !here.requests[0].Any() && !here.requests[1].Any();
    InitialInv(n);
    StepKeepsInv(Initial(n), Arrive(1));
    PressEffect(s, c);
  }

  /** What becomes of c at the new master 2 of the protocol alone. */
  lemma LateMessageClears(n: nat, c: ButtonEvent)
    returns (p1: P.World, p2: P.World, p3: P.World, p4: P.World, ha: Completion)
    requires n >= 2 && c == ButtonEvent(1, HallDown)
    ensures ha in p2.issued
    ensures p1 == P.Next(P.START, P.MasterStarts(2, Unlit(n), 2))
    ensures P.CanHappen(p1, P.Issue(c, 0)) && p2 == P.Next(p1, P.Issue(c, 0))
    ensures var press := P.MasterActs(2, NewHallRequest(c)); P.CanHappen(p2, press) && p3 == P.Next(p2, press)
    ensures var late := P.MasterActs(2, Completed(ha)); P.CanHappen(p3, late) && p4 == P.Next(p3, late)
    ensures 2 in p2.masters && !Lit(p2.masters[2].hall, c)
    ensures 2 in p3.masters && Lit(p3.masters[2].hall, c)
    ensures 2 in p4.masters && !Lit(p4.masters[2].hall, c)
  {
    p1 := P.Next(P.START, P.MasterStarts(2, Unlit(n), 2));
    p2 := P.Next(p1, P.Issue(c, 0));
    ha := Completion(c, P.IdOf(0));
    p3 := P.Next(p2, P.MasterActs(2, NewHallRequest(c)));
    GenerationDoesNotOverflow(HallAssignmentComplete, 0);
    assert p3.masters[2].ring == Fresh(2) && !Holds(Fresh(2), ha.id);
    p4 := P.Next(p3, P.MasterActs(2, Completed(ha)));
    FreshCompletionShows(p3.masters[2], ha);
  }

  lemma CallIsReported(n: nat, c: ButtonEvent, w: World) returns (v: World)
    requires n >= 2 && c == ButtonEvent(1, HallDown)
    requires Reachable(n, w) && w.nodes == map[1 := Node(Initial(n), [])]
    ensures Reachable(n, v) && v.protocol == w.protocol && v.me == w.me
    ensures 1 in v.nodes && v.nodes[1].queue != [] && v.nodes[1].queue[0].call == c
  {
    var s := ReportsAtFloorOne(n, c);
    ReachNext(n, w, AtElevator(1, Arrive(1)));
    var u := Next(w, AtElevator(1, Arrive(1)));
    assert [] + Stamped([], w.now) == [] && u.nodes[1] == Node(s, []);
    ReachNext(n, u, AtElevator(1, Press(c)));
    v := Next(u, AtElevator(1, Press(c)));
    assert v.nodes[1].queue == [] + Stamped([c], u.now) && Stamped([c], u.now) == [Report(c, u.now)];
  }

  lemma MessageIsIssued(n: nat, c: ButtonEvent, p1: P.World, p2: P.World) returns (w: World)
    requires n >= 2 && c == ButtonEvent(1, HallDown)
    requires p1 == P.Next(P.START, P.MasterStarts(2, Unlit(n), 2))
    requires P.CanHappen(p1, P.Issue(c, 0)) && p2 == P.Next(p1, P.Issue(c, 0))
    ensures Reachable(n, w) && w.protocol == p2
  {
    var w0 := World(1, P.START, map[1 := Node(Initial(n), [])], 0, map[]);
    assert Ends(n, [w0], [], w0);
    var start := P.MasterStarts(2, Unlit(n), 2);
    ReachNext(n, w0, Network(start));
    var w2 := CallIsReported(n, c, Next(w0, Network(start)));
    ReachNext(n, w2, Consumed(1, P.Issue(c, 0)));
    w := Next(w2, Consumed(1, P.Issue(c, 0)));
  }

  /** It happens for every number of floors, from start-up: a cab reports the down call at floor 1 and the message is
      issued; the button is pressed again at the master; the message arrives and clears the new press, which no cab has
      served. */
  lemma ALateMessageClearsANewPress(n: nat)
    requires n >= 2
    ensures exists w: World, m: int, c: ButtonEvent, ha: Completion :: ClearsUnserved(n, w, m, c, ha)
  {
    var c := ButtonEvent(1, HallDown);
    var p1, p2, p3, p4, ha := LateMessageClears(n, c);
    var w := MessageIsIssued(n, c, p1, p2);
    assert ClearsUnserved(n, w, 2, c, ha);
  }
}
