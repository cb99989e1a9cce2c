/** Hall assignments from one transmitter to the slave `me` over a channel that loses and duplicates messages but
    keeps their order, with acks coming back over a network that may do anything but invent them. */
module AssignmentDelivery {
  import opened Elevators
  import opened MessageIds
  import opened Transmitters
  import opened Slave
  import opened Wrappers

  /** The history of generation: the assignments in the order their ids were generated, the place of each id in
      it, and the place of the last assignment made for each node. */
  datatype Log = Log(made: seq<Assignment>, rank: map<uint64, nat>, newest: map<int, nat>)

  function Logged(log: Log, m: Assignment): Log {
    Log(log.made + [m], log.rank[m.id := |log.made|], log.newest[m.node := |log.made|])
  }

  function Rank(log: Log, id: uint64): int {
    if id in log.rank then log.rank[id] else -1
  }

  /** acks are (node, id) pairs. */
  datatype World = World(tx: AssignTx, net: seq<Assignment>, slave: SlaveState, acks: set<(int, uint64)>, log: Log)

  datatype WorldEvent =
    | Send(ev: AssignEvent)
    | Deliver
    | Lose(i: nat)
    | Duplicate(i: nat)
    | Broadcast(h: HallCalls)

  /** Generated ids are distinct, timeouts come from timers, and acks of the slave `me` from the slave. */
  predicate CanHappen(w: World, x: WorldEvent) {
    match x
    case Send(ev) =>
      && AssignAllowed(w.tx, w.log.rank.Keys, ev)
      && (ev.Acked? && ev.node == w.slave.me ==> (ev.node, ev.id) in w.acks)
    case Deliver => w.net != []
    case Lose(i) => i < |w.net|
    case Duplicate(i) => i < |w.net|
    case Broadcast(_) => true
  }

  /** What the transmitter's step puts on the channel. */
  function Sent(t: AssignTx, ev: AssignEvent): seq<Assignment>
    requires ev.Timeout? ==> MayResend(t.active, ev.id, ev.resend)
  {
    AssignStep(t, ev).sent[|t.sent|..]
  }

  ghost function Next(w: World, x: WorldEvent): World
    requires CanHappen(w, x)
  {
    match x
    case Send(ev) =>
      w.(tx := AssignStep(w.tx, ev), net := w.net + Sent(w.tx, ev),
         log := if ev.New? && w.tx.enable then Logged(w.log, ev.a.(id := ev.id)) else w.log)
    case Deliver =>
      var m := w.net[0];
      w.(net := w.net[1..], slave := SlaveStep(w.slave, GotAssignment(m)),
         acks := if Accepts(w.slave, m) then w.acks + {(m.node, m.id)} else w.acks)
    case Lose(i) => w.(net := w.net[..i] + w.net[i + 1..])
    case Duplicate(i) => w.(net := w.net[..i + 1] + w.net[i..])
    case Broadcast(h) => w.(slave := SlaveStep(w.slave, GotGlobal(h)))
  }

  function Start(me: int, hall: HallCalls): World {
    World(ASSIGN_START, [], SlaveStart(me, hall), {}, Log([], map[], map[]))
  }

  /** m was generated, at the place its id says. */
  ghost predicate Made(log: Log, m: Assignment) {
    0 <= Rank(log, m.id) < |log.made| && log.made[Rank(log, m.id)] == m
  }

  ghost predicate LogSound(log: Log) {
    && (forall id :: id in log.rank ==> log.rank[id] < |log.made| && log.made[log.rank[id]].id == id)
    && (forall i :: 0 <= i < |log.made| ==>
          && Rank(log, log.made[i].id) == i
          && log.made[i].node in log.newest && i <= log.newest[log.made[i].node])
    && (forall k :: k in log.newest ==> log.newest[k] < |log.made| && log.made[log.newest[k]].node == k)
  }

  /** What is pending for a node is the newest assignment made for it. */
  ghost predicate PendingIsNewest(log: Log, active: map<int, Assignment>) {
    forall k :: k in active ==> k in log.newest && log.newest[k] < |log.made| && active[k] == log.made[log.newest[k]]
  }

  /** For each node, the messages are in the order they were made. */
  ghost predicate InOrder(log: Log, ms: seq<Assignment>) {
    && (forall i :: 0 <= i < |ms| ==> Made(log, ms[i]))
    && (forall i, j :: 0 <= i < j < |ms| && ms[i].node == ms[j].node ==> Rank(log, ms[i].id) <= Rank(log, ms[j].id))
  }

  /** No message for the node was made before place r. */
  ghost predicate From(log: Log, r: int, node: int, ms: seq<Assignment>) {
    forall m :: m in ms && m.node == node ==> r <= Rank(log, m.id)
  }

  function LastRank(log: Log, applied: seq<Assignment>): int {
    if applied == [] then -1 else Rank(log, applied[|applied| - 1].id)
  }

  /** What the slave has applied is in strict order and no later than everything still on the way to it. */
  ghost predicate AppliedInOrder(log: Log, s: SlaveState, net: seq<Assignment>) {
    && (forall i :: 0 <= i < |s.applied| ==> Made(log, s.applied[i]) && s.applied[i].node == s.me)
    && (forall i, j :: 0 <= i < j < |s.applied| ==> Rank(log, s.applied[i].id) < Rank(log, s.applied[j].id))
    && s.lastId == (if s.applied == [] then 0 else s.applied[|s.applied| - 1].id)
    && From(log, LastRank(log, s.applied), s.me, net)
  }

  /** An acked id is no later than what the slave applied last and than everything still on the way to it; before
      anything is applied, only the id 0 can have been acked. */
  ghost predicate AcksSound(log: Log, s: SlaveState, net: seq<Assignment>, acks: set<(int, uint64)>) {
    forall id :: (s.me, id) in acks ==>
      && id in log.rank && log.rank[id] < |log.made| && log.made[log.rank[id]].node == s.me
      && From(log, Rank(log, id), s.me, net)
      && (if s.applied == [] then id == 0 else Rank(log, id) <= LastRank(log, s.applied))
  }

  ghost predicate Inv(w: World) {
    && LogSound(w.log)
    && PendingIsNewest(w.log, w.tx.active)
    && InOrder(w.log, w.net) && InOrder(w.log, w.tx.sent)
    && AppliedInOrder(w.log, w.slave, w.net)
    && AcksSound(w.log, w.slave, w.net, w.acks)
  }

  // Generation: the log grows at the end and what is known stays where it is.

  ghost predicate Grows(log: Log, next: Log) {
    && |log.made| <= |next.made|
    && (forall i :: 0 <= i < |log.made| ==> next.made[i] == log.made[i])
    && (forall id :: id in log.rank ==> Rank(next, id) == Rank(log, id))
  }

  lemma LoggedGrows(log: Log, m: Assignment)
    requires m.id !in log.rank
    ensures Grows(log, Logged(log, m))
    ensures Rank(Logged(log, m), m.id) == |log.made| && Made(Logged(log, m), m)
  {}

  lemma LoggedSound(log: Log, m: Assignment)
    requires LogSound(log) && m.id !in log.rank
    ensures LogSound(Logged(log, m))
  {
    LoggedGrows(log, m);
  }

  lemma LoggedKeepsPending(log: Log, m: Assignment, active: map<int, Assignment>)
    requires PendingIsNewest(log, active)
    ensures PendingIsNewest(Logged(log, m), active[m.node := m])
  {}

  lemma AppendLogged(log: Log, ms: seq<Assignment>, m: Assignment)
    requires m.id !in log.rank && InOrder(log, ms)
    ensures InOrder(Logged(log, m), ms + [m])
  {}

  lemma GrowKeepsApplied(log: Log, next: Log, s: SlaveState, net: seq<Assignment>)
    requires Grows(log, next) && InOrder(log, net) && AppliedInOrder(log, s, net)
    ensures AppliedInOrder(next, s, net) && LastRank(next, s.applied) == LastRank(log, s.applied) < |log.made|
  {}

  lemma GrowKeepsAcks(log: Log, next: Log, s: SlaveState, net: seq<Assignment>, acks: set<(int, uint64)>)
    requires Grows(log, next) && InOrder(log, net) && AcksSound(log, s, net, acks)
    requires LastRank(next, s.applied) == LastRank(log, s.applied)
    ensures AcksSound(next, s, net, acks)
  {}

  /** A message no older than anything the slave applied or acked may join what is on the way to it. */
  lemma AppendOnTheWay(log: Log, s: SlaveState, net: seq<Assignment>, acks: set<(int, uint64)>, m: Assignment)
    requires AppliedInOrder(log, s, net) && AcksSound(log, s, net, acks)
    requires m.node == s.me ==> LastRank(log, s.applied) <= Rank(log, m.id)
    requires m.node == s.me ==> forall id :: (s.me, id) in acks ==> Rank(log, id) <= Rank(log, m.id)
    ensures AppliedInOrder(log, s, net + [m]) && AcksSound(log, s, net + [m], acks)
  {}

  lemma SendNewKeepsInv(w: World, a: Assignment, id: uint64)
    requires Inv(w) && CanHappen(w, Send(New(a, id))) && w.tx.enable
    ensures Inv(Next(w, Send(New(a, id))))
  {
    var m := a.(id := id);
    var next := Logged(w.log, m);
    assert Sent(w.tx, New(a, id)) == [m];
    LoggedSound(w.log, m);
    LoggedGrows(w.log, m);
    LoggedKeepsPending(w.log, m, w.tx.active);
    AppendLogged(w.log, w.net, m);
    AppendLogged(w.log, w.tx.sent, m);
    GrowKeepsApplied(w.log, next, w.slave, w.net);
    GrowKeepsAcks(w.log, next, w.slave, w.net, w.acks);
    assert forall i :: i in w.log.rank ==> Rank(next, i) < |w.log.made|;
    AppendOnTheWay(next, w.slave, w.net, w.acks, m);
  }

  // Retransmission: the newest message of a node goes behind everything sent for it.

  lemma NewestIsMade(log: Log, k: int)
    requires LogSound(log) && k in log.newest
    ensures Made(log, log.made[log.newest[k]]) && Rank(log, log.made[log.newest[k]].id) == log.newest[k]
  {}

  lemma AppendNewest(log: Log, ms: seq<Assignment>, m: Assignment)
    requires LogSound(log) && InOrder(log, ms) && m.node in log.newest && m == log.made[log.newest[m.node]]
    ensures InOrder(log, ms + [m])
  {}

  lemma NothingAheadOfNewest(log: Log, s: SlaveState, net: seq<Assignment>, acks: set<(int, uint64)>)
    requires LogSound(log) && s.me in log.newest && AppliedInOrder(log, s, net) && AcksSound(log, s, net, acks)
    ensures LastRank(log, s.applied) <= log.newest[s.me]
    ensures forall id :: (s.me, id) in acks ==> Rank(log, id) <= log.newest[s.me]
  {}

  lemma ResendKeepsInv(w: World, id: uint64, k: int)
    requires Inv(w) && CanHappen(w, Send(Timeout(id, Some(k))))
    ensures Inv(Next(w, Send(Timeout(id, Some(k)))))
  {
    var m := w.tx.active[k];
    assert Sent(w.tx, Timeout(id, Some(k))) == [m];
    NewestIsMade(w.log, k);
    AppendNewest(w.log, w.net, m);
    AppendNewest(w.log, w.tx.sent, m);
    if k == w.slave.me {
      NothingAheadOfNewest(w.log, w.slave, w.net, w.acks);
    }
    AppendOnTheWay(w.log, w.slave, w.net, w.acks, m);
  }

  // The channel.

  /** What is left or repeated of a channel is taken from it at places that never go down. */
  ghost predicate PickedAt(ms: seq<Assignment>, picked: seq<Assignment>, at: nat -> nat) {
    && (forall j: nat :: j < |picked| ==> at(j) < |ms| && picked[j] == ms[at(j)])
    && (forall i: nat, j: nat :: i < j < |picked| ==> at(i) <= at(j))
  }

  lemma PickInOrder(log: Log, ms: seq<Assignment>, picked: seq<Assignment>, at: nat -> nat)
    requires InOrder(log, ms) && PickedAt(ms, picked, at)
    ensures InOrder(log, picked)
    ensures forall m :: m in picked ==> m in ms
  {}

  lemma LosePicks(ms: seq<Assignment>, i: nat) returns (at: nat -> nat)
    requires i < |ms|
    ensures PickedAt(ms, ms[..i] + ms[i + 1..], at)
  {
    at := j => if j < i then j else j + 1;
  }

  lemma DuplicatePicks(ms: seq<Assignment>, i: nat) returns (at: nat -> nat)
    requires i < |ms|
    ensures PickedAt(ms, ms[..i + 1] + ms[i..], at)
  {
    at := j => if j <= i then j else j - 1;
  }

  /** What the slave and the acks are owed concerns only which messages are on the way. */
  lemma FewerOnTheWay(log: Log, s: SlaveState, net: seq<Assignment>, fewer: seq<Assignment>, acks: set<(int, uint64)>)
    requires AppliedInOrder(log, s, net) && AcksSound(log, s, net, acks) && forall m :: m in fewer ==> m in net
    ensures AppliedInOrder(log, s, fewer) && AcksSound(log, s, fewer, acks)
  {}

  lemma HeadIsOldest(log: Log, net: seq<Assignment>)
    requires net != [] && InOrder(log, net)
    ensures InOrder(log, net[1..]) && Made(log, net[0])
    ensures From(log, Rank(log, net[0].id), net[0].node, net[1..])
  {}

  lemma DeliverKeepsInv(w: World)
    requires Inv(w) && CanHappen(w, Deliver)
    ensures Inv(Next(w, Deliver))
  {
    var m, rest := w.net[0], w.net[1..];
    HeadIsOldest(w.log, w.net);
    FewerOnTheWay(w.log, w.slave, w.net, rest, w.acks);
    if Accepts(w.slave, m) {
      assert m in w.net;
      Receive(w.log, w.slave, m, rest, w.acks);
    }
  }

  lemma ChannelKeepsInv(w: World, net: seq<Assignment>, at: nat -> nat)
    requires Inv(w) && PickedAt(w.net, net, at)
    ensures Inv(w.(net := net))
  {
    PickInOrder(w.log, w.net, net, at);
    FewerOnTheWay(w.log, w.slave, w.net, net, w.acks);
  }

  lemma LoseKeepsInv(w: World, i: nat)
    requires Inv(w) && CanHappen(w, Lose(i))
    ensures Inv(Next(w, Lose(i)))
  {
    var at := LosePicks(w.net, i);
    ChannelKeepsInv(w, w.net[..i] + w.net[i + 1..], at);
  }

  lemma DuplicateKeepsInv(w: World, i: nat)
    requires Inv(w) && CanHappen(w, Duplicate(i))
    ensures Inv(Next(w, Duplicate(i)))
  {
    var at := DuplicatePicks(w.net, i);
    ChannelKeepsInv(w, w.net[..i + 1] + w.net[i..], at);
  }

  /** A message not yet applied becomes the last one applied. */
  lemma Apply(log: Log, s: SlaveState, m: Assignment, rest: seq<Assignment>)
    requires AppliedInOrder(log, s, rest) && Made(log, m) && m.node == s.me
    requires s.applied == [] || LastRank(log, s.applied) < Rank(log, m.id)
    requires From(log, Rank(log, m.id), s.me, rest)
    ensures AppliedInOrder(log, s.(lastId := m.id, applied := s.applied + [m]), rest)
    ensures LastRank(log, s.applied + [m]) == Rank(log, m.id)
  {
    if s.applied != [] {
      var last := s.applied[|s.applied| - 1];
      assert forall i :: 0 <= i < |s.applied| ==> Rank(log, s.applied[i].id) <= Rank(log, last.id);
    }
  }

  lemma DifferentIdIsLater(log: Log, s: SlaveState, m: Assignment, rest: seq<Assignment>)
    requires AppliedInOrder(log, s, rest) && Made(log, m) && s.applied != [] && s.lastId != m.id
    requires LastRank(log, s.applied) <= Rank(log, m.id)
    ensures LastRank(log, s.applied) < Rank(log, m.id)
  {}

  lemma Receive(log: Log, s: SlaveState, m: Assignment, rest: seq<Assignment>, acks: set<(int, uint64)>)
    requires LogSound(log) && AppliedInOrder(log, s, rest) && AcksSound(log, s, rest, acks)
    requires Accepts(s, m) && Made(log, m) && LastRank(log, s.applied) <= Rank(log, m.id)
    requires From(log, Rank(log, m.id), s.me, rest)
    requires forall id :: (s.me, id) in acks ==> Rank(log, id) <= Rank(log, m.id)
    ensures AppliedInOrder(log, SlaveStep(s, GotAssignment(m)), rest)
    ensures AcksSound(log, SlaveStep(s, GotAssignment(m)), rest, acks + {(m.node, m.id)})
  {
    if s.lastId != m.id {
      if s.applied != [] {
        DifferentIdIsLater(log, s, m, rest);
      }
      Apply(log, s, m, rest);
      var t := SlaveStep(s, GotAssignment(m));
      assert t.applied == s.applied + [m] && AppliedInOrder(log, t, rest);
    }
  }

  lemma NextKeepsInv(w: World, x: WorldEvent)
    requires Inv(w) && CanHappen(w, x)
    ensures Inv(Next(w, x))
  {
    match x
    case Send(ev) => SendKeepsInv(w, ev);
    case Deliver => DeliverKeepsInv(w);
    case Lose(i) => LoseKeepsInv(w, i);
    case Duplicate(i) => DuplicateKeepsInv(w, i);
    case Broadcast(h) =>
  }

  lemma SendKeepsInv(w: World, ev: AssignEvent)
    requires Inv(w) && CanHappen(w, Send(ev))
    ensures Inv(Next(w, Send(ev)))
  {
    if ev.New? && w.tx.enable {
      SendNewKeepsInv(w, ev.a, ev.id);
    } else if ev.Timeout? && ev.resend.Some? {
      ResendKeepsInv(w, ev.id, ev.resend.value);
    } else {
      assert Sent(w.tx, ev) == [] && w.net + [] == w.net;
    }
  }

  lemma NextKeepsNode(w: World, x: WorldEvent)
    requires CanHappen(w, x)
    ensures Next(w, x).slave.me == w.slave.me
  {}

  ghost predicate Happens(w: World, xs: seq<WorldEvent>)
    decreases |xs|
  {
    xs == [] || (CanHappen(w, xs[0]) && Happens(Next(w, xs[0]), xs[1..]))
  }

  ghost function After(w: World, xs: seq<WorldEvent>): World
    requires Happens(w, xs)
    decreases |xs|
  {
    if xs == [] then w else After(Next(w, xs[0]), xs[1..])
  }

  lemma {:induction false} RunKeepsInv(w: World, xs: seq<WorldEvent>)
    requires Inv(w) && Happens(w, xs)
    ensures Inv(After(w, xs)) && After(w, xs).slave.me == w.slave.me
    decreases |xs|
  {
    if xs != [] {
      NextKeepsInv(w, xs[0]);
      NextKeepsNode(w, xs[0]);
      RunKeepsInv(Next(w, xs[0]), xs[1..]);
    }
  }

  lemma StartInv(me: int, hall: HallCalls)
    ensures Inv(Start(me, hall))
  {}

  /** In every run: for each node the transmitter never sends an older assignment after a newer one, and the slave
      applies only assignments made for it, each at most once and in the order they were generated. */
  lemma DeliveredInOrder(me: int, hall: HallCalls, xs: seq<WorldEvent>)
    requires Happens(Start(me, hall), xs)
    ensures var w := After(Start(me, hall), xs);
      && InOrder(w.log, w.tx.sent)
      && (forall i :: 0 <= i < |w.slave.applied| ==> Made(w.log, w.slave.applied[i]) && w.slave.applied[i].node == me)
      && (forall i, j :: 0 <= i < j < |w.slave.applied| ==>
            Rank(w.log, w.slave.applied[i].id) < Rank(w.log, w.slave.applied[j].id))
  {
    StartInv(me, hall);
    RunKeepsInv(Start(me, hall), xs);
  }

  /** The slave's entry is pending and the ack empties it. */
  predicate AckEmpties(w: World, id: uint64) {
    && CanHappen(w, Send(Acked(w.slave.me, id)))
    && w.slave.me in w.tx.active && w.slave.me !in AssignStep(w.tx, Acked(w.slave.me, id)).active
  }

  /** The last assignment applied is the newest one made for the slave; only if it has applied nothing is there an
      exception, and then the acked id is 0. */
  ghost predicate NewestIsApplied(w: World, id: uint64) {
    && w.slave.me in w.log.newest && w.log.newest[w.slave.me] < |w.log.made|
    && (if w.slave.applied == [] then id == 0
        else w.slave.applied[|w.slave.applied| - 1] == w.log.made[w.log.newest[w.slave.me]])
  }

  lemma AckedIsApplied(w: World, id: uint64)
    requires Inv(w) && AckEmpties(w, id)
    ensures NewestIsApplied(w, id)
  {}

  // The run as the slave sees it.

  ghost function HeardAt(w: World, x: WorldEvent): seq<SlaveEvent>
    requires CanHappen(w, x)
  {
    match x
    case Deliver => [GotAssignment(w.net[0])]
    case Broadcast(h) => [GotGlobal(h)]
    case _ => []
  }

  /** What the slave receives in a run. */
  ghost function Heard(w: World, xs: seq<WorldEvent>): seq<SlaveEvent>
    requires Happens(w, xs)
    decreases |xs|
  {
    if xs == [] then [] else HeardAt(w, xs[0]) + Heard(Next(w, xs[0]), xs[1..])
  }

  /** Having heard evs, the slave is in its session, what it accepted came in the order it was made, and it acked
      exactly that. */
  ghost predicate InSession(w: World, me: int, hall: HallCalls, evs: seq<SlaveEvent>) {
    && w.slave == SlaveAfter(SlaveStart(me, hall), evs) && w.slave.me == me && w.slave.hall == LastGlobal(hall, evs)
    && InOrder(w.log, Accepted(me, hall, evs))
    && AckedAre(w.acks, me, Accepted(me, hall, evs))
  }

  ghost predicate HasId(ms: seq<Assignment>, id: uint64) {
    exists m :: m in ms && m.id == id
  }

  ghost predicate AckedAre(acks: set<(int, uint64)>, me: int, ms: seq<Assignment>) {
    (forall m :: m in ms ==> m.node == me) && forall id: uint64 :: (me, id) in acks <==> HasId(ms, id)
  }

  lemma AcceptedInOrder(log: Log, s: SlaveState, net: seq<Assignment>, acks: set<(int, uint64)>, ms: seq<Assignment>)
    requires net != [] && InOrder(log, net) && AcksSound(log, s, net, acks) && net[0].node == s.me
    requires InOrder(log, ms) && AckedAre(acks, s.me, ms)
    ensures InOrder(log, ms + [net[0]])
  {
    assert net[0] in net;
    forall i | 0 <= i < |ms|
      ensures Rank(log, ms[i].id) <= Rank(log, net[0].id)
    {
      assert ms[i] in ms && (s.me, ms[i].id) in acks;
    }
  }

  lemma AcceptedIsAcked(acks: set<(int, uint64)>, me: int, ms: seq<Assignment>, m: Assignment)
    requires AckedAre(acks, me, ms) && m.node == me
    ensures AckedAre(acks + {(me, m.id)}, me, ms + [m])
  {
    assert m in ms + [m] && forall k :: k in ms + [m] <==> k in ms || k == m;
  }

  lemma DeliverInSession(w: World, me: int, hall: HallCalls, evs: seq<SlaveEvent>)
    requires Inv(w) && CanHappen(w, Deliver) && InSession(w, me, hall, evs)
    ensures InSession(Next(w, Deliver), me, hall, evs + [GotAssignment(w.net[0])])
  {
    var m := w.net[0];
    assert (evs + [GotAssignment(m)])[..|evs|] == evs;
    if Accepts(w.slave, m) {
      AcceptedInOrder(w.log, w.slave, w.net, w.acks, Accepted(me, hall, evs));
      AcceptedIsAcked(w.acks, me, Accepted(me, hall, evs), m);
    } else {
      assert Accepted(me, hall, evs) + [] == Accepted(me, hall, evs);
    }
  }

  lemma BroadcastInSession(w: World, h: HallCalls, me: int, hall: HallCalls, evs: seq<SlaveEvent>)
    requires InSession(w, me, hall, evs)
    ensures InSession(Next(w, Broadcast(h)), me, hall, evs + [GotGlobal(h)])
  {
    assert (evs + [GotGlobal(h)])[..|evs|] == evs;
    assert Accepted(me, hall, evs) + [] == Accepted(me, hall, evs);
  }

  lemma SendInSession(w: World, ev: AssignEvent, me: int, hall: HallCalls, evs: seq<SlaveEvent>)
    requires CanHappen(w, Send(ev)) && InSession(w, me, hall, evs)
    ensures InSession(Next(w, Send(ev)), me, hall, evs)
  {
    if ev.New? && w.tx.enable {
      LoggedGrows(w.log, ev.a.(id := ev.id));
    }
  }

  lemma NextInSession(w: World, x: WorldEvent, me: int, hall: HallCalls, evs: seq<SlaveEvent>)
    requires Inv(w) && CanHappen(w, x) && InSession(w, me, hall, evs)
    ensures InSession(Next(w, x), me, hall, evs + HeardAt(w, x))
  {
    assert evs + [] == evs;
    match x
    case Deliver => DeliverInSession(w, me, hall, evs);
    case Broadcast(h) => BroadcastInSession(w, h, me, hall, evs);
    case Send(ev) => SendInSession(w, ev, me, hall, evs);
    case _ =>
  }

  lemma {:induction false} RunInSession(w: World, xs: seq<WorldEvent>, me: int, hall: HallCalls, evs: seq<SlaveEvent>)
    requires Inv(w) && Happens(w, xs) && InSession(w, me, hall, evs)
    ensures InSession(After(w, xs), me, hall, evs + Heard(w, xs))
    decreases |xs|
  {
    if xs == [] {
      assert evs + [] == evs;
    } else {
      NextInSession(w, xs[0], me, hall, evs);
      NextKeepsInv(w, xs[0]);
      RunInSession(Next(w, xs[0]), xs[1..], me, hall, evs + HeardAt(w, xs[0]));
      Concat3(evs, HeardAt(w, xs[0]), Heard(Next(w, xs[0]), xs[1..]));
    }
  }

  lemma StartInSession(me: int, hall: HallCalls)
    ensures InSession(Start(me, hall), me, hall, [])
  {}

  lemma WholeRunInSession(me: int, hall: HallCalls, xs: seq<WorldEvent>)
    requires Happens(Start(me, hall), xs)
    ensures Inv(After(Start(me, hall), xs))
    ensures InSession(After(Start(me, hall), xs), me, hall, Heard(Start(me, hall), xs))
  {
    var w, heard := Start(me, hall), Heard(Start(me, hall), xs);
    StartInv(me, hall);
    StartInSession(me, hall);
    RunKeepsInv(w, xs);
    RunInSession(w, xs, me, hall, []);
    assert [] + heard == heard;
  }

  lemma {:induction false} FirstCopyKept(prev: uint64, ms: seq<Assignment>, m: Assignment)
    requires m in ms && m.id != prev && forall k :: k in ms && k.id == m.id ==> k == m
    ensures m in Dedup(prev, ms)
    decreases |ms|
  {
    if ms[0] != m {
      FirstCopyKept(ms[0].id, ms[1..], m);
    }
  }

  lemma {:induction false} DedupKeepsNoMore(prev: uint64, ms: seq<Assignment>)
    ensures forall m :: m in Dedup(prev, ms) ==> m in ms
    decreases |ms|
  {
    if ms != [] {
      DedupKeepsNoMore(ms[0].id, ms[1..]);
    }
  }

  /** A message followed by a different one does not come again. */
  lemma NotAgain(log: Log, ms: seq<Assignment>)
    requires InOrder(log, ms) && |ms| > 1 && ms[1].id != ms[0].id
    requires forall i :: 0 <= i < |ms| ==> ms[i].node == ms[0].node
    ensures ms[0] !in ms[1..]
  {}

  lemma {:induction false} LeadingZerosDropped(log: Log, ms: seq<Assignment>, m: Assignment)
    requires InOrder(log, ms) && ms != [] && ms[0] == m && m.id == 0
    requires forall i :: 0 <= i < |ms| ==> ms[i].node == m.node
    ensures m !in Dedup(0, ms)
    decreases |ms|
  {
    var rest := ms[1..];
    assert Dedup(0, ms) == Dedup(0, rest);
    if rest != [] && rest[0].id == 0 {
      assert Made(log, ms[0]) && Made(log, ms[1]);
      assert InOrder(log, rest);
      LeadingZerosDropped(log, rest, m);
    } else {
      DedupKeepsNoMore(0, rest);
      if rest != [] {
        NotAgain(log, ms);
      }
    }
  }

  lemma KeptUnlessLeadingZero(log: Log, ms: seq<Assignment>, m: Assignment)
    requires InOrder(log, ms) && m in ms && forall k :: k in ms ==> k.node == m.node
    ensures m in Dedup(0, ms) <==> m.id != 0 || ms[0].id != 0
  {
    assert forall k :: k in ms ==> Made(log, k);
    if m.id != 0 {
      FirstCopyKept(0, ms, m);
    } else if ms[0].id != 0 {
      assert m in ms[1..] && forall k :: k in ms[1..] ==> k in ms;
      FirstCopyKept(ms[0].id, ms[1..], m);
    } else {
      LeadingZerosDropped(log, ms, m);
    }
  }

  /** In every run the slave applies every assignment it accepts, with one exception: the one with id 0, if it is the
      first that the session accepts, is acked and never applied. */
  lemma AcceptedIsApplied(me: int, hall: HallCalls, xs: seq<WorldEvent>, m: Assignment)
    requires Happens(Start(me, hall), xs) && m in Accepted(me, hall, Heard(Start(me, hall), xs))
    ensures var w, ms := After(Start(me, hall), xs), Accepted(me, hall, Heard(Start(me, hall), xs));
      && (me, m.id) in w.acks
      && (m in w.slave.applied <==> m.id != 0 || ms[0].id != 0)
  {
    WholeRunInSession(me, hall, xs);
    AppliedIsDedup(me, hall, Heard(Start(me, hall), xs));
    KeptUnlessLeadingZero(After(Start(me, hall), xs).log, Accepted(me, hall, Heard(Start(me, hall), xs)), m);
  }

  /** In every run: when an ack empties the slave's entry at the transmitter, the last assignment the slave applied
      is the newest one made for it. The one exception is a slave that has applied nothing, and that is so exactly if
      the acked id is 0, which a starting slave takes for one it has already seen, and no other id was accepted. */
  lemma AckMeansNewestApplied(me: int, hall: HallCalls, xs: seq<WorldEvent>, id: uint64)
    requires Happens(Start(me, hall), xs) && AckEmpties(After(Start(me, hall), xs), id)
    ensures NewestIsApplied(After(Start(me, hall), xs), id) && After(Start(me, hall), xs).slave.me == me
    ensures After(Start(me, hall), xs).slave.applied == [] <==>
      id == 0 && forall m :: m in Accepted(me, hall, Heard(Start(me, hall), xs)) ==> m.id == 0
  {
    WholeRunInSession(me, hall, xs);
    AckedIsApplied(After(Start(me, hall), xs), id);
    NothingAppliedIffOnlyZeros(me, hall, Heard(Start(me, hall), xs));
  }

  /** The run that ends with the ack emptying the entry of the slave, which has applied nothing. */
  ghost predicate AckedUnapplied(me: int, hall: HallCalls, xs: seq<WorldEvent>) {
    && Happens(Start(me, hall), xs)
    && AckEmpties(After(Start(me, hall), xs), 0) && After(Start(me, hall), xs).slave.applied == []
  }

  /** The exception is reachable for every assignment to the slave that it can accept: the master starts, makes it with
      id 0, and it arrives. */
  lemma AnAckedAssignmentIsNotApplied(me: int, hall: HallCalls, a: Assignment)
    requires a.node == me && Within(a.hall, hall)
    ensures AckedUnapplied(me, hall, [Send(Enable(true)), Send(New(a, 0)), Deliver])
  {
    var m := a.(id := 0);
    var w0 := Start(me, hall);
    var w1 := Next(w0, Send(Enable(true)));
    var w2 := Next(w1, Send(New(a, 0)));
    assert w2.net == [m];
    var w3 := Next(w2, Deliver);
    assert After(w3, []) == w3;
    assert After(w2, [Deliver]) == w3;
    assert After(w1, [Send(New(a, 0)), Deliver]) == w3;
    assert [Send(Enable(true)), Send(New(a, 0)), Deliver][1..] == [Send(New(a, 0)), Deliver];
  }

  /** Order on the channel is needed: delivered once more after a newer one, an older assignment is applied again, in
      any session that did not just apply it. */
  lemma ReorderingReappliesOldAssignments(s: SlaveState, old0: Assignment, new0: Assignment)
    requires Accepts(s, old0) && Accepts(s, new0) && old0.id != new0.id && s.lastId != old0.id
    ensures var t := SlaveStep(SlaveStep(SlaveStep(s, GotAssignment(old0)), GotAssignment(new0)), GotAssignment(old0));
      t.applied == s.applied + [old0, new0, old0]
  {}

  // Delivery is always possible.

  lemma NextKeepsTimers(w: World, x: WorldEvent)
    requires CanHappen(w, x) && AssignInv(w.tx, w.log.rank.Keys)
    ensures AssignInv(Next(w, x).tx, Next(w, x).log.rank.Keys)
  {
    if x.Send? && (x.ev.New? ==> w.tx.enable) {
      AssignStepKeepsInv(w.tx, w.log.rank.Keys, x.ev);
      assert Next(w, x).log.rank.Keys == UsedIds(w.log.rank.Keys, x.ev);
    }
  }

  lemma {:induction false} RunKeepsTimers(w: World, xs: seq<WorldEvent>)
    requires Happens(w, xs) && AssignInv(w.tx, w.log.rank.Keys)
    ensures AssignInv(After(w, xs).tx, After(w, xs).log.rank.Keys)
    decreases |xs|
  {
    if xs != [] {
      NextKeepsTimers(w, xs[0]);
      RunKeepsTimers(Next(w, xs[0]), xs[1..]);
    }
  }

  /** The run leads from w to a world v in which the slave has acked what was pending for it and nothing is. */
  ghost predicate Delivers(w: World, xs: seq<WorldEvent>) {
    && Happens(w, xs) && w.slave.me in w.tx.active
    && var v := After(w, xs);
    && v.slave.me == w.slave.me && v.slave.me !in v.tx.active && (v.slave.me, w.tx.active[w.slave.me].id) in v.acks
  }

  lemma FirstThen(w: World, x: WorldEvent, xs: seq<WorldEvent>)
    requires CanHappen(w, x) && Happens(Next(w, x), xs)
    ensures Happens(w, [x] + xs) && After(w, [x] + xs) == After(Next(w, x), xs)
  {
    assert ([x] + xs)[1..] == xs;
  }

  lemma ResendDeliverAck(w: World)
    requires AssignInv(w.tx, w.log.rank.Keys) && w.net == [] && w.slave.me in w.tx.active
    requires Accepts(w.slave, w.tx.active[w.slave.me])
    ensures var (me, m) := (w.slave.me, w.tx.active[w.slave.me]);
      var resend, ack := Send(Timeout(m.id, Some(me))), Send(Acked(me, m.id));
      && CanHappen(w, resend)
      && var a := Next(w, resend);
      && CanHappen(a, Deliver)
      && var b := Next(a, Deliver);
      && CanHappen(b, ack)
      && var c := Next(b, ack);
      && c.slave.me == me && me !in c.tx.active && (me, m.id) in c.acks
  {
    var me, m := w.slave.me, w.tx.active[w.slave.me];
    var a := Next(w, Send(Timeout(m.id, Some(me))));
    assert Sent(w.tx, Timeout(m.id, Some(me))) == [m] && a.net == [m];
  }

  lemma OverEmptyChannel(w: World) returns (xs: seq<WorldEvent>)
    requires AssignInv(w.tx, w.log.rank.Keys) && w.net == [] && w.slave.me in w.tx.active
    requires Accepts(w.slave, w.tx.active[w.slave.me])
    ensures Delivers(w, xs)
  {
    ResendDeliverAck(w);
    var me, id := w.slave.me, w.tx.active[w.slave.me].id;
    var resend, ack := Send(Timeout(id, Some(me))), Send(Acked(me, id));
    var a := Next(w, resend);
    var b := Next(a, Deliver);
    FirstThen(b, ack, []);
    FirstThen(a, Deliver, [ack] + []);
    FirstThen(w, resend, [Deliver] + ([ack] + []));
    xs := [resend] + ([Deliver] + ([ack] + []));
  }

  lemma {:induction false} AfterLosses(w: World) returns (xs: seq<WorldEvent>)
    requires AssignInv(w.tx, w.log.rank.Keys) && w.slave.me in w.tx.active
    requires Accepts(w.slave, w.tx.active[w.slave.me])
    ensures Delivers(w, xs)
    decreases |w.net|
  {
    if w.net == [] {
      xs := OverEmptyChannel(w);
    } else {
      var rest := AfterLosses(Next(w, Lose(0)));
      FirstThen(w, Lose(0), rest);
      xs := [Lose(0)] + rest;
    }
  }

  /** No assignment is stuck: in every run, whatever was sent before and is lost, what is pending for the slave can
      still be sent, arrive and be acked, which ends the wait, as long as the slave can accept it. */
  lemma PendingCanBeDelivered(me: int, hall: HallCalls, before: seq<WorldEvent>)
    requires Happens(Start(me, hall), before)
    requires var w := After(Start(me, hall), before); me in w.tx.active && Accepts(w.slave, w.tx.active[me])
    ensures exists xs :: Delivers(After(Start(me, hall), before), xs)
  {
    var start := Start(me, hall);
    StartInv(me, hall);
    RunKeepsInv(start, before);
    RunKeepsTimers(start, before);
    var xs := AfterLosses(After(start, before));
  }
}
