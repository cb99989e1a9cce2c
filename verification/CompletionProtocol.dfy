/** Completions from one slave to any number of masters over a network that loses, duplicates and reorders
    messages: no completion is forgotten before it takes effect. */
module CompletionProtocol {
  import opened Elevators
  import opened MessageIds
  import opened MessageBuffer
  import opened Master
  import opened Transmitters
  import opened Wrappers

  /** net and acks hold everything ever sent; a message may arrive at any later time, any number of times or
      never. acks holds also acks of other message types, which the distributor routes elsewhere. The rest is
      history: the ids used, the completions issued by any slave, those issued by this slave since its transmitter
      was last disabled, and which master has applied which completion. */
  datatype World = World(
    tx: CompleteTx, net: set<Completion>, acks: set<uint64>, masters: map<int, MasterState>,
    used: set<uint64>, issued: set<Completion>, session: set<Completion>, effects: set<(int, Completion)>)

  datatype WorldEvent =
    | Enabled(on: bool)
    | Issue(call: ButtonEvent, draw: uint64)
    | Fire(id: uint64)
    | AckArrives(id: uint64)
    | OtherIssue(ha: Completion)
    | OtherAck(id: uint64)
    | MasterStarts(m: int, hall: HallCalls, n: nat)
    | MasterActs(m: int, ev: MasterEvent)

  function IdOf(draw: uint64): uint64
    requires draw < PARTITION_SIZE
  {
    GenerationDoesNotOverflow(HallAssignmentComplete, draw);
    GenerateMessageID(Code(HallAssignmentComplete), draw).value
  }

  predicate CanHappen(w: World, x: WorldEvent) {
    match x
    case Enabled(_) => true
    case Issue(_, draw) => draw < PARTITION_SIZE && IdOf(draw) !in w.used
    case Fire(id) => id in w.tx.timers
    case AckArrives(id) => id in w.acks
    case OtherIssue(ha) => Route(ha.id) == Some(HallAssignmentComplete) && ha.id !in w.used
    case OtherAck(id) => Route(id) != Some(HallAssignmentComplete)
    case MasterStarts(_, _, n) => n >= 2
    case MasterActs(m, ev) => m in w.masters && Legal(w.masters[m], ev) && (ev.Completed? ==> ev.ha in w.net)
  }

  function Next(w: World, x: WorldEvent): World
    requires CanHappen(w, x)
  {
    match x
    case Enabled(on) => w.(tx := CompleteStep(w.tx, EnableC(on)), session := if on then w.session else {})
    case Issue(call, draw) =>
      var id := IdOf(draw);
      var ha := Completion(call, id);
      w.(tx := CompleteStep(w.tx, NewC(call, id)), net := w.net + {ha}, issued := w.issued + {ha},
         used := w.used + {id}, session := w.session + {ha})
    case Fire(id) =>
      var t := CompleteStep(w.tx, TimeoutC(id));
      w.(tx := t, net := if id in w.tx.active then w.net + {w.tx.active[id]} else w.net)
    case AckArrives(id) =>
      if Route(id) == Some(HallAssignmentComplete) then w.(tx := CompleteStep(w.tx, AckedC(id))) else w
    case OtherIssue(ha) => w.(net := w.net + {ha}, issued := w.issued + {ha}, used := w.used + {ha.id})
    case OtherAck(id) => w.(acks := w.acks + {id})
    case MasterStarts(m, hall, n) => w.(masters := w.masters[m := MasterState(hall, Fresh(n))])
    case MasterActs(m, ev) =>
      var v := w.(masters := w.masters[m := MasterStep(w.masters[m], ev)]);
      if ev.Completed? then
        v.(acks := w.acks + {ev.ha.id},
           effects := if Applies(w.masters[m], ev) then w.effects + {(m, ev.ha)} else w.effects)
      else v
  }

  const START := World(COMPLETE_START, {}, {}, map[], {}, {}, {}, {})

  /** Some master has applied the completion. */
  ghost predicate TookEffect(w: World, ha: Completion) {
    exists m :: (m, ha) in w.effects
  }

  ghost predicate IdsSound(w: World) {
    && w.session <= w.net <= w.issued
    && (forall ha :: ha in w.issued ==> ha.id in w.used && Route(ha.id) == Some(HallAssignmentComplete))
    && (forall a, b :: a in w.issued && b in w.issued && a.id == b.id ==> a == b)
    && (forall id :: id in w.tx.active ==> w.tx.active[id] in w.session)
  }

  /** Rings and acks know a completion only after it took effect. */
  ghost predicate KnownTookEffect(w: World) {
    && (forall m :: m in w.masters ==> ValidRing(w.masters[m].ring))
    && (forall m, ha :: m in w.masters && ha in w.issued && Holds(w.masters[m].ring, ha.id) ==> TookEffect(w, ha))
    && (forall ha :: ha in w.issued && ha.id in w.acks ==> TookEffect(w, ha))
  }

  ghost predicate NothingForgotten(w: World) {
    forall ha :: ha in w.session ==> (ha.id in w.tx.active && w.tx.active[ha.id] == ha) || TookEffect(w, ha)
  }

  ghost predicate Inv(w: World) {
    CompleteInv(w.tx, w.used) && IdsSound(w) && KnownTookEffect(w) && NothingForgotten(w)
    && (forall id :: id in w.acks && Route(id) == Some(HallAssignmentComplete) ==> id in w.used)
    && (forall m, id :: m in w.masters && Holds(w.masters[m].ring, id) ==> id == 0 || id in w.used)
  }

  lemma EffectsGrow(w: World, v: World)
    requires w.effects <= v.effects
    ensures forall ha :: TookEffect(w, ha) ==> TookEffect(v, ha)
  {}

  /** A completion with a new id is known to nobody yet. */
  lemma NewIdIsUnknown(w: World, v: World, ha: Completion)
    requires Inv(w) && ha.id !in w.used && Route(ha.id) == Some(HallAssignmentComplete)
    requires v.issued == w.issued + {ha} && v.masters == w.masters && v.acks == w.acks && v.effects == w.effects
    ensures KnownTookEffect(v)
  {}

  lemma IssueKeepsInv(w: World, call: ButtonEvent, draw: uint64)
    requires Inv(w) && CanHappen(w, Issue(call, draw))
    ensures Inv(Next(w, Issue(call, draw)))
  {
    var id := IdOf(draw);
    var v := Next(w, Issue(call, draw));
    CompleteStepKeepsInv(w.tx, w.used, NewC(call, id));
    RoutingInvertsGeneration(HallAssignmentComplete, id);
    NewIdIsUnknown(w, v, Completion(call, id));
    IssueKeepsIds(w, call, draw);
    IssueForgetsNothing(w, call, draw);
  }

  lemma IssueKeepsIds(w: World, call: ButtonEvent, draw: uint64)
    requires IdsSound(w) && CanHappen(w, Issue(call, draw))
    ensures IdsSound(Next(w, Issue(call, draw)))
  {
    RoutingInvertsGeneration(HallAssignmentComplete, IdOf(draw));
  }

  lemma IssueForgetsNothing(w: World, call: ButtonEvent, draw: uint64)
    requires IdsSound(w) && NothingForgotten(w) && CanHappen(w, Issue(call, draw))
    ensures NothingForgotten(Next(w, Issue(call, draw)))
  {}

  lemma OtherIssueKeepsInv(w: World, ha: Completion)
    requires Inv(w) && CanHappen(w, OtherIssue(ha))
    ensures Inv(Next(w, OtherIssue(ha)))
  {
    NewIdIsUnknown(w, Next(w, OtherIssue(ha)), ha);
    EffectsGrow(w, Next(w, OtherIssue(ha)));
  }

  lemma AddedHolds(r: Ring, id: uint64)
    requires ValidRing(r)
    ensures forall i :: Holds(Added(r, id), i) ==> i == id || Holds(r, i)
  {}

  lemma MasterKeepsInv(w: World, m: int, ev: MasterEvent)
    requires Inv(w) && CanHappen(w, MasterActs(m, ev))
    ensures Inv(Next(w, MasterActs(m, ev)))
  {
    var v := Next(w, MasterActs(m, ev));
    EffectsGrow(w, v);
    if ev.Completed? {
      if Applies(w.masters[m], ev) {
        assert (m, ev.ha) in v.effects;
        AddedHolds(w.masters[m].ring, ev.ha.id);
      }
      assert TookEffect(v, ev.ha);
    }
  }

  lemma EnableKeepsInv(w: World, on: bool)
    requires Inv(w)
    ensures Inv(Next(w, Enabled(on)))
  {}

  lemma FireKeepsInv(w: World, id: uint64)
    requires Inv(w) && CanHappen(w, Fire(id))
    ensures Inv(Next(w, Fire(id)))
  {
    CompleteStepKeepsInv(w.tx, w.used, TimeoutC(id));
    EffectsGrow(w, Next(w, Fire(id)));
  }

  lemma AckKeepsInv(w: World, id: uint64)
    requires Inv(w) && CanHappen(w, AckArrives(id))
    ensures Inv(Next(w, AckArrives(id)))
  {
    CompleteStepKeepsInv(w.tx, w.used, AckedC(id));
    EffectsGrow(w, Next(w, AckArrives(id)));
  }

  lemma NextKeepsInv(w: World, x: WorldEvent)
    requires Inv(w) && CanHappen(w, x)
    ensures Inv(Next(w, x))
  {
    match x
    case Issue(call, draw) => IssueKeepsInv(w, call, draw);
    case OtherIssue(ha) => OtherIssueKeepsInv(w, ha);
    case MasterActs(m, ev) => MasterKeepsInv(w, m, ev);
    case OtherAck(id) => EffectsGrow(w, Next(w, x));
    case MasterStarts(m, hall, n) => MasterStartKeepsInv(w, m, hall, n);
    case Enabled(on) => EnableKeepsInv(w, on);
    case Fire(id) => FireKeepsInv(w, id);
    case AckArrives(id) => AckKeepsInv(w, id);
  }

  lemma MasterStartKeepsInv(w: World, m: int, hall: HallCalls, n: nat)
    requires Inv(w) && n >= 2
    ensures Inv(Next(w, MasterStarts(m, hall, n)))
  {
    EffectsGrow(w, Next(w, MasterStarts(m, hall, n)));
    assert forall id :: Holds(Fresh(n), id) ==> id == 0;
    assert forall ha :: ha in w.issued ==> ha.id != 0;
  }

  ghost predicate Happens(w: World, xs: seq<WorldEvent>)
    decreases |xs|
  {
    xs == [] || (CanHappen(w, xs[0]) && Happens(Next(w, xs[0]), xs[1..]))
  }

  ghost function After(w: World, xs: seq<WorldEvent>): World
    requires Happens(w, xs)
    decreases |xs|
  {
    if xs == [] then w else After(Next(w, xs[0]), xs[1..])
  }

  lemma {:induction false} RunKeepsInv(w: World, xs: seq<WorldEvent>)
    requires Inv(w) && Happens(w, xs)
    ensures Inv(After(w, xs))
    decreases |xs|
  {
    if xs != [] {
      NextKeepsInv(w, xs[0]);
      RunKeepsInv(Next(w, xs[0]), xs[1..]);
    }
  }

  /** In every run, every completion the slave issued in this session is still pending or has been applied by some
      master; and whenever an ack for a completion is on its way, a master has applied that completion. */
  lemma NoCompletionForgotten(xs: seq<WorldEvent>)
    requires Happens(START, xs)
    ensures var w := After(START, xs);
      && (forall ha :: ha in w.session ==> (ha.id in w.tx.active && w.tx.active[ha.id] == ha) || TookEffect(w, ha))
      && (forall ha :: ha in w.issued && ha.id in w.acks ==> TookEffect(w, ha))
  {
    RunKeepsInv(START, xs);
  }

  lemma PendingGoesByAck(w: World, x: WorldEvent, id: uint64)
    requires Inv(w) && CanHappen(w, x) && id in w.tx.active && id !in Next(w, x).tx.active
    ensures x == Enabled(false) || (x == AckArrives(id) && TookEffect(w, w.tx.active[id]))
  {
    var ha := w.tx.active[id];
    assert ha in w.session && ha.id == id;
  }

  /** In every run, a pending completion goes only when the session ends or an ack for it arrives, and then a master
      has applied it. */
  lemma PendingGoesOnlyByAck(xs: seq<WorldEvent>, x: WorldEvent, id: uint64)
    requires Happens(START, xs) && CanHappen(After(START, xs), x)
    requires id in After(START, xs).tx.active && id !in Next(After(START, xs), x).tx.active
    ensures x == Enabled(false) || (x == AckArrives(id) && TookEffect(After(START, xs), After(START, xs).tx.active[id]))
  {
    RunKeepsInv(START, xs);
    PendingGoesByAck(After(START, xs), x, id);
  }

  /** What cleared button c at master m by event x. */
  ghost predicate Justified(w: World, x: WorldEvent, m: int, c: ButtonEvent) {
    || x == MasterActs(m, LocalComplete(c))
    || (exists ha :: ha in w.issued && ha.call == c && x == MasterActs(m, Completed(ha)))
  }

  lemma ClearIsJustified(w: World, x: WorldEvent, m: int, c: ButtonEvent)
    requires Inv(w) && CanHappen(w, x) && m in w.masters && !x.MasterStarts?
    ensures var v := Next(w, x);
      && m in v.masters
      && (Lit(w.masters[m].hall, c) && !Lit(v.masters[m].hall, c) ==> Justified(w, x, m, c))
      && (forall ha :: (m, ha) in v.effects && (m, ha) !in w.effects ==>
            x == MasterActs(m, Completed(ha)) && !Lit(v.masters[m].hall, ha.call))
  {
    match x
    case MasterActs(k, ev) =>
      if k == m {
        BitFallsOnlyOnCompletion(w.masters[m], ev, c);
        if Applies(w.masters[m], ev) {
          FreshCompletionShows(w.masters[m], ev.ha);
        }
      }
    case _ =>
  }

  /** In every run, a completion takes effect by clearing its button at the master that applies it; and a hall
      request of a running master is cleared only by that master's own elevator or by a completion some slave
      issued for that very button. */
  lemma ClearsAreJustified(xs: seq<WorldEvent>, x: WorldEvent, m: int, c: ButtonEvent)
    requires Happens(START, xs) && CanHappen(After(START, xs), x) && m in After(START, xs).masters && !x.MasterStarts?
    ensures var w, v := After(START, xs), Next(After(START, xs), x);
      && m in v.masters
      && (Lit(w.masters[m].hall, c) && !Lit(v.masters[m].hall, c) ==>
            || x == MasterActs(m, LocalComplete(c))
            || (exists ha :: ha in w.issued && ha.call == c
                             && x == MasterActs(m, Completed(ha)) && (m, ha) in v.effects))
      && (forall ha :: (m, ha) in v.effects && (m, ha) !in w.effects ==> !Lit(v.masters[m].hall, ha.call))
  {
    RunKeepsInv(START, xs);
    ClearIsJustified(After(START, xs), x, m, c);
  }

  /** In every run the timer of a pending completion can fire, which sends it once more and leaves it pending and
      timed. */
  lemma PendingCanBeResent(xs: seq<WorldEvent>, id: uint64)
    requires Happens(START, xs) && id in After(START, xs).tx.active
    ensures var w := After(START, xs);
      && CanHappen(w, Fire(id))
      && var v := Next(w, Fire(id));
      && v.tx == w.tx.(sent := w.tx.sent + [w.tx.active[id]]) && w.tx.active[id] in v.net
  {
    RunKeepsInv(START, xs);
    var w := After(START, xs);
    assert w.tx.active[id] in w.session && w.tx.active[id].id == id;
    assert w.tx.timers - multiset{id} + multiset{id} == w.tx.timers;
  }

  lemma ArrivalIsAcked(w: World, id: uint64, m: int)
    requires Inv(w) && id in w.tx.active && m in w.masters && Legal(w.masters[m], Completed(w.tx.active[id]))
    ensures var x := MasterActs(m, Completed(w.tx.active[id]));
      && CanHappen(w, x) && id in Next(w, x).acks && id in Next(w, x).tx.active
      && Next(w, x).tx.active[id] == w.tx.active[id]
      && Inv(Next(w, x)) && TookEffect(Next(w, x), w.tx.active[id])
  {
    var ha := w.tx.active[id];
    assert ha in w.session && ha.id == id;
    NextKeepsInv(w, MasterActs(m, Completed(ha)));
  }

  lemma AckEndsWait(w: World, id: uint64)
    requires Inv(w) && id in w.tx.active && id in w.acks
    ensures CanHappen(w, AckArrives(id)) && id !in Next(w, AckArrives(id)).tx.active
    ensures Next(w, AckArrives(id)).effects == w.effects
  {
    assert w.tx.active[id] in w.session;
  }

  lemma TwoEvents(w: World, x: WorldEvent, y: WorldEvent)
    requires CanHappen(w, x) && CanHappen(Next(w, x), y)
    ensures Happens(w, [x, y]) && After(w, [x, y]) == Next(Next(w, x), y)
  {
    var v := Next(w, x);
    assert [x, y][1..] == [y] && [y][1..] == [];
    assert Happens(Next(v, y), []) && After(Next(v, y), []) == Next(v, y);
    assert Happens(v, [y]) && After(v, [y]) == Next(v, y);
  }

  /** No completion is stuck: in every run, what is pending can reach any running master, take effect unless it has
      already, and be acknowledged, which ends the wait. */
  lemma PendingCanBeAcknowledged(xs: seq<WorldEvent>, id: uint64, m: int)
    requires Happens(START, xs) && id in After(START, xs).tx.active && m in After(START, xs).masters
    requires Legal(After(START, xs).masters[m], Completed(After(START, xs).tx.active[id]))
    ensures var w := After(START, xs);
      var v := [MasterActs(m, Completed(w.tx.active[id])), AckArrives(id)];
      Happens(w, v) && id !in After(w, v).tx.active && TookEffect(After(w, v), w.tx.active[id])
  {
    RunKeepsInv(START, xs);
    var w := After(START, xs);
    var arrives := MasterActs(m, Completed(w.tx.active[id]));
    ArrivalIsAcked(w, id, m);
    AckEndsWait(Next(w, arrives), id);
    TwoEvents(w, arrives, AckArrives(id));
    EffectsGrow(Next(w, arrives), Next(Next(w, arrives), AckArrives(id)));
  }
}
