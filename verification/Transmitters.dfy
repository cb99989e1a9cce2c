/** The two acknowledging transmitters (Network/messagehandler/transmitters.go). Outstanding AfterFunc timers
    are a multiset of message ids; a firing timer hands its id to the timeout arm. */
module Transmitters {
  import opened Elevators
  import opened MessageIds
  import opened Master
  import opened Wrappers

  /** A new hall assignments message. */
  datatype Assignment = Assignment(node: int, hall: HallCalls, id: uint64)

  // ---- Hall assignments: one pending message a node ----

  datatype AssignTx = AssignTx(
    enable: bool, active: map<int, Assignment>, timers: multiset<uint64>, sent: seq<Assignment>)

  datatype AssignEvent =
    | Enable(on: bool)
    | New(a: Assignment, id: uint64)
    | Timeout(id: uint64, resend: Option<int>)
    | Acked(node: int, id: uint64)

  const ASSIGN_START := AssignTx(false, map[], multiset{}, [])

  /** The timeout arm resends one pending message with the id that timed out, if there is any. */
  predicate MayResend(active: map<int, Assignment>, id: uint64, resend: Option<int>) {
    match resend
    case Some(k) => k in active && active[k].id == id
    case None => forall k :: k in active ==> active[k].id != id
  }

  function AssignStep(t: AssignTx, ev: AssignEvent): AssignTx
    requires ev.Timeout? ==> MayResend(t.active, ev.id, ev.resend)
  {
    match ev
    case Enable(on) => t.(enable := on, active := if on then t.active else map[])
    case New(a, id) =>
      if !t.enable then t else
      var m := a.(id := id);
      t.(active := t.active[m.node := m], timers := t.timers + multiset{id}, sent := t.sent + [m])
    case Timeout(id, resend) =>
      var left := t.timers - multiset{id};
      if resend.None? then t.(timers := left)
      else t.(timers := left + multiset{id}, sent := t.sent + [t.active[resend.value]])
    case Acked(node, id) =>
      if node in t.active && t.active[node].id == id then t.(active := t.active - {node}) else t
  }

  class HallAssignmentsTransmitter {
    var enable: bool
    var activeAssignments: map<int, Assignment>
    var timers: multiset<uint64>
    var sent: seq<Assignment>

    function View(): AssignTx
      reads this
    {
      AssignTx(enable, activeAssignments, timers, sent)
    }

    constructor ()
      ensures View() == ASSIGN_START
    {
      enable, activeAssignments, timers, sent := false, map[], multiset{}, [];
    }

    method OnEnable(on: bool)
      modifies this
      ensures View() == AssignStep(old(View()), Enable(on))
    {
      enable := on;
      if !enable {
        var keys := activeAssignments.Keys;
        while exists k :: k in keys
          invariant keys == activeAssignments.Keys
          invariant enable == on && timers == old(timers) && sent == old(sent)
          decreases |keys|
        {
          var k :| k in keys;
          activeAssignments := activeAssignments - {k};
          keys := keys - {k};
        }
      }
    }

    /** draw is the random draw of the generated id. */
    method OnNewAssignment(a: Assignment, draw: uint64)
      requires draw < PARTITION_SIZE
      modifies this
      ensures View() == AssignStep(old(View()), New(a, draw))
      ensures GenerateMessageID(Code(NewHallAssignment), draw) == Some(draw)
    {
      GenerationDoesNotOverflow(NewHallAssignment, draw);
      if !enable {
        return;
      }
      var id := GenerateMessageID(Code(NewHallAssignment), draw);
      var newAssignment := a.(id := id.value);
      activeAssignments := activeAssignments[newAssignment.node := newAssignment];
      sent := sent + [newAssignment];
      timers := timers + multiset{newAssignment.id};
    }

    /** The timer of id fires; the result is the node whose message was resent. */
    method OnTimeout(id: uint64) returns (resent: Option<int>)
      modifies this
      ensures MayResend(old(activeAssignments), id, resent)
      ensures View() == AssignStep(old(View()), Timeout(id, resent))
    {
      timers := timers - multiset{id};
      var keys := activeAssignments.Keys;
      while exists k :: k in keys
        invariant keys <= activeAssignments.Keys == old(activeAssignments).Keys
        invariant View() == old(View()).(timers := old(timers) - multiset{id})
        invariant forall k :: k in activeAssignments && k !in keys ==> activeAssignments[k].id != id
        decreases |keys|
      {
        var k :| k in keys;
        var msg := activeAssignments[k];
        if msg.id == id {
          sent := sent + [msg];
          timers := timers + multiset{msg.id};
          return Some(k);
        }
        keys := keys - {k};
      }
      return None;
    }

    method OnAck(node: int, id: uint64)
      modifies this
      ensures View() == AssignStep(old(View()), Acked(node, id))
    {
      if node in activeAssignments {
        var msg := activeAssignments[node];
        if msg.id == id {
          activeAssignments := activeAssignments - {node};
        }
      }
    }
  }

  /** Ids in use are known; every pending message sits under its own node, has an id of its own and exactly one
      outstanding timer; no id has two; nothing is pending while disabled. */
  ghost predicate AssignInv(t: AssignTx, used: set<uint64>) {
    && (forall k :: k in t.active ==> t.active[k].node == k && t.active[k].id in used && t.timers[t.active[k].id] == 1)
    && (forall j, k :: j in t.active && k in t.active && t.active[j].id == t.active[k].id ==> j == k)
    && (forall id :: id in t.timers ==> id in used && t.timers[id] == 1)
    && (!t.enable ==> t.active == map[])
  }

  /** Generated ids are distinct, and a timeout comes from an outstanding timer. */
  predicate AssignAllowed(t: AssignTx, used: set<uint64>, ev: AssignEvent) {
    match ev
    case New(_, id) => id !in used
    case Timeout(id, resend) => id in t.timers && MayResend(t.active, id, resend)
    case _ => true
  }

  function UsedIds(used: set<uint64>, ev: AssignEvent): set<uint64> {
    if ev.New? then used + {ev.id} else used
  }

  lemma AssignStepKeepsInv(t: AssignTx, used: set<uint64>, ev: AssignEvent)
    requires AssignInv(t, used) && AssignAllowed(t, used, ev)
    ensures AssignInv(AssignStep(t, ev), UsedIds(used, ev))
  {
    var q := AssignStep(t, ev);
    match ev
    case New(a, id) =>
      if t.enable {
        assert t.timers[id] == 0;
        assert forall j :: j in t.timers + multiset{id} ==> j in t.timers || j == id;
      }
    case Timeout(id, resend) =>
      assert forall j :: j in q.timers ==> j in t.timers;
      if resend.None? {
        assert forall k :: k in q.active ==> q.active[k].id != id;
      }
    case _ =>
  }

  ghost predicate AssignRun(t: AssignTx, used: set<uint64>, evs: seq<AssignEvent>)
    decreases |evs|
  {
    evs == [] || (AssignAllowed(t, used, evs[0]) && AssignRun(AssignStep(t, evs[0]), UsedIds(used, evs[0]), evs[1..]))
  }

  ghost function AssignAfter(t: AssignTx, used: set<uint64>, evs: seq<AssignEvent>): (AssignTx, set<uint64>)
    requires AssignRun(t, used, evs)
    decreases |evs|
  {
    if evs == [] then (t, used) else AssignAfter(AssignStep(t, evs[0]), UsedIds(used, evs[0]), evs[1..])
  }

  lemma {:induction false} AssignRunKeepsInv(t: AssignTx, used: set<uint64>, evs: seq<AssignEvent>)
    requires AssignInv(t, used) && AssignRun(t, used, evs)
    ensures AssignInv(AssignAfter(t, used, evs).0, AssignAfter(t, used, evs).1)
    decreases |evs|
  {
    if evs != [] {
      AssignStepKeepsInv(t, used, evs[0]);
      AssignRunKeepsInv(AssignStep(t, evs[0]), UsedIds(used, evs[0]), evs[1..]);
    }
  }

  /** The pending message of node k is its own, one timer is outstanding for it, and when that timer fires the
      message is sent again and stays pending with its timer armed. */
  ghost predicate KeepsRetrying(t: AssignTx, k: int)
    requires k in t.active
  {
    var m := t.active[k];
    && m.node == k && t.timers[m.id] == 1
    && forall r :: MayResend(t.active, m.id, r) ==> AssignStep(t, Timeout(m.id, r)) == t.(sent := t.sent + [m])
  }

  /** The timer of an id that is not pending sends nothing and is not armed again. */
  ghost predicate Silent(t: AssignTx, id: uint64) {
    forall r :: MayResend(t.active, id, r) ==>
      AssignStep(t, Timeout(id, r)).sent == t.sent && id !in AssignStep(t, Timeout(id, r)).timers
  }

  lemma PendingKeepsRetrying(t: AssignTx, used: set<uint64>, k: int)
    requires AssignInv(t, used) && k in t.active
    ensures KeepsRetrying(t, k)
  {}

  lemma StaleTimerIsSilent(t: AssignTx, used: set<uint64>, id: uint64)
    requires AssignInv(t, used) && id in t.timers && forall k :: k in t.active ==> t.active[k].id != id
    ensures Silent(t, id)
  {}

  /** Retransmission of assignments never stalls, in every run with distinct ids: each pending message is stored
      under its own node and keeps being resent until acked; the timer of a superseded or acked id sends nothing. */
  lemma AssignmentsAreRetransmitted(evs: seq<AssignEvent>)
    requires AssignRun(ASSIGN_START, {}, evs)
    ensures var t := AssignAfter(ASSIGN_START, {}, evs).0;
      && (forall k :: k in t.active ==> KeepsRetrying(t, k))
      && (forall id :: id in t.timers && (forall k :: k in t.active ==> t.active[k].id != id) ==> Silent(t, id))
  {
    AssignRunKeepsInv(ASSIGN_START, {}, evs);
    var (t, used) := AssignAfter(ASSIGN_START, {}, evs);
    forall k | k in t.active
      ensures KeepsRetrying(t, k)
    {
      PendingKeepsRetrying(t, used, k);
    }
    forall id | id in t.timers && (forall k :: k in t.active ==> t.active[k].id != id)
      ensures Silent(t, id)
    {
      StaleTimerIsSilent(t, used, id);
    }
  }

  /** The assignment with the id is pending for the node. */
  predicate PendingFor(t: AssignTx, node: int, id: uint64) {
    node in t.active && t.active[node].id == id
  }

  /** Exactly what ends the wait for an ack, in every run: the ack itself, a newer assignment for the same node, or the
      end of the master's session. */
  lemma PendingEndsExactlyBy(evs: seq<AssignEvent>, node: int, id: uint64, ev: AssignEvent)
    requires AssignRun(ASSIGN_START, {}, evs)
    requires var (t, used) := AssignAfter(ASSIGN_START, {}, evs);
      PendingFor(t, node, id) && AssignAllowed(t, used, ev)
    ensures var t := AssignAfter(ASSIGN_START, {}, evs).0;
      !PendingFor(AssignStep(t, ev), node, id) <==>
        ev == Acked(node, id) || ev == Enable(false) || (ev.New? && ev.a.node == node)
  {
    AssignRunKeepsInv(ASSIGN_START, {}, evs);
  }

  /** An id in use is pending for no node but this one; once gone, for none. */
  ghost predicate OnlyFor(t: AssignTx, used: set<uint64>, node: int, id: uint64, gone: bool) {
    id in used && forall k :: k in t.active && t.active[k].id == id ==> k == node && !gone
  }

  /** No message with the id is sent from t to q, and at q neither its acks nor its timer do anything but end. */
  ghost predicate Forgotten(t: AssignTx, q: AssignTx, id: uint64) {
    && |t.sent| <= |q.sent|
    && (forall i :: |t.sent| <= i < |q.sent| ==> q.sent[i].id != id)
    && (forall node :: AssignStep(q, Acked(node, id)) == q)
    && (id in q.timers ==> Silent(q, id))
  }

  lemma OnlyForStep(t: AssignTx, used: set<uint64>, ev: AssignEvent, node: int, id: uint64, gone: bool)
    requires AssignInv(t, used) && AssignAllowed(t, used, ev) && OnlyFor(t, used, node, id, gone)
    ensures OnlyFor(AssignStep(t, ev), UsedIds(used, ev), node, id, gone)
    ensures |t.sent| <= |AssignStep(t, ev).sent|
    ensures gone ==> forall i :: |t.sent| <= i < |AssignStep(t, ev).sent| ==> AssignStep(t, ev).sent[i].id != id
    ensures forall i :: 0 <= i < |t.sent| ==> AssignStep(t, ev).sent[i] == t.sent[i]
  {}

  lemma {:induction false} OnlyForRun(t: AssignTx, used: set<uint64>, evs: seq<AssignEvent>, node: int, id: uint64,
                                      gone: bool)
    requires AssignInv(t, used) && AssignRun(t, used, evs) && OnlyFor(t, used, node, id, gone)
    ensures var (q, more) := AssignAfter(t, used, evs);
      && OnlyFor(q, more, node, id, gone) && |t.sent| <= |q.sent|
      && (forall i :: 0 <= i < |t.sent| ==> q.sent[i] == t.sent[i])
      && (gone ==> forall i :: |t.sent| <= i < |q.sent| ==> q.sent[i].id != id)
    decreases |evs|
  {
    if evs != [] {
      AssignStepKeepsInv(t, used, evs[0]);
      OnlyForStep(t, used, evs[0], node, id, gone);
      OnlyForRun(AssignStep(t, evs[0]), UsedIds(used, evs[0]), evs[1..], node, id, gone);
    }
  }

  /** An assignment that was taken and is no longer pending for its node, because it was acked or superseded or its
      session ended, never comes back: in every continuation with distinct ids it is not sent again, its timer is
      silent, and acks for it, from whatever node and however late, remove nothing. */
  lemma SupersededIsForgotten(evs: seq<AssignEvent>, a: Assignment, id: uint64, between: seq<AssignEvent>,
                              after: seq<AssignEvent>)
    requires AssignRun(ASSIGN_START, {}, evs) && id !in AssignAfter(ASSIGN_START, {}, evs).1
    requires var (t, used) := AssignAfter(ASSIGN_START, {}, evs);
      var taken := AssignStep(t, New(a, id));
      && t.enable && AssignRun(taken, used + {id}, between)
      && var (gone, more) := AssignAfter(taken, used + {id}, between);
      && !PendingFor(gone, a.node, id) && AssignRun(gone, more, after)
    ensures var (t, used) := AssignAfter(ASSIGN_START, {}, evs);
      var (gone, more) := AssignAfter(AssignStep(t, New(a, id)), used + {id}, between);
      Forgotten(gone, AssignAfter(gone, more, after).0, id)
  {
    AssignRunKeepsInv(ASSIGN_START, {}, evs);
    var (t, used) := AssignAfter(ASSIGN_START, {}, evs);
    var taken := AssignStep(t, New(a, id));
    AssignStepKeepsInv(t, used, New(a, id));
    AssignRunKeepsInv(taken, used + {id}, between);
    OnlyForRun(taken, used + {id}, between, a.node, id, false);
    var (gone, more) := AssignAfter(taken, used + {id}, between);
    GoneIsForgotten(gone, more, after, a.node, id);
  }

  lemma GoneIsForgotten(t: AssignTx, used: set<uint64>, evs: seq<AssignEvent>, node: int, id: uint64)
    requires AssignInv(t, used) && AssignRun(t, used, evs) && OnlyFor(t, used, node, id, true)
    ensures Forgotten(t, AssignAfter(t, used, evs).0, id)
  {
    AssignRunKeepsInv(t, used, evs);
    OnlyForRun(t, used, evs, node, id, true);
    var (q, more) := AssignAfter(t, used, evs);
    if id in q.timers {
      StaleTimerIsSilent(q, more, id);
    }
  }

  /** A timer, once armed, cannot be called off, on any run: it is outstanding from the sending of its message until it
      fires and finds that message pending no more. */
  lemma AssignTimersOnlyFire(evs: seq<AssignEvent>, ev: AssignEvent, id: uint64)
    requires AssignRun(ASSIGN_START, {}, evs)
    requires var (t, used) := AssignAfter(ASSIGN_START, {}, evs); AssignAllowed(t, used, ev)
    ensures var t := AssignAfter(ASSIGN_START, {}, evs).0;
      && (id in t.timers && id !in AssignStep(t, ev).timers <==>
            ev.Timeout? && ev.id == id && forall k :: k in t.active ==> t.active[k].id != id)
      && (id !in t.timers && id in AssignStep(t, ev).timers <==> ev.New? && ev.id == id && t.enable)
  {
    AssignRunKeepsInv(ASSIGN_START, {}, evs);
  }

  /** A new assignment is taken in every run by an enabled transmitter: it is sent at once, replaces what was pending
      for its node, and is retried from then on. A disabled one drops it. */
  lemma NewAssignmentIsTaken(evs: seq<AssignEvent>, a: Assignment, id: uint64)
    requires AssignRun(ASSIGN_START, {}, evs) && id !in AssignAfter(ASSIGN_START, {}, evs).1
    ensures var t := AssignAfter(ASSIGN_START, {}, evs).0;
      var q := AssignStep(t, New(a, id));
      if t.enable then
        && q.sent == t.sent + [a.(id := id)]
        && q.active == t.active[a.node := a.(id := id)]
        && KeepsRetrying(q, a.node)
      else q == t && t.active == map[]
  {
    AssignRunKeepsInv(ASSIGN_START, {}, evs);
    var (t, used) := AssignAfter(ASSIGN_START, {}, evs);
    AssignStepKeepsInv(t, used, New(a, id));
    if t.enable {
      PendingKeepsRetrying(AssignStep(t, New(a, id)), used + {id}, a.node);
    }
  }

  // ---- Completions: one pending message an id ----

  datatype CompleteTx = CompleteTx(
    enable: bool, active: map<uint64, Completion>, timers: multiset<uint64>, sent: seq<Completion>)

  datatype CompleteEvent =
    | EnableC(on: bool)
    | NewC(call: ButtonEvent, id: uint64)
    | TimeoutC(id: uint64)
    | AckedC(id: uint64)

  const COMPLETE_START := CompleteTx(false, map[], multiset{}, [])

  function CompleteStep(t: CompleteTx, ev: CompleteEvent): CompleteTx {
    match ev
    case EnableC(on) => t.(enable := on, active := if on then t.active else map[])
    case NewC(call, id) =>
      var m := Completion(call, id);
      t.(active := t.active[id := m], timers := t.timers + multiset{id}, sent := t.sent + [m])
    case TimeoutC(id) =>
      var left := t.timers - multiset{id};
      if id in t.active then t.(timers := left + multiset{t.active[id].id}, sent := t.sent + [t.active[id]])
      else t.(timers := left)
    case AckedC(id) => t.(active := t.active - {id})
  }

  class HallAssignmentCompleteTransmitter {
    var enable: bool
    var completedActiveAssignments: map<uint64, Completion>
    var timers: multiset<uint64>
    var sent: seq<Completion>

    function View(): CompleteTx
      reads this
    {
      CompleteTx(enable, completedActiveAssignments, timers, sent)
    }

    constructor ()
      ensures View() == COMPLETE_START
    {
      enable, completedActiveAssignments, timers, sent := false, map[], multiset{}, [];
    }

    method OnEnable(on: bool)
      modifies this
      ensures View() == CompleteStep(old(View()), EnableC(on))
    {
      enable := on;
      if !enable {
        var keys := completedActiveAssignments.Keys;
        while keys != {}
          invariant keys == completedActiveAssignments.Keys
          invariant enable == on && timers == old(timers) && sent == old(sent)
          decreases |keys|
        {
          var k :| k in keys;
          completedActiveAssignments := completedActiveAssignments - {k};
          keys := keys - {k};
        }
      }
    }

    method OnNewCompletion(call: ButtonEvent, draw: uint64) returns (id: uint64)
      requires draw < PARTITION_SIZE
      modifies this
      ensures GenerateMessageID(Code(HallAssignmentComplete), draw) == Some(id)
      ensures View() == CompleteStep(old(View()), NewC(call, id))
    {
      GenerationDoesNotOverflow(HallAssignmentComplete, draw);
      id := GenerateMessageID(Code(HallAssignmentComplete), draw).value;
      var newComplete := Completion(call, id);
      completedActiveAssignments := completedActiveAssignments[id := newComplete];
      sent := sent + [newComplete];
      timers := timers + multiset{newComplete.id};
    }

    method OnTimeout(id: uint64)
      modifies this
      ensures View() == CompleteStep(old(View()), TimeoutC(id))
    {
      timers := timers - multiset{id};
      var keys := completedActiveAssignments.Keys;
      while keys != {}
        invariant keys <= completedActiveAssignments.Keys
        invariant View() == old(View()).(timers := old(timers) - multiset{id})
        invariant id in completedActiveAssignments ==> id in keys
        decreases |keys|
      {
        var msgID :| msgID in keys;
        if msgID == id {
          sent := sent + [completedActiveAssignments[msgID]];
          timers := timers + multiset{completedActiveAssignments[msgID].id};
          return;
        }
        keys := keys - {msgID};
      }
    }

    method OnAck(id: uint64)
      modifies this
      ensures View() == CompleteStep(old(View()), AckedC(id))
    {
      completedActiveAssignments := completedActiveAssignments - {id};
    }
  }

  ghost predicate CompleteInv(t: CompleteTx, used: set<uint64>) {
    && (forall id :: id in t.active ==> t.active[id].id == id && id in used && t.timers[id] == 1)
    && (forall id :: id in t.timers ==> id in used && t.timers[id] == 1)
  }

  predicate CompleteAllowed(t: CompleteTx, used: set<uint64>, ev: CompleteEvent) {
    match ev
    case NewC(_, id) => id !in used
    case TimeoutC(id) => id in t.timers
    case _ => true
  }

  function UsedCIds(used: set<uint64>, ev: CompleteEvent): set<uint64> {
    if ev.NewC? then used + {ev.id} else used
  }

  lemma CompleteStepKeepsInv(t: CompleteTx, used: set<uint64>, ev: CompleteEvent)
    requires CompleteInv(t, used) && CompleteAllowed(t, used, ev)
    ensures CompleteInv(CompleteStep(t, ev), UsedCIds(used, ev))
  {}

  ghost predicate CompleteRun(t: CompleteTx, used: set<uint64>, evs: seq<CompleteEvent>)
    decreases |evs|
  {
    || evs == []
    || (&& CompleteAllowed(t, used, evs[0])
        && CompleteRun(CompleteStep(t, evs[0]), UsedCIds(used, evs[0]), evs[1..]))
  }

  ghost function CompleteAfter(t: CompleteTx, used: set<uint64>, evs: seq<CompleteEvent>): (CompleteTx, set<uint64>)
    requires CompleteRun(t, used, evs)
    decreases |evs|
  {
    if evs == [] then (t, used) else CompleteAfter(CompleteStep(t, evs[0]), UsedCIds(used, evs[0]), evs[1..])
  }

  lemma {:induction false} CompleteRunKeepsInv(t: CompleteTx, used: set<uint64>, evs: seq<CompleteEvent>)
    requires CompleteInv(t, used) && CompleteRun(t, used, evs)
    ensures CompleteInv(CompleteAfter(t, used, evs).0, CompleteAfter(t, used, evs).1)
    decreases |evs|
  {
    if evs != [] {
      CompleteStepKeepsInv(t, used, evs[0]);
      CompleteRunKeepsInv(CompleteStep(t, evs[0]), UsedCIds(used, evs[0]), evs[1..]);
    }
  }

  /** Retransmission of completions never stalls either: each pending completion has exactly one outstanding timer,
      which resends it and arms itself again; the timer of an acked one sends nothing and is gone. */
  lemma CompletionsAreRetransmitted(evs: seq<CompleteEvent>)
    requires CompleteRun(COMPLETE_START, {}, evs)
    ensures var t := CompleteAfter(COMPLETE_START, {}, evs).0;
      && (forall id :: id in t.active ==>
            && t.timers[id] == 1
            && CompleteStep(t, TimeoutC(id)) == t.(sent := t.sent + [Completion(t.active[id].call, id)]))
      && (forall id :: id in t.timers && id !in t.active ==>
            CompleteStep(t, TimeoutC(id)).sent == t.sent && id !in CompleteStep(t, TimeoutC(id)).timers)
  {
    CompleteRunKeepsInv(COMPLETE_START, {}, evs);
    var t := CompleteAfter(COMPLETE_START, {}, evs).0;
    forall id | id in t.active
      ensures CompleteStep(t, TimeoutC(id)) == t.(sent := t.sent + [Completion(t.active[id].call, id)])
    {
      assert t.timers - multiset{id} + multiset{id} == t.timers;
      assert t.active[id] == Completion(t.active[id].call, id);
    }
  }

  /** A new completion is taken in every run, whether the transmitter is enabled or not: it is sent at once, is pending
      beside all others, and its timer is out. */
  lemma NewCompletionIsTaken(evs: seq<CompleteEvent>, call: ButtonEvent, id: uint64)
    requires CompleteRun(COMPLETE_START, {}, evs) && id !in CompleteAfter(COMPLETE_START, {}, evs).1
    ensures var t := CompleteAfter(COMPLETE_START, {}, evs).0;
      var q, m := CompleteStep(t, NewC(call, id)), Completion(call, id);
      && id !in t.active && q.active == t.active[id := m]
      && q.sent == t.sent + [m] && q.timers[id] == 1 && q.enable == t.enable
  {
    CompleteRunKeepsInv(COMPLETE_START, {}, evs);
    var (t, used) := CompleteAfter(COMPLETE_START, {}, evs);
    CompleteStepKeepsInv(t, used, NewC(call, id));
  }

  /** Exactly what ends the wait of a completion, in every run: its own ack, or the end of the slave's session; nothing
      changes it meanwhile. */
  lemma CompletionEndsExactlyBy(evs: seq<CompleteEvent>, id: uint64, ev: CompleteEvent)
    requires CompleteRun(COMPLETE_START, {}, evs)
    requires var (t, used) := CompleteAfter(COMPLETE_START, {}, evs); id in t.active && CompleteAllowed(t, used, ev)
    ensures var t := CompleteAfter(COMPLETE_START, {}, evs).0;
      var q := CompleteStep(t, ev);
      && (id !in q.active <==> ev == AckedC(id) || ev == EnableC(false))
      && (id in q.active ==> q.active[id] == t.active[id])
  {
    CompleteRunKeepsInv(COMPLETE_START, {}, evs);
  }

  /** Its timer cannot be called off either. */
  lemma CompleteTimersOnlyFire(evs: seq<CompleteEvent>, ev: CompleteEvent, id: uint64)
    requires CompleteRun(COMPLETE_START, {}, evs)
    requires var (t, used) := CompleteAfter(COMPLETE_START, {}, evs); CompleteAllowed(t, used, ev)
    ensures var t := CompleteAfter(COMPLETE_START, {}, evs).0;
      && (id in t.timers && id !in CompleteStep(t, ev).timers <==> ev == TimeoutC(id) && id !in t.active)
      && (id !in t.timers && id in CompleteStep(t, ev).timers <==> ev.NewC? && ev.id == id)
  {
    CompleteRunKeepsInv(COMPLETE_START, {}, evs);
    var (t, used) := CompleteAfter(COMPLETE_START, {}, evs);
    if ev.TimeoutC? && ev.id in t.active {
      assert t.active[ev.id].id == ev.id;
    }
  }

  /** No completion with the id is sent from t to q, and at q its acks do nothing and its timer only ends. */
  ghost predicate ForgottenC(t: CompleteTx, q: CompleteTx, id: uint64) {
    && |t.sent| <= |q.sent|
    && (forall i :: |t.sent| <= i < |q.sent| ==> q.sent[i].id != id)
    && id !in q.active && CompleteStep(q, AckedC(id)) == q
    && CompleteStep(q, TimeoutC(id)) == q.(timers := q.timers[id := 0])
  }

  lemma GoneStep(t: CompleteTx, used: set<uint64>, ev: CompleteEvent, id: uint64)
    requires CompleteInv(t, used) && CompleteAllowed(t, used, ev) && id in used && id !in t.active
    ensures var q := CompleteStep(t, ev);
      && id in UsedCIds(used, ev) && id !in q.active && |t.sent| <= |q.sent|
      && forall i :: 0 <= i < |q.sent| ==> if i < |t.sent| then q.sent[i] == t.sent[i] else q.sent[i].id != id
  {}

  lemma {:induction false} GoneRun(t: CompleteTx, used: set<uint64>, evs: seq<CompleteEvent>, id: uint64)
    requires CompleteInv(t, used) && CompleteRun(t, used, evs) && id in used && id !in t.active
    ensures var q := CompleteAfter(t, used, evs).0;
      && CompleteInv(q, CompleteAfter(t, used, evs).1) && id !in q.active && |t.sent| <= |q.sent|
      && forall i :: 0 <= i < |q.sent| ==> if i < |t.sent| then q.sent[i] == t.sent[i] else q.sent[i].id != id
    decreases |evs|
  {
    if evs != [] {
      CompleteStepKeepsInv(t, used, evs[0]);
      GoneStep(t, used, evs[0], id);
      GoneRun(CompleteStep(t, evs[0]), UsedCIds(used, evs[0]), evs[1..], id);
    }
  }

  /** A completion that was taken and is no longer pending never comes back: in every continuation with distinct ids it
      is not sent again, its acks do nothing, and its timer only ends. */
  lemma AckedCompletionIsForgotten(evs: seq<CompleteEvent>, id: uint64, after: seq<CompleteEvent>)
    requires CompleteRun(COMPLETE_START, {}, evs)
    requires var (t, used) := CompleteAfter(COMPLETE_START, {}, evs);
      id in used && id !in t.active && CompleteRun(t, used, after)
    ensures var (t, used) := CompleteAfter(COMPLETE_START, {}, evs);
      ForgottenC(t, CompleteAfter(t, used, after).0, id)
  {
    CompleteRunKeepsInv(COMPLETE_START, {}, evs);
    var (t, used) := CompleteAfter(COMPLETE_START, {}, evs);
    GoneRun(t, used, after, id);
    var q := CompleteAfter(t, used, after).0;
    assert q.active - {id} == q.active;
    assert q.timers - multiset{id} == q.timers[id := 0];
  }
}
