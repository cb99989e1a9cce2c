/** The nested hall-order loop refines its message, and each hall call of an elevator is accounted for. */
module HallOrders {
  import opened Elevators
  import opened Requests
  import opened ElevatorFsm
  import opened ElevatorSafety
  import opened ElevatorProgram

  /** An idle elevator has only the pressed call: it serves it here or sets off for it. */
  lemma IdlePressEffect(s: State, c: ButtonEvent)
    requires Inv(s) && Enabled(s, Press(c)) && s.elev.behavior == Idle
    ensures var t := Step(s, Press(c));
      && HandleButtonEvent(s.elev, c).events == (if Pending(t.elev, c) || c.button == Cab then [] else [c])
      && (forall d: ButtonEvent :: d != c ==> !Pending(t.elev, d))
      && (!Pending(t.elev, c) ==> t.elev.behavior == DoorOpen && t.elev.floor == c.floor)
  {
    var e := s.elev;
    var pressed := SetRequest(e, c, true);
    var next := pressed.(dir := ChooseDirection(pressed).0, behavior := ChooseDirection(pressed).1);
    forall d: ButtonEvent
      ensures Pending(next, d) <==> d == c
    {
      assert !Pending(e, d) && Pending(next, d) == Pending(pressed, d);
    }
    ClearReportsTheDifference(next);
    if next.behavior == DoorOpen {
      var r := HandleButtonEvent(e, c);
      assert r.state == Cleared(next) && r.events == ClearedEvents(next);
      assert forall d :: d in r.events ==> d == c;
      assert c == ButtonEvent(c.floor, c.button);
    }
  }

  /** A press reports at most the pressed hall call, at the pressed floor, so the filter of the loop never
      drops anything; it reports it exactly when the call does not become pending, the door being open at
      that floor; other calls are untouched. */
  lemma PressEffect(s: State, c: ButtonEvent)
    requires Inv(s) && Enabled(s, Press(c))
    ensures var t := Step(s, Press(c));
      var events := HandleButtonEvent(s.elev, c).events;
      && AtFloor(events, c.floor) == events
      && events == (if Pending(t.elev, c) || c.button == Cab then [] else [c])
      && (forall d: ButtonEvent :: d != c ==> Pending(t.elev, d) == Pending(s.elev, d))
      && (Pending(s.elev, c) ==> Pending(t.elev, c))
      && (!Pending(t.elev, c) ==> t.elev.behavior == DoorOpen && t.elev.floor == c.floor)
  {
    var e := s.elev;
    if e.behavior == Idle {
      IdlePressEffect(s, c);
    } else if e.behavior == DoorOpen && ShouldClearImmediately(e, c) {
      assert c == ButtonEvent(e.floor, c.button);
    }
    KeepsOwnFloor(c);
  }

  lemma KeepsOwnFloor(c: ButtonEvent)
    ensures c.button != Cab ==> AtFloor([c], c.floor) == [c]
  {}

  /** Slot a is taken before slot b: lower floors first, at one floor the up button first. */
  predicate Before(a: ButtonEvent, b: ButtonEvent) {
    a.floor < b.floor || (a.floor == b.floor && a.button == HallUp && b.button == HallDown)
  }

  ghost predicate InSlotOrder(sent: seq<ButtonEvent>) {
    forall i, j :: 0 <= i < j < |sent| ==> Before(sent[i], sent[j])
  }

  /** What is settled about a hall order after some of its slots: those done are pending exactly when they
      were ordered and not reported; the others are as before. */
  ghost predicate SlotsDone(s: State, t: State, sent: seq<ButtonEvent>, order: HallCalls, f: int, i: int) {
    && Inv(t) && |t.elev.requests| == |order|
    && InSlotOrder(sent)
    && (forall d :: d in sent ==> Lit(order, d) && Done(d, f, i))
    && (forall d: ButtonEvent :: d.button == Cab || !Done(d, f, i) ==> Pending(t.elev, d) == Pending(s.elev, d))
    && (forall d: ButtonEvent :: d.button != Cab && Done(d, f, i) ==>
          (Pending(t.elev, d) <==> Lit(order, d) && d !in sent))
  }

  predicate Done(d: ButtonEvent, f: int, i: int) {
    d.floor < f || (d.floor == f && ((d.button == HallUp && i >= 1) || (d.button == HallDown && i >= 2)))
  }

  lemma DoneNext(d: ButtonEvent, f: nat, i: nat)
    requires i < 2 && d.button != Cab
    ensures Done(d, f, i + 1) <==> Done(d, f, i) || d == ButtonEvent(f, ButtonAt(i))
    ensures !Done(ButtonEvent(f, ButtonAt(i)), f, i)
  {}

  lemma TakenSlot(s: State, t: State, sent: seq<ButtonEvent>, order: HallCalls, f: nat, i: nat)
    requires f < |order| && i < 2 && SlotsDone(s, t, sent, order, f, i)
    requires Lit(order, ButtonEvent(f, ButtonAt(i)))
    ensures Enabled(t, SlotEvent(order, f, i))
    ensures SlotsDone(s, Step(t, SlotEvent(order, f, i)), sent + Reports(t, SlotEvent(order, f, i)), order, f, i + 1)
  {
    var c := ButtonEvent(f, ButtonAt(i));
    var u, more := Step(t, Press(c)), Reports(t, Press(c));
    StepKeepsInv(t, Press(c));
    PressEffect(t, c);
    assert more == if Pending(u.elev, c) then [] else [c];
    forall d: ButtonEvent | d.button != Cab
      ensures Done(d, f, i + 1) <==> Done(d, f, i) || d == c
    {
      DoneNext(d, f, i);
    }
    SlotTaken(s, t, u, sent, more, order, f, i);
  }

  lemma SlotTaken(s: State, t: State, u: State, sent: seq<ButtonEvent>, more: seq<ButtonEvent>, order: HallCalls,
                  f: nat, i: nat)
    requires f < |order| && i < 2 && SlotsDone(s, t, sent, order, f, i) && Inv(u) && |u.elev.requests| == |order|
    requires Lit(order, ButtonEvent(f, ButtonAt(i)))
    requires more == if Pending(u.elev, ButtonEvent(f, ButtonAt(i))) then [] else [ButtonEvent(f, ButtonAt(i))]
    requires forall d: ButtonEvent :: d != ButtonEvent(f, ButtonAt(i)) ==> Pending(u.elev, d) == Pending(t.elev, d)
    requires forall d: ButtonEvent | d.button != Cab ::
      Done(d, f, i + 1) <==> Done(d, f, i) || d == ButtonEvent(f, ButtonAt(i))
    ensures SlotsDone(s, u, sent + more, order, f, i + 1)
  {
    assert forall d :: d in sent ==> d.button != Cab && Before(d, ButtonEvent(f, ButtonAt(i)));
  }

  lemma WithdrawnSlot(s: State, t: State, sent: seq<ButtonEvent>, order: HallCalls, f: nat, i: nat)
    requires f < |order| && i < 2 && SlotsDone(s, t, sent, order, f, i)
    requires !Lit(order, ButtonEvent(f, ButtonAt(i)))
    ensures Enabled(t, SlotEvent(order, f, i))
    ensures SlotsDone(s, Step(t, SlotEvent(order, f, i)), sent + Reports(t, SlotEvent(order, f, i)), order, f, i + 1)
  {}

  lemma SlotStep(s: State, t: State, sent: seq<ButtonEvent>, order: HallCalls, f: nat, i: nat)
    requires f < |order| && i < 2 && SlotsDone(s, t, sent, order, f, i)
    ensures Enabled(t, SlotEvent(order, f, i))
    ensures SlotsDone(s, Step(t, SlotEvent(order, f, i)), sent + Reports(t, SlotEvent(order, f, i)), order, f, i + 1)
  {
    if Lit(order, ButtonEvent(f, ButtonAt(i))) {
      TakenSlot(s, t, sent, order, f, i);
    } else {
      WithdrawnSlot(s, t, sent, order, f, i);
    }
  }

  lemma NextFloor(s: State, t: State, sent: seq<ButtonEvent>, order: HallCalls, f: int)
    requires SlotsDone(s, t, sent, order, f, 2)
    ensures SlotsDone(s, t, sent, order, f + 1, 0)
  {}

  lemma TwoSlots(s: State, t: State, sent: seq<ButtonEvent>, order: HallCalls, f: nat)
    requires f < |order| && SlotsDone(s, t, sent, order, f, 0)
    ensures var a, b := SlotEvent(order, f, 0), SlotEvent(order, f, 1);
      && Enabled(t, a) && Enabled(Step(t, a), b)
      && SlotsDone(s, Step(Step(t, a), b), sent + (Reports(t, a) + Reports(Step(t, a), b)), order, f + 1, 0)
  {
    var a, b := SlotEvent(order, f, 0), SlotEvent(order, f, 1);
    SlotStep(s, t, sent, order, f, 0);
    var u, first := Step(t, a), Reports(t, a);
    SlotStep(s, u, sent + first, order, f, 1);
    var second := Reports(u, b);
    Concat3(sent, first, second);
    NextFloor(s, Step(u, b), sent + (first + second), order, f);
  }

  lemma FloorStep(s: State, t: State, sent: seq<ButtonEvent>, order: HallCalls, f: nat)
    requires f < |order| && SlotsDone(s, t, sent, order, f, 0)
    ensures Allowed(t, FloorScript(order, f))
    ensures var script := FloorScript(order, f);
      SlotsDone(s, Run(t, script), sent + RunReports(t, script), order, f + 1, 0)
  {
    TwoSlots(s, t, sent, order, f);
    TwoSteps(t, SlotEvent(order, f, 0), SlotEvent(order, f, 1));
  }

  /** Running the script a does the first k floors of the order. */
  ghost predicate OrderDone(s: State, a: seq<Event>, order: HallCalls, k: nat) {
    exists t, sent :: SlotsDone(s, t, sent, order, k, 0) && Leads(s, a, t, sent)
  }

  ghost predicate Leads(s: State, a: seq<Event>, t: State, sent: seq<ButtonEvent>) {
    Allowed(s, a) && t == Run(s, a) && sent == RunReports(s, a)
  }

  lemma LeadsOn(s: State, a: seq<Event>, t: State, sent: seq<ButtonEvent>, b: seq<Event>)
    requires Leads(s, a, t, sent) && Allowed(t, b)
    ensures Leads(s, a + b, Run(t, b), sent + RunReports(t, b))
  {
    RunConcat(s, a, b);
  }

  lemma NothingDone(s: State, order: HallCalls)
    requires Inv(s) && |order| == |s.elev.requests|
    ensures OrderDone(s, [], order, 0)
  {
    assert SlotsDone(s, s, [], order, 0, 0) && Leads(s, [], s, []);
  }

  lemma OneMoreFloor(s: State, a: seq<Event>, order: HallCalls, f: nat)
    requires f < |order| && OrderDone(s, a, order, f)
    ensures OrderDone(s, a + FloorScript(order, f), order, f + 1)
  {
    var t, sent :| SlotsDone(s, t, sent, order, f, 0) && Leads(s, a, t, sent);
    FloorStep(s, t, sent, order, f);
    LeadsOn(s, a, t, sent, FloorScript(order, f));
  }

  lemma {:induction false} ScriptEffect(s: State, order: HallCalls, k: nat)
    requires Inv(s) && |order| == |s.elev.requests| && k <= |order|
    ensures OrderDone(s, HallScript(order, k), order, k)
  {
    if k == 0 {
      NothingDone(s, order);
    } else {
      ScriptEffect(s, order, k - 1);
      OneMoreFloor(s, HallScript(order, k - 1), order, k - 1);
    }
  }

  /** The outcome of a hall order, from any reachable state: every pending hall call is in the message, every
      ordered call is either pending or was reported complete exactly once, nothing else is reported, the reports
      come in the order of the slots, and cab calls are as before. */
  lemma HallOrderRefinesMessage(s: State, order: HallCalls)
    requires Inv(s) && |order| == |s.elev.requests|
    ensures Allowed(s, HallScript(order, |order|))
    ensures var t, sent := Run(s, HallScript(order, |order|)), RunReports(s, HallScript(order, |order|));
      && Inv(t)
      && (forall d: ButtonEvent :: d.button != Cab && Pending(t.elev, d) ==> Lit(order, d))
      && (forall d: ButtonEvent :: Lit(order, d) ==> (Pending(t.elev, d) <==> d !in sent))
      && (forall d: ButtonEvent :: d in sent ==> Lit(order, d))
      && Distinct(sent) && InSlotOrder(sent)
      && (forall d: ButtonEvent :: d.button == Cab ==> Pending(t.elev, d) == Pending(s.elev, d))
  {
    ScriptEffect(s, order, |order|);
  }
}
