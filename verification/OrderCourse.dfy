/** Orders as the elevator takes them: what a cab order leaves pending, and which way an idle cab sets off on an
    order. */
module OrderCourse {
  import opened Elevators
  import opened ElevatorFsm
  import opened ElevatorSafety
  import opened ElevatorProgram
  import opened HallOrders
  import opened Outcomes
  import opened Requests
  import opened Wrappers

  // A cab order.

  predicate Listed(order: seq<bool>, k: nat, d: ButtonEvent) {
    d.button == Cab && 0 <= d.floor < k && d.floor < |order| && order[d.floor]
  }

  /** After the first k floors of a cab order: each listed call is pending unless the door is open at its floor; all
      other calls are as before, and the cab is where it was. */
  ghost predicate CabDone(s: State, t: State, order: seq<bool>, k: nat) {
    && Inv(t) && |t.elev.requests| == |s.elev.requests| && t.elev.floor == s.elev.floor
    && (forall d: ButtonEvent :: Listed(order, k, d) ==>
          (Pending(t.elev, d) <==> !(t.elev.behavior == DoorOpen && t.elev.floor == d.floor)))
    && (forall d: ButtonEvent :: !Listed(order, k, d) ==> Pending(t.elev, d) == Pending(s.elev, d))
  }

  lemma PressKeepsPlace(s: State, c: ButtonEvent)
    requires Inv(s) && Enabled(s, Press(c))
    ensures var t := Step(s, Press(c));
      && Inv(t) && t.elev.floor == s.elev.floor
      && (s.elev.behavior != Idle ==> t.elev.behavior == s.elev.behavior && t.elev.dir == s.elev.dir)
  {
    StepKeepsInv(s, Press(c));
    if s.elev.behavior == Idle {
      IdlePressOutcome(s, c);
    } else {
      PressOutcome(s, c);
    }
  }

  lemma OneMoreCab(s: State, t: State, order: seq<bool>, k: nat)
    requires CabDone(s, t, order, k) && k < |order| == |s.elev.requests| && order[k]
    ensures var c := ButtonEvent(k, Cab);
      Enabled(t, Press(c)) && CabDone(s, Step(t, Press(c)), order, k + 1) && Reports(t, Press(c)) == []
  {
    var c := ButtonEvent(k, Cab);
    var u := Step(t, Press(c));
    PressKeepsPlace(t, c);
    PressEffect(t, c);
    assert u.elev.behavior == DoorOpen && u.elev.floor == k ==> ShouldClearImmediately(u.elev, c);
    forall d: ButtonEvent
      ensures Listed(order, k + 1, d) <==> Listed(order, k, d) || d == c
    {}
  }

  lemma NoMoreCab(s: State, t: State, order: seq<bool>, k: nat)
    requires CabDone(s, t, order, k) && k < |order| && !order[k]
    ensures CabDone(s, t, order, k + 1)
  {
    assert forall d: ButtonEvent :: Listed(order, k + 1, d) <==> Listed(order, k, d);
  }

  lemma {:induction false} CabOrderSteps(s: State, order: seq<bool>, k: nat)
    requires Inv(s) && |order| == |s.elev.requests| && k <= |order|
    ensures Allowed(s, CabScript(order, k)) && RunReports(s, CabScript(order, k)) == []
    ensures CabDone(s, Run(s, CabScript(order, k)), order, k)
  {
    if k > 0 {
      CabOrderSteps(s, order, k - 1);
      var before := CabScript(order, k - 1);
      var t := Run(s, before);
      if order[k - 1] {
        var press := Press(ButtonEvent(k - 1, Cab));
        OneMoreCab(s, t, order, k - 1);
        RunOne(t, press);
        RunConcat(s, before, [press]);
      } else {
        NoMoreCab(s, t, order, k - 1);
        assert before + [] == before;
      }
    }
  }

  /** The outcome of a cab order, from any reachable state: each listed cab call is pending, unless the door is open at
      its floor; every other call is pending exactly if it was before; the cab has not moved, nothing is reported, and
      the elevator is in a reachable state. */
  lemma CabOrderRefinesMessage(s: State, order: seq<bool>)
    requires Inv(s) && |order| == |s.elev.requests|
    ensures Allowed(s, CabScript(order, |order|)) && RunReports(s, CabScript(order, |order|)) == []
    ensures var t := Run(s, CabScript(order, |order|));
      && Inv(t) && t.elev.floor == s.elev.floor
      && (forall f :: 0 <= f < |order| && order[f] ==>
            (Pending(t.elev, ButtonEvent(f, Cab)) <==> !(t.elev.behavior == DoorOpen && t.elev.floor == f)))
      && (forall d: ButtonEvent :: !(d.button == Cab && 0 <= d.floor < |order| && order[d.floor]) ==>
            Pending(t.elev, d) == Pending(s.elev, d))
  {
    CabOrderSteps(s, order, |order|);
    var t := Run(s, CabScript(order, |order|));
    forall f | 0 <= f < |order| && order[f]
      ensures Pending(t.elev, ButtonEvent(f, Cab)) <==> !(t.elev.behavior == DoorOpen && t.elev.floor == f)
    {
      assert Listed(order, |order|, ButtonEvent(f, Cab));
    }
  }

  // Which way an idle cab sets off.

  ghost predicate OnlyCalls(evs: seq<Event>) {
    forall ev :: ev in evs ==> ev.Press? || ev.Remove?
  }

  function FirstPress(evs: seq<Event>): Option<ButtonEvent> {
    if evs == [] then None else if evs[0].Press? then Some(evs[0].call) else FirstPress(evs[1..])
  }

  lemma {:induction false} FirstPressConcat(a: seq<Event>, b: seq<Event>)
    ensures FirstPress(a + b) == if FirstPress(a).Some? then FirstPress(a) else FirstPress(b)
  {
    if a == [] {
      assert a + b == b;
    } else {
      assert (a + b)[0] == a[0] && (a + b)[1..] == a[1..] + b;
      FirstPressConcat(a[1..], b);
    }
  }

  lemma FirstOfTwo(a: Event, b: Event)
    ensures FirstPress([a, b]) == if a.Press? then Some(a.call) else if b.Press? then Some(b.call) else None
  {
    assert [a, b][1..] == [b] && [b][1..] == [];
    assert FirstPress([b]) == if b.Press? then Some(b.call) else FirstPress([]);
  }

  /** Presses and withdrawals leave a cab that is not idle on its course. */
  lemma {:induction false} KeepsCourse(s: State, evs: seq<Event>)
    requires Inv(s) && s.elev.behavior != Idle && Allowed(s, evs) && OnlyCalls(evs)
    ensures var t := Run(s, evs).elev;
      t.floor == s.elev.floor && t.dir == s.elev.dir && t.behavior == s.elev.behavior
    decreases |evs|
  {
    if evs != [] {
      assert evs[0] in evs && OnlyCalls(evs[1..]);
      StepKeepsInv(s, evs[0]);
      if evs[0].Press? {
        PressKeepsPlace(s, evs[0].call);
      }
      KeepsCourse(Step(s, evs[0]), evs[1..]);
    }
  }

  /** The cab has gone off for c, or opened its door for it. */
  predicate SetOffFor(t: Elevator, floor: int, c: ButtonEvent) {
    && t.floor == floor
    && t.dir == (if c.floor == floor then Stop else if c.floor > floor then Up else Down)
    && t.behavior == (if c.floor == floor then DoorOpen else Moving)
  }

  lemma {:induction false} FirstPressDecides(s: State, evs: seq<Event>)
    requires Inv(s) && s.elev.behavior == Idle && Allowed(s, evs) && OnlyCalls(evs) && FirstPress(evs).Some?
    ensures SetOffFor(Run(s, evs).elev, s.elev.floor, FirstPress(evs).value)
    decreases |evs|
  {
    assert evs[0] in evs && OnlyCalls(evs[1..]);
    StepKeepsInv(s, evs[0]);
    if evs[0].Press? {
      IdlePressOutcome(s, evs[0].call);
      KeepsCourse(Step(s, evs[0]), evs[1..]);
    } else {
      FirstPressDecides(Step(s, evs[0]), evs[1..]);
    }
  }

  ghost predicate LowestLit(order: HallCalls, c: ButtonEvent) {
    Lit(order, c) && forall d: ButtonEvent :: Lit(order, d) ==> c.floor <= d.floor
  }

  lemma {:induction false} FirstOfHall(order: HallCalls, k: nat)
    requires k <= |order|
    ensures OnlyCalls(HallScript(order, k))
    ensures FirstPress(HallScript(order, k)).None? ==> forall d: ButtonEvent :: Lit(order, d) ==> d.floor >= k
    ensures FirstPress(HallScript(order, k)).Some? ==> LowestLit(order, FirstPress(HallScript(order, k)).value)
  {
    if k > 0 {
      FirstOfHall(order, k - 1);
      var f := k - 1;
      FirstPressConcat(HallScript(order, f), FloorScript(order, f));
      var up, down := ButtonEvent(f, HallUp), ButtonEvent(f, HallDown);
      FirstOfTwo(SlotEvent(order, f, 0), SlotEvent(order, f, 1));
      assert forall d: ButtonEvent :: Lit(order, d) && d.floor == f ==> d == up || d == down;
    }
  }

  /** A hall order is taken from the lowest floor up: an idle cab sets off for the lowest floor ordered, or opens its
      door if that is where it stands, whatever else is ordered. */
  lemma IdleGoesForLowestHallCall(s: State, order: HallCalls, c: ButtonEvent)
    requires Inv(s) && s.elev.behavior == Idle && |order| == |s.elev.requests| && LowestLit(order, c)
    ensures Allowed(s, HallScript(order, |order|))
    ensures SetOffFor(Run(s, HallScript(order, |order|)).elev, s.elev.floor, c)
  {
    HallOrderRefinesMessage(s, order);
    FirstOfHall(order, |order|);
    FirstPressDecides(s, HallScript(order, |order|));
  }

  lemma {:induction false} FirstOfCab(order: seq<bool>, k: nat)
    requires k <= |order|
    ensures OnlyCalls(CabScript(order, k))
    ensures FirstPress(CabScript(order, k)).None? ==> forall f :: 0 <= f < k ==> !order[f]
    ensures FirstPress(CabScript(order, k)).Some? ==>
      var c := FirstPress(CabScript(order, k)).value;
      c.button == Cab && 0 <= c.floor < k && order[c.floor] && forall f :: 0 <= f < c.floor ==> !order[f]
  {
    if k > 0 {
      FirstOfCab(order, k - 1);
      FirstPressConcat(CabScript(order, k - 1), [Press(ButtonEvent(k - 1, Cab))]);
      assert CabScript(order, k - 1) + [] == CabScript(order, k - 1);
    }
  }

  /** A cab order likewise. */
  lemma IdleGoesForLowestCabCall(s: State, order: seq<bool>, f: nat)
    requires Inv(s) && s.elev.behavior == Idle && |order| == |s.elev.requests|
    requires f < |order| && order[f] && forall g :: 0 <= g < f ==> !order[g]
    ensures Allowed(s, CabScript(order, |order|))
    ensures SetOffFor(Run(s, CabScript(order, |order|)).elev, s.elev.floor, ButtonEvent(f, Cab))
  {
    CabOrderRefinesMessage(s, order);
    FirstOfCab(order, |order|);
    FirstPressDecides(s, CabScript(order, |order|));
  }
}
