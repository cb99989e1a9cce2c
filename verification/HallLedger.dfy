/** Where hall calls go: every call an elevator takes is still pending, was reported complete, was withdrawn,
    or was cleared by a door timeout that throws its events away. */
module HallLedger {
  import opened Elevators
  import opened Requests
  import opened ElevatorFsm
  import opened ElevatorSafety
  import opened HallOrders

  /** A hall request goes out in exactly one of three ways, told apart by the event, and comes in only by a press. */
  lemma StepLedger(s: State, ev: Event, c: ButtonEvent)
    requires Inv(s) && Enabled(s, ev) && c.button != Cab
    ensures var t := Step(s, ev);
      Pending(s.elev, c) && !Pending(t.elev, c) <==>
        || (ev.Arrive? && c in Reports(s, ev))
        || (ev == Remove(c) && Pending(s.elev, c))
        || (ev == DoorTimeout && c in DiscardedEvents(s.elev))
    ensures !Pending(s.elev, c) && Pending(Step(s, ev).elev, c) ==> ev == Press(c)
    ensures Distinct(Reports(s, ev))
    ensures c in Reports(s, ev) ==> !Pending(Step(s, ev).elev, c) && (Pending(s.elev, c) || ev == Press(c))
    ensures ev == Press(c) ==> (c in Reports(s, ev) <==> !Pending(Step(s, ev).elev, c))
  {
    var t := Step(s, ev);
    match ev
    case Press(d) => PressEffect(s, d);
    case Remove(d) =>
    case Arrive(f) => ArriveLedger(s, f, c);
    case Obstruct(_) =>
    case DoorTimeout =>
      var (dir, behavior) := ChooseDirection(s.elev);
      ClearReportsTheDifference(s.elev.(dir := dir, behavior := behavior));
  }

  lemma ArriveLedger(s: State, f: int, c: ButtonEvent)
    requires Inv(s) && Enabled(s, Arrive(f)) && c.button != Cab
    ensures var t := Step(s, Arrive(f));
      && (Pending(s.elev, c) && !Pending(t.elev, c) <==> c in Reports(s, Arrive(f)))
      && (Pending(t.elev, c) ==> Pending(s.elev, c))
    ensures Distinct(Reports(s, Arrive(f)))
  {}

  /** The cab stands at the floor of c with the motor off, the door open and its lamp lit, and c is not pending. */
  predicate OpenFor(s: State, c: ButtonEvent) {
    && s.elev.behavior == DoorOpen && s.elev.floor == c.floor && s.motor == Stop && s.doorLamp
    && !Pending(s.elev, c)
  }

  /** A completion is reported only for a hall call, and only with the door lit and open for it. */
  lemma ReportedIsServed(s: State, ev: Event, c: ButtonEvent)
    requires Inv(s) && Enabled(s, ev) && c in Reports(s, ev)
    ensures c.button != Cab && OpenFor(Step(s, ev), c)
  {
    StepKeepsInv(s, ev);
    match ev
    case Press(d) => PressEffect(s, d);
    case Arrive(f) =>
    case _ =>
  }

  datatype Account = Account(ordered: nat, reported: nat, withdrawn: nat, lost: nat)

  /** How the events of a run concern hall call c: orders that find it absent, completions sent, withdrawals
      that find it pending, and completions thrown away. */
  function Ledger(s: State, evs: seq<Event>, c: ButtonEvent): Account
    requires Allowed(s, evs)
    decreases |evs|
  {
    if evs == [] then Account(0, 0, 0, 0) else
    var ev := evs[0];
    var rest := Ledger(Step(s, ev), evs[1..], c);
    Account(
      rest.ordered + (if ev == Press(c) && !Pending(s.elev, c) then 1 else 0),
      rest.reported + (if c in Reports(s, ev) then 1 else 0),
      rest.withdrawn + (if ev == Remove(c) && Pending(s.elev, c) then 1 else 0),
      rest.lost + (if ev == DoorTimeout && c in DiscardedEvents(s.elev) then 1 else 0))
  }

  function Outstanding(s: State, c: ButtonEvent): nat {
    if Pending(s.elev, c) then 1 else 0
  }

  /** Conservation over every run: what was pending or ordered is reported, withdrawn, lost or still pending. */
  lemma {:induction false} LedgerBalances(s: State, evs: seq<Event>, c: ButtonEvent)
    requires Inv(s) && Allowed(s, evs) && c.button != Cab
    ensures var l := Ledger(s, evs, c);
      Outstanding(s, c) + l.ordered == l.reported + l.withdrawn + l.lost + Outstanding(Run(s, evs), c)
    decreases |evs|
  {
    if evs != [] {
      StepKeepsInv(s, evs[0]);
      StepLedger(s, evs[0], c);
      LedgerBalances(Step(s, evs[0]), evs[1..], c);
    }
  }

  /** Exactly which completions are lost: the call the other way at the floor of the open door, when the cab has
      no calls left ahead and the door is free to close. */
  lemma LostExactlyAtTheTurn(s: State, c: ButtonEvent)
    requires Inv(s) && s.doorTimer
    ensures c in DiscardedEvents(s.elev) <==> AtTurn(s.elev, c)
  {}

  /** A lost completion and a dark open door are the same event: of a lit door, the timeout leaves it open and dark
      exactly if it throws a completion away. */
  lemma LossesDarkenTheDoor(s: State)
    requires Inv(s) && s.doorTimer && s.doorLamp
    ensures DarkDoor(Step(s, DoorTimeout)) <==> exists c :: c in DiscardedEvents(s.elev)
  {
    DoorGoesDarkExactlyAtTheTurn(s, DoorTimeout);
    forall c: ButtonEvent
      ensures c in DiscardedEvents(s.elev) <==> AtTurn(s.elev, c)
    {
      LostExactlyAtTheTurn(s, c);
    }
  }

  /** The run ends with the door about to close and the completion of c about to be thrown away. */
  predicate AboutToLose(s: State, evs: seq<Event>, c: ButtonEvent) {
    && Allowed(s, evs) && Enabled(Run(s, evs), DoorTimeout) && c in DiscardedEvents(Run(s, evs).elev)
  }

  /** The loss is reachable: start at the lowest floor and press its up button while the door is open. */
  lemma ACompletionIsLost(n: nat)
    requires n >= 2
    ensures AboutToLose(Initial(n), [Arrive(0), Press(ButtonEvent(0, HallUp))], ButtonEvent(0, HallUp))
  {}
}
