/** What every run of one elevator keeps: shaft, motor and door safety, and a controller that is never stuck. */
module ElevatorSafety {
  import opened Elevators
  import opened Requests
  import opened ElevatorFsm

  ghost predicate NoCalls(e: Elevator) {
    forall c: ButtonEvent :: !Pending(e, c)
  }

  /** The request matrix has at least two floors and the cab is in the shaft, heading for a floor that exists. */
  ghost predicate ShaftSafe(e: Elevator) {
    && |e.requests| >= 2
    && -1 <= e.floor < |e.requests|
    && (e.floor == -1 ==> e.behavior == Moving && e.dir == Down)
    && (e.behavior == Moving && e.dir == Up ==> e.floor < |e.requests| - 1)
    && (e.behavior == Moving && e.dir == Down ==> e.floor != 0)
  }

  /** Idle is rest, moving has a direction, and an open door leaves nothing it should have served. */
  ghost predicate ScheduleSound(e: Elevator) {
    && (e.behavior == Idle ==> e.dir == Stop && NoCalls(e))
    && (e.behavior == Moving ==> e.dir != Stop)
    && (e.behavior == DoorOpen ==>
          forall b :: ShouldClearImmediately(e, ButtonEvent(e.floor, b)) ==> !Pending(e, ButtonEvent(e.floor, b)))
  }

  ghost predicate OutputsAgree(s: State) {
    && s.motor == (if s.elev.behavior == Moving then s.elev.dir else Stop)
    && (s.doorLamp ==> s.elev.behavior == DoorOpen)
    && (s.doorTimer <==> s.elev.behavior == DoorOpen)
    && (s.stuckTimer ==> s.elev.behavior == DoorOpen && s.stuckTimerActive)
  }

  ghost predicate Inv(s: State) {
    ShaftSafe(s.elev) && ScheduleSound(s.elev) && OutputsAgree(s)
  }

  lemma InitialInv(n: nat)
    requires n >= 2
    ensures Inv(Initial(n))
  {}

  lemma PressKeepsInv(s: State, c: ButtonEvent)
    requires Inv(s) && Enabled(s, Press(c))
    ensures Inv(Step(s, Press(c)))
  {}

  lemma ArriveKeepsInv(s: State, f: int)
    requires Inv(s) && Enabled(s, Arrive(f))
    ensures Inv(Step(s, Arrive(f)))
  {}

  lemma TimeoutKeepsInv(s: State)
    requires Inv(s) && Enabled(s, DoorTimeout)
    ensures Inv(Step(s, DoorTimeout))
  {}

  lemma StepKeepsInv(s: State, ev: Event)
    requires Inv(s) && Enabled(s, ev)
    ensures Inv(Step(s, ev))
  {
    match ev
    case Press(c) => PressKeepsInv(s, c);
    case Arrive(f) => ArriveKeepsInv(s, f);
    case DoorTimeout => TimeoutKeepsInv(s);
    case _ => assert forall c: ButtonEvent :: Pending(Step(s, ev).elev, c) ==> Pending(s.elev, c);
  }

  lemma {:induction false} RunKeepsInv(s: State, evs: seq<Event>)
    requires Inv(s) && Allowed(s, evs)
    ensures Inv(Run(s, evs))
    decreases |evs|
  {
    if evs != [] {
      StepKeepsInv(s, evs[0]);
      RunKeepsInv(Step(s, evs[0]), evs[1..]);
    }
  }

  /** Whatever happens after start-up: the motor never drives out of the shaft, it runs exactly while the
      cab is Moving and in the direction of the controller, the door lamp is lit only while the door is open,
      Idle means no call anywhere and no direction, and the door timer is armed exactly while the door is open,
      with nothing left here that the open door serves. */
  lemma EveryRunIsSafe(n: nat, evs: seq<Event>)
    requires n >= 2 && Allowed(Initial(n), evs)
    ensures var s := Run(Initial(n), evs);
      && |s.elev.requests| == n
      && (s.motor == Up ==> 0 <= s.elev.floor < n - 1)
      && (s.motor == Down && s.elev.floor != -1 ==> 0 < s.elev.floor < n)
      && (s.motor != Stop <==> s.elev.behavior == Moving)
      && (s.motor != Stop ==> s.motor == s.elev.dir && !s.doorLamp)
      && (s.elev.behavior == Idle ==> s.elev.dir == Stop && NoCalls(s.elev))
      && (s.doorTimer <==> s.elev.behavior == DoorOpen)
      && (s.doorLamp ==> s.elev.behavior == DoorOpen)
      && (s.elev.behavior == DoorOpen ==>
            && !Pending(s.elev, ButtonEvent(s.elev.floor, Cab))
            && (s.elev.dir != Down ==> !Pending(s.elev, ButtonEvent(s.elev.floor, HallUp)))
            && (s.elev.dir != Up ==> !Pending(s.elev, ButtonEvent(s.elev.floor, HallDown))))
  {
    InitialInv(n);
    RunKeepsInv(Initial(n), evs);
    var e := Run(Initial(n), evs).elev;
    if e.behavior == DoorOpen {
      assert ShouldClearImmediately(e, ButtonEvent(e.floor, Cab));
      assert e.dir != Down ==> ShouldClearImmediately(e, ButtonEvent(e.floor, HallUp));
      assert e.dir != Up ==> ShouldClearImmediately(e, ButtonEvent(e.floor, HallDown));
    }
  }

  /** The door never opens unseen nor closes on an obstruction: as it opens the motor stands, the lamp is lit and the
      timer armed; while obstructed it stays open; it leaves and the lamp goes dark only on an unobstructed door
      timeout, and the floor and the cab's place do not change while it is open. */
  lemma DoorIsSafe(s: State, ev: Event)
    requires Inv(s) && Enabled(s, ev)
    ensures var t := Step(s, ev);
      && (s.elev.behavior != DoorOpen && t.elev.behavior == DoorOpen ==> t.doorLamp && t.doorTimer && t.motor == Stop)
      && (s.elev.behavior == DoorOpen && (s.elev.obstructed || ev != DoorTimeout) ==>
            t.elev.behavior == DoorOpen && t.elev.dir == s.elev.dir)
      && (s.doorLamp && !t.doorLamp ==> ev == DoorTimeout && !s.elev.obstructed)
      && (s.elev.behavior == DoorOpen ==> t.elev.floor == s.elev.floor)
  {
    StepKeepsInv(s, ev);
  }

  // The lamp does not tell an open door from a closed one.

  /** Hall call c is served next by the door that is open at its floor: the cab has come for the other direction and
      has no calls ahead, so that an unobstructed door timeout turns it. */
  predicate AtTurn(e: Elevator, c: ButtonEvent) {
    && e.behavior == DoorOpen && !e.obstructed && c.floor == e.floor && Pending(e, c)
    && (|| (e.dir == Up && c.button == HallDown && !HasAbove(e))
        || (e.dir == Down && c.button == HallUp && !HasBelow(e)))
  }

  /** The door is open and its lamp, the only output that shows it, is dark. */
  predicate DarkDoor(s: State) {
    s.elev.behavior == DoorOpen && !s.doorLamp
  }

  /** A timeout leaves an unobstructed door open exactly if the cab turns for a call here. */
  lemma OnlyTurnReopens(s: State)
    requires Inv(s) && s.elev.behavior == DoorOpen && !s.elev.obstructed
    ensures Step(s, DoorTimeout).elev.behavior == DoorOpen <==> exists c :: AtTurn(s.elev, c)
  {
    var e := s.elev;
    assert ShouldClearImmediately(e, ButtonEvent(e.floor, Cab));
    assert e.dir != Down ==> ShouldClearImmediately(e, ButtonEvent(e.floor, HallUp));
    assert e.dir != Up ==> ShouldClearImmediately(e, ButtonEvent(e.floor, HallDown));
    if Step(s, DoorTimeout).elev.behavior == DoorOpen {
      assert AtTurn(e, ButtonEvent(e.floor, if e.dir == Up then HallDown else HallUp));
    }
  }

  /** Exactly when a door becomes dark while open: the door timeout of a cab that turns here for a hall call, lit or
      dark before; any other step leaves an open door as lit or dark as it was, but a press that the open door serves
      at once lights it again. */
  lemma DoorGoesDarkExactlyAtTheTurn(s: State, ev: Event)
    requires Inv(s) && Enabled(s, ev)
    ensures s.doorLamp ==>
      (DarkDoor(Step(s, ev)) <==> ev == DoorTimeout && exists c :: AtTurn(s.elev, c))
    ensures DarkDoor(s) && Step(s, ev).elev.behavior == DoorOpen ==>
      (Step(s, ev).doorLamp <==> ev.Press? && ShouldClearImmediately(s.elev, ev.call))
    ensures !DarkDoor(s) && DarkDoor(Step(s, ev)) ==> s.doorLamp
  {
    StepKeepsInv(s, ev);
    if ev == DoorTimeout && !s.elev.obstructed {
      OnlyTurnReopens(s);
    }
  }

  /** It happens, for every number of floors: start at the lowest floor, press its up button while the door is open,
      and let the door time out. */
  lemma ADoorStandsOpenInTheDark(n: nat)
    requires n >= 2
    ensures var evs := [Arrive(0), Press(ButtonEvent(0, HallUp)), DoorTimeout];
      Allowed(Initial(n), evs) && DarkDoor(Run(Initial(n), evs))
  {
    var a := Initial(n);
    var b := Step(a, Arrive(0));
    var c := Step(b, Press(ButtonEvent(0, HallUp)));
    assert DarkDoor(Step(c, DoorTimeout));
  }
}
