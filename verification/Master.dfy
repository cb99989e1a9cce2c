/** The hall-request bookkeeping of a master (node/master.go): the global hall requests and the ring of
    recently applied completions. */
module Master {
  import opened Elevators
  import opened MessageIds
  import opened MessageBuffer
  import opened Wrappers

  /** A hall assignment complete message. */
  datatype Completion = Completion(call: ButtonEvent, id: uint64)

  datatype MasterState = MasterState(hall: HallCalls, ring: Ring)

  datatype MasterEvent =
    | HallButton(call: ButtonEvent)
    | LocalComplete(call: ButtonEvent)
    | NewHallRequest(call: ButtonEvent)
    | Completed(ha: Completion)

  function CallOf(ev: MasterEvent): ButtonEvent {
    if ev.Completed? then ev.ha.call else ev.call
  }

  /** Floors in messages exist; the ring has its two slots. */
  predicate Legal(m: MasterState, ev: MasterEvent) {
    0 <= CallOf(ev).floor < |m.hall| && ValidRing(m.ring)
  }

  function SetHall(h: HallCalls, c: ButtonEvent, v: bool): (r: HallCalls)
    requires 0 <= c.floor < |h|
    ensures |r| == |h|
    ensures forall d: ButtonEvent :: Lit(r, d) <==> (if d == c && c.button != Cab then v else Lit(h, d))
  {
    if c.button == Cab then h else SetLit(h, c, v)
  }

  /** A completion seen for the first time clears its button and enters the ring. */
  function HAComplete(m: MasterState, ha: Completion): (r: (MasterState, bool))
    requires Legal(m, Completed(ha))
    ensures |r.0.hall| == |m.hall| && ValidRing(r.0.ring)
  {
    if Holds(m.ring, ha.id) then (m, false)
    else (MasterState(SetHall(m.hall, ha.call, false), Added(m.ring, ha.id)), true)
  }

  function MasterStep(m: MasterState, ev: MasterEvent): (r: MasterState)
    requires Legal(m, ev)
    ensures |r.hall| == |m.hall| && ValidRing(r.ring)
  {
    match ev
    case HallButton(c) => m.(hall := SetHall(m.hall, c, true))
    case LocalComplete(c) => m.(hall := SetHall(m.hall, c, false))
    case NewHallRequest(c) => m.(hall := SetHall(m.hall, c, true))
    case Completed(ha) => HAComplete(m, ha).0
  }

  method ProcessHAComplete(hall: HallCalls, buffer: MessageIDBuffer, ha: Completion)
    returns (newHall: HallCalls, updateNeeded: bool)
    requires buffer.Valid() && 0 <= ha.call.floor < |hall|
    modifies buffer, buffer.messageIDs
    ensures buffer.Valid()
    ensures (MasterState(newHall, buffer.View()), updateNeeded) == HAComplete(MasterState(hall, old(buffer.View())), ha)
  {
    newHall, updateNeeded := hall, false;
    var seen := buffer.Contains(ha.id);
    if !seen {
      if ha.call.button != Cab {
        newHall := SetLit(newHall, ha.call, false);
      }
      buffer.Add(ha.id);
      updateNeeded := true;
    }
  }

  method ProcessNewHallRequest(hall: HallCalls, c: ButtonEvent) returns (newHall: HallCalls, valid: bool)
    requires 0 <= c.floor < |hall|
    ensures valid <==> c.button != Cab
    ensures |newHall| == |hall|
    ensures forall d: ButtonEvent :: Lit(newHall, d) <==> Lit(hall, d) || (valid && d == c)
  {
    newHall := hall;
    if c.button == Cab {
      return newHall, false;
    }
    newHall := SetLit(newHall, c, true);
    return newHall, true;
  }

  /** In milliseconds. */
  const STATE_REQUEST_INTERVAL: nat := 100

  /** Time has passed since last, if there was a last. */
  predicate Due(last: Option<nat>, now: nat) {
    last.None? || now - last.value > STATE_REQUEST_INTERVAL
  }

  /** Of the moments at which an arm wants the states, those at which it asks. */
  function Asked(last: Option<nat>, wanted: seq<nat>): seq<nat>
    decreases |wanted|
  {
    if wanted == [] then []
    else if Due(last, wanted[0]) then [wanted[0]] + Asked(Some(wanted[0]), wanted[1..])
    else Asked(last, wanted[1..])
  }

  ghost predicate Chronological(times: seq<nat>) {
    forall i, j :: 0 <= i < j < |times| ==> times[i] <= times[j]
  }

  /** Less than or exactly 100 ms after t. */
  predicate JustAfter(t: nat, now: nat) {
    t <= now <= t + 100
  }

  /** The two arms that want the states ask for them more than 100 ms apart, and always but just after asking. */
  lemma {:induction false} StateRequestsAreThrottled(last: Option<nat>, wanted: seq<nat>)
    requires Chronological(wanted) && (last.Some? && wanted != [] ==> last.value <= wanted[0])
    ensures var asked := Asked(last, wanted);
      && (forall i :: 0 <= i < |asked| - 1 ==> asked[i + 1] > asked[i] + 100)
      && (last.Some? && asked != [] ==> asked[0] > last.value + 100)
      && (forall w :: w in wanted && w !in asked ==>
            (last.Some? && JustAfter(last.value, w)) || exists t :: t in asked && JustAfter(t, w))
    decreases |wanted|
  {
    if wanted != [] {
      var w, rest := wanted[0], wanted[1..];
      assert forall v :: v in wanted ==> v == w || v in rest;
      if Due(last, w) {
        StateRequestsAreThrottled(Some(w), rest);
        var asked := Asked(Some(w), rest);
        assert forall t :: t in [w] + asked <==> t == w || t in asked;
      } else {
        StateRequestsAreThrottled(last, rest);
      }
    }
  }

  /** The scan of a starting master for calls to distribute. */
  method AnyLit(hall: HallCalls) returns (r: bool)
    ensures r <==> exists c :: Lit(hall, c)
  {
    for floor := 0 to |hall|
      invariant forall c: ButtonEvent :: Lit(hall, c) ==> c.floor >= floor
    {
      for btn := 0 to 2
        invariant forall c: ButtonEvent :: Lit(hall, c) ==> c.floor >= floor
        invariant btn >= 1 ==> !hall[floor].up
        invariant btn >= 2 ==> !hall[floor].down
      {
        if (btn == 0 && hall[floor].up) || (btn == 1 && hall[floor].down) {
          assert Lit(hall, ButtonEvent(floor, ButtonAt(btn)));
          return true;
        }
      }
    }
    return false;
  }

  /** One master session. The methods are arms of the select loop and return what they hand to the
      global-request transmitter and the lights, if anything. stateRequests counts the commands sent for the states of
      the active elevators, each of which starts a distribution of the calls. */
  class MasterNode {
    var hall: HallCalls
    const buffer: MessageIDBuffer
    var shouldDistributeHallRequests: bool
    var lastStateRequest: Option<nat>
    var stateRequests: nat

    ghost predicate Valid()
      reads this, buffer, buffer.messageIDs
    {
      buffer.Valid()
    }

    ghost function View(): MasterState
      reads this, buffer, buffer.messageIDs
    {
      MasterState(hall, buffer.View())
    }

    constructor (hall: HallCalls, bufferSize: nat)
      requires bufferSize >= 2
      ensures Valid() && fresh(buffer) && fresh(buffer.messageIDs) && View() == MasterState(hall, Fresh(bufferSize))
      ensures shouldDistributeHallRequests <==> exists c :: Lit(hall, c)
      ensures stateRequests == (if shouldDistributeHallRequests then 1 else 0) && lastStateRequest == None
    {
      this.hall := hall;
      var distribute := AnyLit(hall);
      shouldDistributeHallRequests, lastStateRequest := distribute, None;
      stateRequests := if distribute then 1 else 0;
      buffer := new MessageIDBuffer(bufferSize);
    }

    method OnElevatorEvent(c: ButtonEvent, complete: bool, now: nat) returns (published: HallCalls)
      requires Valid() && 0 <= c.floor < |hall|
      modifies this
      ensures Valid() && published == hall
      ensures View() == MasterStep(old(View()), if complete then LocalComplete(c) else HallButton(c))
      ensures shouldDistributeHallRequests <==> old(shouldDistributeHallRequests) || (!complete && c.button != Cab)
      ensures var ask := shouldDistributeHallRequests && Due(old(lastStateRequest), now);
        && stateRequests == old(stateRequests) + (if ask then 1 else 0)
        && lastStateRequest == if ask then Some(now) else old(lastStateRequest)
    {
      if c.button != Cab {
        hall := SetLit(hall, c, !complete);
        if !complete {
          shouldDistributeHallRequests := true;
        }
      }
      if shouldDistributeHallRequests && Due(lastStateRequest, now) {
        lastStateRequest := Some(now);
        stateRequests := stateRequests + 1;
      }
      published := hall;
    }

    /** An invalid request changes nothing but the flag, which it takes back. */
    method OnNewHallRequest(c: ButtonEvent, now: nat) returns (published: Option<HallCalls>)
      requires Valid() && 0 <= c.floor < |hall|
      modifies this
      ensures Valid() && View() == MasterStep(old(View()), NewHallRequest(c))
      ensures published == if c.button == Cab then None else Some(hall)
      ensures shouldDistributeHallRequests <==> c.button != Cab
      ensures var ask := c.button != Cab && Due(old(lastStateRequest), now);
        && stateRequests == old(stateRequests) + (if ask then 1 else 0)
        && lastStateRequest == if ask then Some(now) else old(lastStateRequest)
    {
      var updated, valid := ProcessNewHallRequest(hall, c);
      SameLights(updated, SetHall(hall, c, true));
      shouldDistributeHallRequests := valid;
      if !valid {
        return None;
      }
      hall := updated;
      published := Some(hall);
      if Due(lastStateRequest, now) {
        lastStateRequest := Some(now);
        stateRequests := stateRequests + 1;
      }
    }

    method OnHallAssignmentComplete(ha: Completion) returns (published: Option<HallCalls>, ack: uint64)
      requires Valid() && 0 <= ha.call.floor < |hall|
      modifies this, buffer, buffer.messageIDs
      ensures Valid() && View() == MasterStep(old(View()), Completed(ha)) && ack == ha.id
      ensures published == if old(Holds(buffer.View(), ha.id)) then None else Some(hall)
      ensures shouldDistributeHallRequests == old(shouldDistributeHallRequests)
      ensures lastStateRequest == old(lastStateRequest) && stateRequests == old(stateRequests)
    {
      var updated, updateNeeded := ProcessHAComplete(hall, buffer, ha);
      hall := updated;
      published := if updateNeeded then Some(hall) else None;
      ack := ha.id;
    }
  }

  /** Hall matrices with the same lit calls are the same. */
  lemma SameLights(g: HallCalls, h: HallCalls)
    requires |g| == |h|
    requires forall d: ButtonEvent :: Lit(g, d) <==> Lit(h, d)
    ensures g == h
  {
    forall f | 0 <= f < |g|
      ensures g[f] == h[f]
    {
      assert Lit(g, ButtonEvent(f, HallUp)) == Lit(h, ButtonEvent(f, HallUp));
      assert Lit(g, ButtonEvent(f, HallDown)) == Lit(h, ButtonEvent(f, HallDown));
    }
  }

  // Whole sessions: a master starts with a fresh ring of n slots.

  ghost predicate LegalAll(floors: nat, evs: seq<MasterEvent>) {
    forall ev :: ev in evs ==> 0 <= CallOf(ev).floor < floors
  }

  ghost function After(h: HallCalls, n: nat, evs: seq<MasterEvent>): (m: MasterState)
    requires n >= 2 && LegalAll(|h|, evs)
    ensures |m.hall| == |h| && ValidRing(m.ring)
  {
    if evs == [] then MasterState(h, Fresh(n))
    else MasterStep(After(h, n, evs[..|evs| - 1]), evs[|evs| - 1])
  }

  predicate Applies(m: MasterState, ev: MasterEvent) {
    ev.Completed? && !Holds(m.ring, ev.ha.id)
  }

  /** The ids of the completions a session applied, in order. */
  ghost function Applied(h: HallCalls, n: nat, evs: seq<MasterEvent>): seq<uint64>
    requires n >= 2 && LegalAll(|h|, evs)
  {
    if evs == [] then []
    else
      Applied(h, n, evs[..|evs| - 1])
      + (if Applies(After(h, n, evs[..|evs| - 1]), evs[|evs| - 1]) then [evs[|evs| - 1].ha.id] else [])
  }

  /** Any n consecutive entries are pairwise distinct: two equal ones have at least n - 1 others in between. */
  ghost predicate Spaced(ids: seq<uint64>, n: nat) {
    forall i, j :: 0 <= i < j < |ids| && j - i < n ==> ids[i] != ids[j]
  }

  lemma SpacedStep(ids: seq<uint64>, id: uint64, n: nat)
    requires n >= 1 && Spaced(ids, n) && id !in Last(ids, n - 1)
    ensures Spaced(ids + [id], n)
  {}

  lemma {:induction false} SessionHistory(h: HallCalls, n: nat, evs: seq<MasterEvent>)
    requires n >= 2 && LegalAll(|h|, evs)
    ensures After(h, n, evs).ring == AddAll(Fresh(n), Applied(h, n, evs))
    ensures Spaced(Applied(h, n, evs), n) && 0 !in Applied(h, n, evs)
  {
    if evs != [] {
      var init, ev := evs[..|evs| - 1], evs[|evs| - 1];
      SessionHistory(h, n, init);
      var m, ids := After(h, n, init), Applied(h, n, init);
      if Applies(m, ev) {
        WindowIsExact(n, ids, ev.ha.id);
        SpacedStep(ids, ev.ha.id, n);
        AddOneMore(Fresh(n), ids, ev.ha.id);
        assert Applied(h, n, evs) == ids + [ev.ha.id];
      } else {
        assert Applied(h, n, evs) == ids;
      }
    }
  }

  lemma FreshCompletionShows(m: MasterState, ha: Completion)
    requires Legal(m, Completed(ha)) && !Holds(m.ring, ha.id)
    ensures Holds(MasterStep(m, Completed(ha)).ring, ha.id) && !Lit(MasterStep(m, Completed(ha)).hall, ha.call)
  {
    var i := if m.ring.index == |m.ring.slots| - 1 then 0 else m.ring.index;
    assert Added(m.ring, ha.id).slots[i] == ha.id;
  }

  /** Deduplication over a whole session: equal applied ids are at least n apart, with pairwise distinct ids in
      every window of n; a completion takes effect exactly when its id is not 0 and not among the last n - 1
      applied, and otherwise leaves the requests alone, also those pressed again since. */
  lemma DeduplicationWindow(h: HallCalls, n: nat, evs: seq<MasterEvent>, ha: Completion)
    requires n >= 2 && LegalAll(|h|, evs) && 0 <= ha.call.floor < |h|
    ensures Spaced(Applied(h, n, evs), n)
    ensures var m := After(h, n, evs);
      if ha.id != 0 && ha.id !in Last(Applied(h, n, evs), n - 1)
      then !Lit(MasterStep(m, Completed(ha)).hall, ha.call) && MasterStep(m, Completed(ha)) != m
      else MasterStep(m, Completed(ha)) == m
  {
    var m := After(h, n, evs);
    SessionHistory(h, n, evs);
    WindowIsExact(n, Applied(h, n, evs), ha.id);
    if !Holds(m.ring, ha.id) {
      FreshCompletionShows(m, ha);
    }
  }

  /** A hall request of a master goes out only by a completion for that very button: from its own elevator, or
      from a message it has not applied recently. It comes in exactly by a press of that button. */
  lemma BitFallsOnlyOnCompletion(m: MasterState, ev: MasterEvent, c: ButtonEvent)
    requires Legal(m, ev)
    ensures var t := MasterStep(m, ev);
      Lit(m.hall, c) && !Lit(t.hall, c) <==>
        Lit(m.hall, c) && (ev == LocalComplete(c) || (Applies(m, ev) && ev.ha.call == c))
    ensures var t := MasterStep(m, ev);
      !Lit(m.hall, c) && Lit(t.hall, c) <==>
        !Lit(m.hall, c) && c.button != Cab && (ev == HallButton(c) || ev == NewHallRequest(c))
  {}
}
