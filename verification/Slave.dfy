/** A slave session (node/slave.go): it applies hall assignments it has not just applied, acks every one it can
    accept, and keeps a copy of the master's global hall requests. */
module Slave {
  import opened Elevators
  import opened MessageIds
  import opened Transmitters
  import opened Wrappers

  /** What a slave forwards to its elevator for an assignment: the ordered calls and the lights. */
  datatype HallOrder = HallOrder(calls: HallCalls, lights: HallCalls)

  datatype SlaveState = SlaveState(
    me: int, lastId: uint64, hall: HallCalls, applied: seq<Assignment>, orders: seq<HallOrder>)

  datatype SlaveEvent = GotAssignment(a: Assignment) | GotGlobal(h: HallCalls)

  function SlaveStart(me: int, hall: HallCalls): SlaveState {
    SlaveState(me, 0, hall, [], [])
  }

  ghost predicate Within(calls: HallCalls, lit: HallCalls) {
    forall c: ButtonEvent :: Lit(calls, c) ==> Lit(lit, c)
  }

  ghost predicate Accepts(s: SlaveState, a: Assignment) {
    a.node == s.me && Within(a.hall, s.hall)
  }

  ghost function SlaveStep(s: SlaveState, ev: SlaveEvent): SlaveState {
    match ev
    case GotAssignment(a) =>
      if !Accepts(s, a) || s.lastId == a.id then s
      else s.(lastId := a.id, applied := s.applied + [a], orders := s.orders + [HallOrder(a.hall, s.hall)])
    case GotGlobal(h) => s.(hall := h)
  }

  method CanAcceptHallAssignments(newHallAssignments: HallCalls, globalHallReq: HallCalls) returns (r: bool)
    requires |newHallAssignments| == |globalHallReq|
    ensures r <==> forall c: ButtonEvent :: Lit(newHallAssignments, c) ==> Lit(globalHallReq, c)
  {
    for floor := 0 to |globalHallReq|
      invariant forall c: ButtonEvent :: c.floor < floor && Lit(newHallAssignments, c) ==> Lit(globalHallReq, c)
    {
      if newHallAssignments[floor].down && !globalHallReq[floor].down {
        var c := ButtonEvent(floor, HallDown);
        assert Lit(newHallAssignments, c) && !Lit(globalHallReq, c);
        return false;
      }
      if newHallAssignments[floor].up && !globalHallReq[floor].up {
        var c := ButtonEvent(floor, HallUp);
        assert Lit(newHallAssignments, c) && !Lit(globalHallReq, c);
        return false;
      }
    }
    return true;
  }

  method HasChanged(newGlobalHallReq: HallCalls, oldGlobalHallReq: HallCalls) returns (r: bool)
    requires |newGlobalHallReq| == |oldGlobalHallReq|
    ensures r <==> newGlobalHallReq != oldGlobalHallReq
  {
    for floor := 0 to |oldGlobalHallReq|
      invariant newGlobalHallReq[..floor] == oldGlobalHallReq[..floor]
    {
      if oldGlobalHallReq[floor].down != newGlobalHallReq[floor].down {
        return true;
      }
      if oldGlobalHallReq[floor].up != newGlobalHallReq[floor].up {
        return true;
      }
      assert newGlobalHallReq[floor] == oldGlobalHallReq[floor];
    }
    assert newGlobalHallReq[..|oldGlobalHallReq|] == newGlobalHallReq;
    assert oldGlobalHallReq[..|oldGlobalHallReq|] == oldGlobalHallReq;
    return false;
  }

  class SlaveNode {
    const id: int
    var lastHallAssignmentMessageID: uint64
    var globalHallRequests: HallCalls
    var tolc: nat
    var masterTimerArmed: bool
    ghost var applied: seq<Assignment>
    var orders: seq<HallOrder>

    ghost function View(): SlaveState
      reads this
    {
      SlaveState(id, lastHallAssignmentMessageID, globalHallRequests, applied, orders)
    }

    constructor (id: int, hall: HallCalls, tolc: nat)
      ensures View() == SlaveStart(id, hall)
      ensures this.tolc == tolc && !masterTimerArmed
    {
      this.id, lastHallAssignmentMessageID, globalHallRequests := id, 0, hall;
      this.tolc, masterTimerArmed := tolc, false;
      applied, orders := [], [];
    }

    /** Returns the ack the slave sends, if it does. */
    method OnHallAssignments(newHA: Assignment) returns (ack: Option<uint64>)
      requires |newHA.hall| == |globalHallRequests|
      modifies this
      ensures View() == SlaveStep(old(View()), GotAssignment(newHA))
      ensures ack == if Accepts(old(View()), newHA) then Some(newHA.id) else None
      ensures tolc == old(tolc) && masterTimerArmed == old(masterTimerArmed)
    {
      var acceptable := CanAcceptHallAssignments(newHA.hall, globalHallRequests);
      if newHA.node != id || !acceptable {
        return None;
      }
      ack := Some(newHA.id);
      if lastHallAssignmentMessageID != newHA.id {
        orders := orders + [HallOrder(newHA.hall, globalHallRequests)];
        applied := applied + [newHA];
        lastHallAssignmentMessageID := newHA.id;
      }
    }

    /** Returns the lights sent to the elevator, if they changed. Hearing the master sets the time of last connection
        and arms the timer that gives the master up. */
    method OnGlobalHallRequest(h: HallCalls, now: nat) returns (lights: Option<HallCalls>)
      requires |h| == |globalHallRequests|
      modifies this
      ensures View() == SlaveStep(old(View()), GotGlobal(h))
      ensures lights == if h != old(globalHallRequests) then Some(h) else None
      ensures tolc == now && masterTimerArmed
    {
      lights := None;
      tolc := now;
      var changed := HasChanged(h, globalHallRequests);
      if changed {
        globalHallRequests := h;
        lights := Some(h);
      }
      masterTimerArmed := true;
    }
  }

  ghost function SlaveAfter(s: SlaveState, evs: seq<SlaveEvent>): SlaveState
    decreases |evs|
  {
    if evs == [] then s else SlaveStep(SlaveAfter(s, evs[..|evs| - 1]), evs[|evs| - 1])
  }

  /** The last broadcast received, or the copy the session began with. */
  function LastGlobal(hall: HallCalls, evs: seq<SlaveEvent>): HallCalls
    decreases |evs|
  {
    if evs == [] then hall
    else if evs[|evs| - 1].GotGlobal? then evs[|evs| - 1].h
    else LastGlobal(hall, evs[..|evs| - 1])
  }

  ghost predicate Consistent(s: SlaveState, me: int, hall: HallCalls, evs: seq<SlaveEvent>) {
    && s.me == me
    && (forall o :: o in s.orders ==> Within(o.calls, o.lights) && (o.lights == hall || GotGlobal(o.lights) in evs))
    && s.hall == LastGlobal(hall, evs)
    && (s.hall == hall || GotGlobal(s.hall) in evs)
    && (forall a :: a in s.applied ==> a.node == me && GotAssignment(a) in evs)
  }

  lemma StepKeepsConsistent(s: SlaveState, me: int, hall: HallCalls, evs: seq<SlaveEvent>, ev: SlaveEvent)
    requires Consistent(s, me, hall, evs)
    ensures Consistent(SlaveStep(s, ev), me, hall, evs + [ev])
  {
    assert (evs + [ev])[..|evs|] == evs;
  }

  /** Every order a slave ever forwards assigns only calls lit in the copy it carries, and that copy is the one the
      session began with or one that was broadcast to it. The copy it holds is the last of these, and it applies only
      assignments it received for itself. */
  lemma {:induction false} OrdersAreConsistent(me: int, hall: HallCalls, evs: seq<SlaveEvent>)
    ensures Consistent(SlaveAfter(SlaveStart(me, hall), evs), me, hall, evs)
    decreases |evs|
  {
    if evs != [] {
      var init, last := evs[..|evs| - 1], evs[|evs| - 1];
      OrdersAreConsistent(me, hall, init);
      StepKeepsConsistent(SlaveAfter(SlaveStart(me, hall), init), me, hall, init, last);
      assert evs == init + [last];
    }
  }

  // What one remembered id achieves.

  /** The assignments a session accepts and acks, in order: those addressed here whose calls are lit in the copy held
      then. */
  ghost function Accepted(me: int, hall: HallCalls, evs: seq<SlaveEvent>): seq<Assignment>
    decreases |evs|
  {
    if evs == [] then []
    else
      var init, last := evs[..|evs| - 1], evs[|evs| - 1];
      Accepted(me, hall, init)
      + (if last.GotAssignment? && last.a.node == me && Within(last.a.hall, LastGlobal(hall, init))
         then [last.a] else [])
  }

  /** Leave out every message with the id of the one before it; prev is the id before the first. */
  function Dedup(prev: uint64, ms: seq<Assignment>): seq<Assignment>
    decreases |ms|
  {
    if ms == [] then []
    else (if ms[0].id == prev then [] else [ms[0]]) + Dedup(ms[0].id, ms[1..])
  }

  function LastId(prev: uint64, ms: seq<Assignment>): uint64 {
    if ms == [] then prev else ms[|ms| - 1].id
  }

  lemma {:induction false} DedupAppend(prev: uint64, ms: seq<Assignment>, m: Assignment)
    ensures Dedup(prev, ms + [m]) == Dedup(prev, ms) + (if m.id == LastId(prev, ms) then [] else [m])
    decreases |ms|
  {
    if ms == [] {
      assert ms + [m] == [m];
    } else {
      assert (ms + [m])[0] == ms[0] && (ms + [m])[1..] == ms[1..] + [m];
      DedupAppend(ms[0].id, ms[1..], m);
      var first, kept := if ms[0].id == prev then [] else [ms[0]], Dedup(ms[0].id, ms[1..]);
      Concat3(first, kept, if m.id == LastId(prev, ms) then [] else [m]);
    }
  }

  /** The state of a slave that has accepted ms since its start: all of them but the repeated ones are applied, one
      order forwarded for each. */
  ghost predicate Deduped(s: SlaveState, ms: seq<Assignment>) {
    && s.applied == Dedup(0, ms) && s.lastId == LastId(0, ms)
    && |s.orders| == |s.applied| && forall i :: 0 <= i < |s.orders| ==> s.orders[i].calls == s.applied[i].hall
  }

  lemma AcceptKeepsDeduped(s: SlaveState, ms: seq<Assignment>, a: Assignment)
    requires Deduped(s, ms) && Accepts(s, a)
    ensures Deduped(SlaveStep(s, GotAssignment(a)), ms + [a])
  {
    DedupAppend(0, ms, a);
  }

  /** Over a whole session a slave applies exactly what it accepts, less each message whose id is that of the accepted
      one just before it, or 0 at the start. */
  lemma {:induction false} AppliedIsDedup(me: int, hall: HallCalls, evs: seq<SlaveEvent>)
    ensures Deduped(SlaveAfter(SlaveStart(me, hall), evs), Accepted(me, hall, evs))
    decreases |evs|
  {
    if evs != [] {
      var init, last := evs[..|evs| - 1], evs[|evs| - 1];
      AppliedIsDedup(me, hall, init);
      OrdersAreConsistent(me, hall, init);
      var s, ms := SlaveAfter(SlaveStart(me, hall), init), Accepted(me, hall, init);
      if last.GotAssignment? && Accepts(s, last.a) {
        AcceptKeepsDeduped(s, ms, last.a);
      } else {
        assert ms + [] == ms;
      }
    }
  }

  /** Drop what a starting slave takes for seen. */
  function SkipZeros(ms: seq<Assignment>): seq<Assignment> {
    if ms != [] && ms[0].id == 0 then SkipZeros(ms[1..]) else ms
  }

  lemma {:induction false} DedupSkipsZeros(ms: seq<Assignment>)
    ensures Dedup(0, ms) == Dedup(0, SkipZeros(ms))
  {
    if ms != [] && ms[0].id == 0 {
      DedupSkipsZeros(ms[1..]);
    }
  }

  /** The places of the messages rise by at least gap each: 0 means in order, 1 in order and never twice. */
  ghost predicate Rising(rank: uint64 -> int, gap: nat, ms: seq<Assignment>) {
    forall i, j :: 0 <= i < j < |ms| ==> rank(ms[i].id) + gap <= rank(ms[j].id)
  }

  /** The messages carry generated ids, and these have different places. */
  ghost predicate Places(rank: uint64 -> int, ids: set<uint64>) {
    forall i, j :: i in ids && j in ids && rank(i) == rank(j) ==> i == j
  }

  ghost predicate IdsIn(ms: seq<Assignment>, ids: set<uint64>) {
    forall i :: 0 <= i < |ms| ==> ms[i].id in ids
  }

  /** The same, seen from a message at place r just before. */
  predicate Climbs(rank: uint64 -> int, gap: nat, r: int, ms: seq<Assignment>)
    decreases |ms|
  {
    ms == [] || (r + gap <= rank(ms[0].id) && Climbs(rank, gap, rank(ms[0].id), ms[1..]))
  }

  lemma {:induction false} RisingClimbs(rank: uint64 -> int, gap: nat, ms: seq<Assignment>)
    requires ms != []
    ensures Rising(rank, gap, ms) <==> Climbs(rank, gap, rank(ms[0].id), ms[1..])
  {
    if |ms| > 1 {
      var rest := ms[1..];
      RisingClimbs(rank, gap, rest);
      if Climbs(rank, gap, rank(ms[0].id), rest) {
        forall i, j | 0 <= i < j < |ms|
          ensures rank(ms[i].id) + gap <= rank(ms[j].id)
        {
          assert j > 1 ==> rank(rest[0].id) + gap <= rank(rest[j - 1].id);
          assert i > 0 ==> rank(rest[i - 1].id) + gap <= rank(rest[j - 1].id);
        }
      }
    }
  }

  lemma {:induction false} DedupClimbs(rank: uint64 -> int, ids: set<uint64>, prev: uint64, ms: seq<Assignment>)
    requires Places(rank, ids) && prev in ids && IdsIn(ms, ids)
    ensures Climbs(rank, 1, rank(prev), Dedup(prev, ms)) <==> Climbs(rank, 0, rank(prev), ms)
    decreases |ms|
  {
    if ms != [] {
      DedupClimbs(rank, ids, ms[0].id, ms[1..]);
      var kept := Dedup(prev, ms);
      if ms[0].id == prev {
        assert kept == Dedup(ms[0].id, ms[1..]);
      } else {
        assert kept[0] == ms[0] && kept[1..] == Dedup(ms[0].id, ms[1..]);
      }
    }
  }

  lemma {:induction false} SkipZerosStart(ms: seq<Assignment>)
    ensures SkipZeros(ms) != [] ==> SkipZeros(ms)[0].id != 0
    ensures (forall m :: m in ms ==> m.id != 0) ==> SkipZeros(ms) == ms
    ensures SkipZeros(ms) == [] <==> forall m :: m in ms ==> m.id == 0
  {
    if ms != [] && ms[0].id == 0 {
      SkipZerosStart(ms[1..]);
      assert forall m :: m in ms ==> m == ms[0] || m in ms[1..];
    }
  }

  /** Exactly when one remembered id is enough, over every session and whatever the order of generation: assignments
      are applied at most once each and in that order if and only if those accepted, from the first whose id is not 0
      on, come in that order, repeated as they may be. */
  lemma InOrderIffAcceptedInOrder(me: int, hall: HallCalls, evs: seq<SlaveEvent>, rank: uint64 -> int,
                                  ids: set<uint64>)
    requires Places(rank, ids) && IdsIn(Accepted(me, hall, evs), ids)
    ensures Rising(rank, 1, SlaveAfter(SlaveStart(me, hall), evs).applied)
      <==> Rising(rank, 0, SkipZeros(Accepted(me, hall, evs)))
  {
    AppliedIsDedup(me, hall, evs);
    var ms := SkipZeros(Accepted(me, hall, evs));
    DedupSkipsZeros(Accepted(me, hall, evs));
    SkipZerosStart(Accepted(me, hall, evs));
    if ms != [] {
      assert IdsIn(ms, ids) by { SkipZerosIds(Accepted(me, hall, evs), ids); }
      var kept := Dedup(0, ms);
      assert kept[0] == ms[0] && kept[1..] == Dedup(ms[0].id, ms[1..]);
      RisingClimbs(rank, 0, ms);
      RisingClimbs(rank, 1, kept);
      DedupClimbs(rank, ids, ms[0].id, ms[1..]);
    }
  }

  lemma {:induction false} SkipZerosIds(ms: seq<Assignment>, ids: set<uint64>)
    requires IdsIn(ms, ids)
    ensures IdsIn(SkipZeros(ms), ids)
  {
    if ms != [] && ms[0].id == 0 {
      SkipZerosIds(ms[1..], ids);
    }
  }

  /** Nothing is applied in a session if and only if no id but 0 is accepted. */
  lemma NothingAppliedIffOnlyZeros(me: int, hall: HallCalls, evs: seq<SlaveEvent>)
    ensures SlaveAfter(SlaveStart(me, hall), evs).applied == []
      <==> forall m :: m in Accepted(me, hall, evs) ==> m.id == 0
  {
    AppliedIsDedup(me, hall, evs);
    DedupSkipsZeros(Accepted(me, hall, evs));
    SkipZerosStart(Accepted(me, hall, evs));
  }
}
