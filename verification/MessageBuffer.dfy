/** The master's ring of recently applied completion ids (node/master.go:14-44). */
module MessageBuffer {
  import opened MessageIds

  /** The last k elements of a sequence, or all of it. */
  function Last<T>(s: seq<T>, k: nat): seq<T> {
    if |s| <= k then s else s[|s| - k..]
  }

  /** The array and write position as values; an unwritten slot holds 0. */
  datatype Ring = Ring(slots: seq<uint64>, index: nat)

  function Fresh(n: nat): Ring {
    Ring(seq(n, _ => 0), 0)
  }

  predicate ValidRing(r: Ring) {
    |r.slots| >= 2 && r.index < |r.slots|
  }

  /** The write position wraps one slot early, so the last slot is never written. */
  function Added(r: Ring, id: uint64): (q: Ring)
    requires ValidRing(r)
    ensures ValidRing(q) && |q.slots| == |r.slots|
  {
    var i := if r.index == |r.slots| - 1 then 0 else r.index;
    Ring(r.slots[i := id], i + 1)
  }

  predicate Holds(r: Ring, id: uint64) {
    id in r.slots
  }

  /** The buffer of the master: an array written in place through a pointer. */
  class MessageIDBuffer {
    const messageIDs: array<uint64>
    const size: nat
    var index: nat

    ghost predicate Valid()
      reads this, messageIDs
    {
      messageIDs.Length == size && ValidRing(View())
    }

    ghost function View(): Ring
      reads this, messageIDs
    {
      Ring(messageIDs[..], index)
    }

    constructor (n: nat)
      requires n >= 2
      ensures Valid() && fresh(messageIDs) && size == n && View() == Fresh(n)
      ensures index == 0 && messageIDs.Length == n && forall i :: 0 <= i < n ==> messageIDs[i] == 0
    {
      messageIDs := new uint64[n](_ => 0);
      size, index := n, 0;
    }

    method Add(id: uint64)
      requires Valid()
      modifies this, messageIDs
      ensures Valid() && View() == Added(old(View()), id)
    {
      if index == size - 1 {
        index := 0;
      }
      messageIDs[index] := id;
      index := index + 1;
    }

    method Contains(id: uint64) returns (r: bool)
      requires Valid()
      ensures r == Holds(View(), id)
    {
      for i := 0 to size
        invariant id !in messageIDs[..i]
      {
        if messageIDs[i] == id {
          return true;
        }
      }
      assert messageIDs[..size] == messageIDs[..];
      return false;
    }
  }

  function AddAll(r: Ring, ids: seq<uint64>): (q: Ring)
    requires ValidRing(r)
    ensures ValidRing(q) && |q.slots| == |r.slots|
  {
    if ids == [] then r else Added(AddAll(r, ids[..|ids| - 1]), ids[|ids| - 1])
  }

  /** The layout after a history of additions, which starts out as n - 1 zeros: the slots before the write
      position hold the newest ids, those after it the ones before, and the last slot is still 0. */
  ghost predicate Layout(r: Ring, history: seq<uint64>) {
    && ValidRing(r)
    && var m := |r.slots| - 1;
    && |history| >= m
    && r.slots[..r.index] == history[|history| - r.index..]
    && r.slots[r.index..m] == history[|history| - m..|history| - r.index]
    && r.slots[m] == 0
  }

  lemma AddKeepsLayout(r: Ring, history: seq<uint64>, id: uint64)
    requires Layout(r, history)
    ensures Layout(Added(r, id), history + [id])
  {
    var m := |r.slots| - 1;
    var h := history + [id];
    var q := Added(r, id);
    if r.index == m {
      assert q.slots[1..m] == r.slots[..m][1..];
      assert h[|h| - m..|h| - 1] == history[|history| - m..][1..];
    } else {
      assert q.slots[..q.index] == r.slots[..r.index] + [id];
      assert h[|h| - q.index..] == history[|history| - r.index..] + [id];
      assert q.slots[q.index..m] == r.slots[r.index..m][1..];
      assert h[|h| - m..|h| - q.index] == history[|history| - m..|history| - r.index][1..];
    }
  }

  lemma FreshLayout(n: nat, zeros: seq<uint64>)
    requires n >= 2 && zeros == seq(n - 1, _ => 0)
    ensures Layout(Fresh(n), zeros)
  {}

  lemma AddOneMore(r: Ring, ids: seq<uint64>, id: uint64)
    requires ValidRing(r)
    ensures AddAll(r, ids + [id]) == Added(AddAll(r, ids), id)
  {}

  lemma {:induction false} AddAllLayout(r: Ring, history: seq<uint64>, ids: seq<uint64>)
    requires Layout(r, history)
    ensures Layout(AddAll(r, ids), history + ids)
  {
    if ids == [] {
      assert history + ids == history;
    } else {
      var init, id := ids[..|ids| - 1], ids[|ids| - 1];
      AddAllLayout(r, history, init);
      AddKeepsLayout(AddAll(r, init), history + init, id);
      AddOneMore(r, init, id);
      assert ids == init + [id] && history + ids == history + init + [id];
    }
  }

  lemma LayoutMembers(r: Ring, history: seq<uint64>, id: uint64)
    requires Layout(r, history)
    ensures Holds(r, id) <==> id == 0 || id in history[|history| - (|r.slots| - 1)..]
  {
    var m := |r.slots| - 1;
    SplitSlots(r.slots, r.index);
    SplitTail(history, m, r.index);
  }

  lemma SplitSlots(s: seq<uint64>, i: nat)
    requires i < |s|
    ensures s == s[..i] + s[i..|s| - 1] + [s[|s| - 1]]
  {}

  lemma SplitTail(h: seq<uint64>, m: nat, i: nat)
    requires i <= m <= |h|
    ensures h[|h| - m..] == h[|h| - m..|h| - i] + h[|h| - i..]
  {}

  lemma PaddedTail(zeros: seq<uint64>, ids: seq<uint64>)
    requires forall i :: 0 <= i < |zeros| ==> zeros[i] == 0
    ensures (zeros + ids)[|ids|..] == (if |ids| >= |zeros| then [] else zeros[|ids|..]) + Last(ids, |zeros|)
  {}

  lemma WindowOfLayout(r: Ring, zeros: seq<uint64>, ids: seq<uint64>, id: uint64)
    requires Layout(r, zeros + ids) && |zeros| == |r.slots| - 1
    requires forall i :: 0 <= i < |zeros| ==> zeros[i] == 0
    ensures Holds(r, id) <==> id == 0 || id in Last(ids, |zeros|)
  {
    LayoutMembers(r, zeros + ids, id);
    PaddedTail(zeros, ids);
    assert |zeros + ids| - |zeros| == |ids|;
  }

  /** The window is exact: after any additions to a buffer of n slots an id is found exactly when it is 0 or one
      of the last n - 1 ids added. */
  lemma WindowIsExact(n: nat, ids: seq<uint64>, id: uint64)
    requires n >= 2
    ensures Holds(AddAll(Fresh(n), ids), id) <==> id == 0 || id in Last(ids, n - 1)
  {
    FreshLayout(n, seq(n - 1, _ => 0));
    AddAllLayout(Fresh(n), seq(n - 1, _ => 0), ids);
    WindowOfLayout(AddAll(Fresh(n), ids), seq(n - 1, _ => 0), ids, id);
  }

  /** One id fewer than the ring has slots: an id is still found after n - 2 other ids, but not after n - 1. */
  lemma OneFewerThanSlots(n: nat, before: seq<uint64>, id: uint64, others: seq<uint64>)
    requires n >= 2 && id != 0 && |others| == n - 1 && id !in others
    ensures Holds(AddAll(Fresh(n), before + [id] + others[..n - 2]), id)
    ensures !Holds(AddAll(Fresh(n), before + [id] + others), id)
  {
    var enough, tooMany := before + [id] + others[..n - 2], before + [id] + others;
    WindowIsExact(n, enough, id);
    WindowIsExact(n, tooMany, id);
    assert Last(enough, n - 1) == [id] + others[..n - 2] && Last(tooMany, n - 1) == others;
    assert ([id] + others[..n - 2])[0] == id;
  }
}
