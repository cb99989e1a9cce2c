/** Electing a master among disconnected nodes (node/disconnected.go). A time of last connection is a natural
    number; 0 is the zero time of a node that has not been connected yet. */
module Election {

  datatype ConnReq = ConnReq(tolc: nat, node: int)

  /** A node that was never connected wins against lower ids that were never connected; one that was wins unless
      another was connected later. */
  predicate Wins(me: int, tolc: nat, reqs: map<int, ConnReq>) {
    if tolc == 0 then forall id :: id in reqs ==> id <= me && reqs[id].tolc == 0
    else forall id :: id in reqs ==> reqs[id].tolc <= tolc
  }

  /** The scan visits the requests in any order. */
  method ShouldBeMaster(me: int, tolc: nat, reqs: map<int, ConnReq>) returns (r: bool)
    ensures r == Wins(me, tolc, reqs)
  {
    var keys := reqs.Keys;
    if tolc == 0 {
      while exists id :: id in keys
        invariant keys <= reqs.Keys
        invariant forall id :: id in reqs && id !in keys ==> id <= me && reqs[id].tolc == 0
        decreases |keys|
      {
        var id :| id in keys;
        if id > me || reqs[id].tolc != 0 {
          return false;
        }
        keys := keys - {id};
      }
      return true;
    }
    while exists id :: id in keys
      invariant keys <= reqs.Keys
      invariant forall id :: id in reqs && id !in keys ==> reqs[id].tolc <= tolc
      decreases |keys|
    {
      var id :| id in keys;
      if tolc < reqs[id].tolc {
        return false;
      }
      keys := keys - {id};
    }
    return true;
  }

  /** The requests a node holds after some arrivals: the last one of every other node. */
  function Collected(me: int, arrivals: seq<ConnReq>): map<int, ConnReq> {
    if arrivals == [] then map[]
    else
      var before, req := Collected(me, arrivals[..|arrivals| - 1]), arrivals[|arrivals| - 1];
      if req.node != me then before[req.node := req] else before
  }

  /** Whatever the nodes send, also different times at different moments: what is held of another node is the last
      request that came from it, and of oneself nothing. */
  lemma {:induction false} CollectedIsLast(me: int, arrivals: seq<ConnReq>, i: nat)
    requires i < |arrivals| && forall j :: i < j < |arrivals| ==> arrivals[j].node != arrivals[i].node
    ensures me !in Collected(me, arrivals)
    ensures arrivals[i].node != me ==>
      arrivals[i].node in Collected(me, arrivals) && Collected(me, arrivals)[arrivals[i].node] == arrivals[i]
  {
    var init := arrivals[..|arrivals| - 1];
    if i < |init| {
      CollectedIsLast(me, init, i);
    } else {
      NotOneself(me, init);
    }
  }

  lemma {:induction false} NotOneself(me: int, arrivals: seq<ConnReq>)
    ensures me !in Collected(me, arrivals)
  {
    if arrivals != [] {
      NotOneself(me, arrivals[..|arrivals| - 1]);
    }
  }

  class DisconnectedNode {
    const id: int
    const tolc: nat
    var incomingConnRequests: map<int, ConnReq>
    ghost var arrivals: seq<ConnReq>

    ghost predicate Valid()
      reads this
    {
      incomingConnRequests == Collected(id, arrivals)
    }

    constructor (id: int, tolc: nat)
      ensures Valid() && this.id == id && this.tolc == tolc && arrivals == []
    {
      this.id, this.tolc, incomingConnRequests, arrivals := id, tolc, map[], [];
    }

    method OnConnectionReq(req: ConnReq)
      requires Valid()
      modifies this
      ensures Valid() && arrivals == old(arrivals) + [req]
    {
      if id != req.node {
        incomingConnRequests := incomingConnRequests[req.node := req];
      }
      arrivals := arrivals + [req];
    }

    /** The decision timer: become master only with at least one request at hand. */
    method OnDecisionTimer() returns (becomeMaster: bool)
      requires Valid()
      ensures becomeMaster <==> Collected(id, arrivals) != map[] && Wins(id, tolc, Collected(id, arrivals))
    {
      if |incomingConnRequests| != 0 {
        becomeMaster := ShouldBeMaster(id, tolc, incomingConnRequests);
      } else {
        becomeMaster := false;
      }
    }
  }

  /** What node `me` sees when it has heard of every other node: ids are distinct, times are as each node has them. */
  function FullView(nodes: map<int, nat>, me: int): map<int, ConnReq> {
    map id | id in nodes && id != me :: ConnReq(nodes[id], id)
  }

  predicate Honest(nodes: map<int, nat>, req: ConnReq) {
    req.node in nodes && req.tolc == nodes[req.node]
  }

  lemma {:induction false} CollectedIsHonest(nodes: map<int, nat>, me: int, arrivals: seq<ConnReq>)
    requires forall req :: req in arrivals ==> Honest(nodes, req)
    ensures forall id :: id in Collected(me, arrivals) <==> id != me && exists req :: req in arrivals && req.node == id
    ensures forall id :: id in Collected(me, arrivals) ==>
      id in nodes && Collected(me, arrivals)[id] == ConnReq(nodes[id], id)
  {
    if arrivals != [] {
      var init, last := arrivals[..|arrivals| - 1], arrivals[|arrivals| - 1];
      assert arrivals == init + [last];
      CollectedIsHonest(nodes, me, init);
      assert last in arrivals && Honest(nodes, last);
    }
  }

  /** However often and in whatever order the requests arrive, a node that has heard of every other one decides the
      same. */
  lemma ArrivalOrderDoesNotMatter(nodes: map<int, nat>, me: int, arrivals: seq<ConnReq>)
    requires forall req :: req in arrivals ==> Honest(nodes, req)
    requires forall id :: id in nodes && id != me ==> ConnReq(nodes[id], id) in arrivals
    ensures Collected(me, arrivals) == FullView(nodes, me)
  {
    CollectedIsHonest(nodes, me, arrivals);
    var c := Collected(me, arrivals);
    forall id
      ensures id in c <==> id in FullView(nodes, me)
    {
      if id in nodes && id != me {
        assert ConnReq(nodes[id], id) in arrivals;
      }
    }
  }

  predicate Elected(nodes: map<int, nat>, me: int)
    requires me in nodes
  {
    Wins(me, nodes[me], FullView(nodes, me))
  }

  ghost predicate AllZero(nodes: map<int, nat>) {
    forall id :: id in nodes ==> nodes[id] == 0
  }

  /** One node was connected later than every other. */
  ghost predicate LatestIsUnique(nodes: map<int, nat>) {
    exists a :: a in nodes && forall b :: b in nodes && b != a ==> nodes[b] < nodes[a]
  }

  lemma {:induction false} GreatestId(ids: set<int>) returns (a: int)
    requires exists a :: a in ids
    ensures a in ids && forall b :: b in ids ==> b <= a
    decreases |ids|
  {
    a :| a in ids;
    assert forall b :: b in ids <==> b == a || b in ids - {a};
    if exists b :: b in ids - {a} {
      var b := GreatestId(ids - {a});
      a := if b > a then b else a;
    }
  }

  lemma {:induction false} LatestNode(nodes: map<int, nat>, ids: set<int>) returns (a: int)
    requires ids <= nodes.Keys && exists a :: a in ids
    ensures a in ids && forall b :: b in ids ==> nodes[b] <= nodes[a]
    decreases |ids|
  {
    a :| a in ids;
    assert forall b :: b in ids <==> b == a || b in ids - {a};
    if exists b :: b in ids - {a} {
      var b := LatestNode(nodes, ids - {a});
      a := if nodes[b] > nodes[a] then b else a;
    }
  }

  /** With full views, the elected are the greatest id if no node was ever connected, and otherwise exactly the
      nodes connected last. */
  lemma ElectedAre(nodes: map<int, nat>, a: int)
    requires a in nodes
    ensures AllZero(nodes) ==> (Elected(nodes, a) <==> forall b :: b in nodes ==> b <= a)
    ensures !AllZero(nodes) ==> (Elected(nodes, a) <==> forall b :: b in nodes ==> nodes[b] <= nodes[a])
  {
    var view := FullView(nodes, a);
    assert forall b :: b in nodes && b != a ==> b in view && view[b].tolc == nodes[b];
  }

  ghost predicate OneElected(nodes: map<int, nat>) {
    exists a {:trigger Elected(nodes, a)} :: a in nodes && Elected(nodes, a)
      && forall b {:trigger Elected(nodes, b)} :: b in nodes && Elected(nodes, b) ==> b == a
  }

  /** With full views at least one node of a non-empty set is elected. */
  lemma SomeoneIsElected(nodes: map<int, nat>)
    requires exists a :: a in nodes
    ensures exists a {:trigger Elected(nodes, a)} :: a in nodes && Elected(nodes, a)
  {
    var a: int;
    if AllZero(nodes) {
      a := GreatestId(nodes.Keys);
    } else {
      a := LatestNode(nodes, nodes.Keys);
    }
    ElectedAre(nodes, a);
  }

  /** With full views of at least two nodes exactly one is elected if and only if none was ever connected or one was
      connected later than all others: equal non-zero times are not told apart. */
  lemma ExactlyOneElected(nodes: map<int, nat>)
    requires exists a, b :: a in nodes && b in nodes && a != b
    ensures OneElected(nodes) <==> AllZero(nodes) || LatestIsUnique(nodes)
  {
    forall a | a in nodes
      ensures AllZero(nodes) ==> (Elected(nodes, a) <==> forall b :: b in nodes ==> b <= a)
      ensures !AllZero(nodes) ==> (Elected(nodes, a) <==> forall b :: b in nodes ==> nodes[b] <= nodes[a])
    {
      ElectedAre(nodes, a);
    }
    if AllZero(nodes) {
      var a := GreatestId(nodes.Keys);
      assert Elected(nodes, a);
    } else {
      var a := LatestNode(nodes, nodes.Keys);
      assert Elected(nodes, a);
      if LatestIsUnique(nodes) {
        var u :| u in nodes && forall b :: b in nodes && b != u ==> nodes[b] < nodes[u];
        assert Elected(nodes, u);
      } else {
        var b :| b in nodes && b != a && nodes[b] >= nodes[a];
        assert Elected(nodes, b);
      }
    }
  }

  /** Two nodes with the same non-zero time are both elected. */
  lemma EqualTimesElectTwo(a: int, b: int, t: nat)
    requires a != b && t > 0
    ensures Elected(map[a := t, b := t], a) && Elected(map[a := t, b := t], b)
  {}

  /** With any partial views, two nodes that hold each other's requests are not both elected, unless they carry the
      same non-zero time. */
  lemma RivalsShareTime(a: int, ta: nat, viewA: map<int, ConnReq>, b: int, tb: nat, viewB: map<int, ConnReq>)
    requires a != b && b in viewA && viewA[b] == ConnReq(tb, b) && a in viewB && viewB[a] == ConnReq(ta, a)
    requires Wins(a, ta, viewA) && Wins(b, tb, viewB)
    ensures ta == tb != 0
  {}
}
