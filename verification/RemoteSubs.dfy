/** The remote subscription index: which nodes want which filters
    (internal/cluster/remote_subs.go, gossip_broadcast.go). */
module RemoteSubs {
  import opened ByteStrings
  import opened Topics
  import opened BestMatch
  import opened Subscriptions

  type Subs = map<Bytes, map<Bytes, Byte>>

  // ----- Steps on the relation (node, filter) -> QoS -----

  datatype Event = Sub(node: Bytes, filter: Bytes, qos: Byte) | Unsub(node: Bytes, filter: Bytes) | NodeLeft(node: Bytes)

  /** Adding keeps the higher QoS. */
  function Raised(rel: Relation, n: Bytes, f: Bytes, qos: Byte): Relation {
    if (n, f) !in rel || qos > rel[(n, f)] then rel[(n, f) := qos] else rel
  }

  function Step(rel: Relation, e: Event): Relation {
    match e
    case Sub(n, f, q) => Raised(rel, n, f, q)
    case Unsub(n, f) => rel - {(n, f)}
    case NodeLeft(n) => Without(rel, n)
  }

  function Run(es: seq<Event>): Relation {
    if es == [] then map[] else Step(Run(es[..|es| - 1]), es[|es| - 1])
  }

  // ----- What an entry remembers -----

  predicate Removes(e: Event, n: Bytes, f: Bytes) {
    (e.Unsub? && e.node == n && e.filter == f) || (e.NodeLeft? && e.node == n)
  }

  /** The i-th event subscribed this pair and nothing removed it since. */
  ghost predicate Standing(es: seq<Event>, i: nat, n: Bytes, f: Bytes) {
    && i < |es| && es[i].Sub? && es[i].node == n && es[i].filter == f
    && forall k :: i < k < |es| ==> !Removes(es[k], n, f)
  }

  /** `q` is the highest QoS subscribed since the pair's last removal. */
  ghost predicate HighestSince(es: seq<Event>, n: Bytes, f: Bytes, q: Byte) {
    && (exists i: nat :: Standing(es, i, n, f) && es[i].qos == q)
    && (forall i: nat :: Standing(es, i, n, f) ==> es[i].qos <= q)
  }

  lemma StandingFront(es: seq<Event>, i: nat, n: Bytes, f: Bytes)
    requires i + 1 < |es|
    ensures Standing(es, i, n, f) <==> Standing(es[..|es| - 1], i, n, f) && !Removes(es[|es| - 1], n, f)
  {
    var front := es[..|es| - 1];
    assert forall k :: 0 <= k < |front| ==> front[k] == es[k];
  }

  /** After any history of subscriptions, unsubscriptions and departures, a pair is in
      the index exactly if it was subscribed since its last removal, at the highest QoS
      subscribed since then. */
  lemma {:induction false} EntryIsHighestSince(es: seq<Event>, n: Bytes, f: Bytes, q: Byte)
    ensures (n, f) in Run(es) && Run(es)[(n, f)] == q <==> HighestSince(es, n, f, q)
    decreases |es|
  {
    if es != [] {
      var last := |es| - 1;
      var front, e := es[..last], es[last];
      var before := Run(front);
      forall i: nat | i < last
        ensures Standing(es, i, n, f) <==> Standing(front, i, n, f) && !Removes(e, n, f)
      {
        StandingFront(es, i, n, f);
      }
      if Removes(e, n, f) {
      } else if e.Sub? && e.node == n && e.filter == f {
        assert Standing(es, last, n, f);
        EntryAfterSub(es, n, f, q);
      } else {
        EntryIsHighestSince(front, n, f, q);
        SameStanding(es, n, f, q);
      }
    }
  }

  lemma SameStanding(es: seq<Event>, n: Bytes, f: Bytes, q: Byte)
    requires es != []
    requires var e := es[|es| - 1]; !Removes(e, n, f) && !(e.Sub? && e.node == n && e.filter == f)
    ensures HighestSince(es, n, f, q) <==> HighestSince(es[..|es| - 1], n, f, q)
  {
    var front := es[..|es| - 1];
    forall i: nat ensures Standing(es, i, n, f) <==> Standing(front, i, n, f) {
      if i + 1 < |es| { StandingFront(es, i, n, f); }
    }
  }

  lemma {:induction false} EntryAfterSub(es: seq<Event>, n: Bytes, f: Bytes, q: Byte)
    requires es != []
    requires var e := es[|es| - 1]; e.Sub? && e.node == n && e.filter == f
    ensures (n, f) in Run(es) && Run(es)[(n, f)] == q <==> HighestSince(es, n, f, q)
    decreases |es|, 0
  {
    var last := |es| - 1;
    var front, e := es[..last], es[last];
    var before := Run(front);
    forall i: nat | i < last ensures Standing(es, i, n, f) <==> Standing(front, i, n, f) {
      StandingFront(es, i, n, f);
    }
    assert Standing(es, last, n, f);
    if (n, f) in before {
      var old_ := before[(n, f)];
      EntryIsHighestSince(front, n, f, old_);
      var j: nat :| Standing(front, j, n, f) && front[j].qos == old_;
      assert Standing(es, j, n, f);
      forall i: nat | Standing(es, i, n, f) ensures es[i].qos <= old_ || i == last {
        if i < last { assert front[i].qos <= old_; }
      }
    } else {
      NotStanding(front, n, f);
    }
  }

  /** A pair that is absent has no standing subscription. */
  lemma {:induction false} NotStanding(es: seq<Event>, n: Bytes, f: Bytes)
    requires (n, f) !in Run(es)
    ensures forall i: nat :: !Standing(es, i, n, f)
    decreases |es|
  {
    if es != [] {
      var front := es[..|es| - 1];
      forall i: nat ensures !Standing(es, i, n, f) {
        if i + 1 < |es| {
          StandingFront(es, i, n, f);
          if (n, f) !in Run(front) { NotStanding(front, n, f); }
        }
      }
    }
  }

  // ----- The two maps -----

  ghost predicate SubSide(subs: Subs, rel: Relation) {
    && (forall f :: f in subs ==> subs[f] != map[])
    && (forall f, n :: f in subs && n in subs[f] ==> (n, f) in rel && rel[(n, f)] == subs[f][n])
    && (forall p :: p in rel ==> p.1 in subs && p.0 in subs[p.1])
  }

  function NodesOn(subs: Subs, f: Bytes): map<Bytes, Byte> { if f in subs then subs[f] else map[] }

  function Put(subs: Subs, f: Bytes, nodeMap: map<Bytes, Byte>): Subs {
    if nodeMap == map[] then subs - {f} else subs[f := nodeMap]
  }

  lemma PutRaised(subs: Subs, rel: Relation, n: Bytes, f: Bytes, qos: Byte)
    requires SubSide(subs, rel)
    ensures SubSide(subs[f := Better(NodesOn(subs, f), n, qos)], Raised(rel, n, f, qos))
  {
    var best := Better(NodesOn(subs, f), n, qos);
    assert n in best;
    assert (n, f) in rel <==> n in NodesOn(subs, f);
  }

  lemma PutRemoved(subs: Subs, rel: Relation, n: Bytes, f: Bytes)
    requires SubSide(subs, rel)
    ensures SubSide(Put(subs, f, NodesOn(subs, f) - {n}), rel - {(n, f)})
  {
    var left := NodesOn(subs, f) - {n};
    var after := Put(subs, f, left);
    forall p | p in rel - {(n, f)} ensures p.1 in after && p.0 in after[p.1] {
      if p.1 == f { assert p.0 in left; }
    }
  }

  lemma PutAbsent(subs: Subs, f: Bytes, n: Bytes)
    ensures f !in subs ==> Put(subs, f, NodesOn(subs, f) - {n}) == subs
  {
    if f !in subs { assert NodesOn(subs, f) - {n} == NodesOn(subs, f); }
  }

  lemma RaisedClients(nodes: Clients, rel: Relation, n: Bytes, f: Bytes, qos: Byte)
    requires ClientSide(nodes, rel)
    ensures ClientSide(WithFilter(nodes, n, f), Raised(rel, n, f, qos))
  {
    ClientAdd(nodes, rel, n, f, qos);
    if Raised(rel, n, f, qos) == rel {
      assert (n, f) in rel;
      assert rel[(n, f) := rel[(n, f)]] == rel;
      ClientAdd(nodes, rel, n, f, rel[(n, f)]);
    }
  }

  lemma SubKeys(subs: Subs, rel: Relation)
    requires SubSide(subs, rel)
    ensures forall p :: p in rel ==> p.1 in subs
  {
  }

  lemma SubPair(subs: Subs, rel: Relation, f: Bytes, n: Bytes)
    requires SubSide(subs, rel) && f in subs
    ensures n in subs[f] <==> (n, f) in rel
    ensures n in subs[f] ==> rel[(n, f)] == subs[f][n]
  {
  }

  // ----- As the source runs -----

  class RemoteSubIndex {
    var subs: Subs
    var nodes: Clients
    ghost var rel: Relation

    ghost predicate Valid()
      reads this
    {
      SubSide(subs, rel) && ClientSide(nodes, rel)
    }

    constructor ()
      ensures Valid() && rel == Run([])
    {
      subs, nodes, rel := map[], map[], map[];
    }

    method Add(nodeID: Bytes, filter: Bytes, qos: Byte)
      requires Valid()
      modifies this
      ensures Valid() && rel == Step(old(rel), Sub(nodeID, filter, qos))
    {
      hide SubSide, ClientSide, Raised;
      PutRaised(subs, rel, nodeID, filter, qos);
      RaisedClients(nodes, rel, nodeID, filter, qos);
      rel := Raised(rel, nodeID, filter, qos);
      var nodeMap: map<Bytes, Byte> := NodesOn(subs, filter);
      if nodeID !in nodeMap || qos > nodeMap[nodeID] {
        nodeMap := nodeMap[nodeID := qos];
      }
      subs := subs[filter := nodeMap];
      if nodeID !in nodes {
        nodes := nodes[nodeID := {}];
      }
      nodes := nodes[nodeID := nodes[nodeID] + {filter}];
      assert nodes == WithFilter(old(nodes), nodeID, filter);
    }

    /** Delete one node from one filter's map, and the map when it is empty. */
    method RemoveEntry(nodeID: Bytes, filter: Bytes)
      requires SubSide(subs, rel)
      modifies this`subs, this`rel
      ensures SubSide(subs, rel) && rel == old(rel) - {(nodeID, filter)}
    {
      hide SubSide;
      PutRemoved(subs, rel, nodeID, filter);
      rel := rel - {(nodeID, filter)};
      PutAbsent(subs, filter, nodeID);
      if filter in subs {
        var nodeMap := subs[filter] - {nodeID};
        subs := if nodeMap == map[] then subs - {filter} else subs[filter := nodeMap];
      }
    }

    method Remove(nodeID: Bytes, filter: Bytes)
      requires Valid()
      modifies this
      ensures Valid() && rel == Step(old(rel), Unsub(nodeID, filter))
    {
      hide SubSide, ClientSide;
      ClientRemove(nodes, rel, nodeID, filter);
      RemoveEntry(nodeID, filter);
      if nodeID in nodes {
        var mine := nodes[nodeID] - {filter};
        nodes := if mine == {} then nodes - {nodeID} else nodes[nodeID := mine];
      }
    }

    method RemoveNode(nodeID: Bytes)
      requires Valid()
      modifies this
      ensures Valid() && rel == Step(old(rel), NodeLeft(nodeID))
    {
      hide SubSide, ClientSide, Minus, Without;
      ClientRemoveAll(nodes, rel, nodeID);
      if nodeID !in nodes {
        return;
      }
      var todo := nodes[nodeID];
      ghost var done: set<Bytes> := {};
      MinusStep(rel, nodeID, done, []);
      while todo != {}
        invariant SubSide(subs, rel) && nodes == old(nodes)
        invariant done + todo == nodes[nodeID] && rel == Minus(old(rel), nodeID, done)
        decreases |todo|
      {
        var filter :| filter in todo;
        MinusStep(old(rel), nodeID, done, filter);
        todo := todo - {filter};
        done := done + {filter};
        RemoveEntry(nodeID, filter);
      }
      assert done == nodes[nodeID];
      nodes := nodes - {nodeID};
    }

    method Match(topic: Bytes) returns (result: seq<Match>)
      requires Valid()
      ensures Answers(result, rel, topic)
    {
      hide SubSide, ClientSide, Bests, TopicMatch;
      var best: map<Bytes, Byte> := map[];
      ghost var seen: set<(Bytes, Bytes)> := {};
      NothingSeen(rel);
      SubKeys(subs, rel);
      var todo := subs.Keys;
      while todo != {}
        invariant todo <= subs.Keys && Bests(best, rel, seen)
        invariant forall p :: p in seen <==> p in rel && p.1 !in todo && TopicMatch(p.1, topic)
        decreases |todo|
      {
        var filter :| filter in todo;
        todo := todo - {filter};
        var matches := MatchTopic(filter, topic);
        if matches {
          best, seen := Accumulate(filter, best, seen);
        }
      }
      assert seen == Matching(rel, topic);
      result := ListBest(best, rel, topic);
    }

    /** The inner loop of Match over one matching filter's nodes. */
    method Accumulate(filter: Bytes, start: map<Bytes, Byte>, ghost before: set<(Bytes, Bytes)>)
      returns (best: map<Bytes, Byte>, ghost seen: set<(Bytes, Bytes)>)
      requires Valid() && filter in subs && Bests(start, rel, before)
      ensures Bests(best, rel, seen)
      ensures forall p :: p in seen <==> p in before || (p in rel && p.1 == filter)
    {
      hide SubSide, ClientSide, Bests, Better;
      best, seen := start, before;
      var todo := subs[filter].Keys;
      forall n ensures n in todo <==> (n, filter) in rel { SubPair(subs, rel, filter, n); }
      while todo != {}
        invariant todo <= subs[filter].Keys && Bests(best, rel, seen)
        invariant forall p :: p in seen <==> p in before || (p in rel && p.1 == filter && p.0 !in todo)
        decreases |todo|
      {
        var n :| n in todo;
        todo := todo - {n};
        SubPair(subs, rel, filter, n);
        BestStep(best, rel, seen, n, filter);
        best := Better(best, n, subs[filter][n]);
        seen := seen + {(n, filter)};
      }
    }
  }
}
