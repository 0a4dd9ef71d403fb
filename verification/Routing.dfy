/** Routing a published message to local clients, offline queues and other nodes
    (routeMessage in internal/broker/broker.go, Forward in internal/cluster/cluster.go). */
module Routing {
  import opened ByteStrings
  import opened Topics
  import opened BestMatch
  import opened Subscriptions
  import opened RemoteSubs

  function Min(a: Byte, b: Byte): Byte { if b < a then b else a }

  /** What one call of `routeMessage` emits. */
  datatype Routed = Routed(online: seq<Match>, offline: seq<Match>, forwards: seq<Match>)

  /** The matches a test selects, capped at the publisher's QoS, in order. */
  function Served(matches: seq<Match>, qos: Byte, chosen: set<Bytes>): seq<Match> {
    if matches == [] then []
    else
      var m := matches[|matches| - 1];
      Served(matches[..|matches| - 1], qos, chosen) + if m.who in chosen then [Match(m.who, Min(qos, m.qos))] else []
  }

  lemma {:induction false} ServedExact(matches: seq<Match>, qos: Byte, chosen: set<Bytes>, who: Bytes, q: Byte)
    ensures Match(who, q) in Served(matches, qos, chosen) <==>
            who in chosen && exists b :: Match(who, b) in matches && q == Min(qos, b)
    decreases |matches|
  {
    if matches != [] {
      var n := |matches| - 1;
      ServedExact(matches[..n], qos, chosen, who, q);
      assert matches == matches[..n] + [matches[n]];
      assert Match(who, matches[n].qos) == matches[n] <==> who == matches[n].who;
    }
  }

  lemma {:induction false} ServedOnce(matches: seq<Match>, qos: Byte, chosen: set<Bytes>)
    requires Once(matches)
    ensures Once(Served(matches, qos, chosen))
    decreases |matches|
  {
    if matches != [] {
      var n := |matches| - 1;
      ServedOnce(matches[..n], qos, chosen);
      var front := Served(matches[..n], qos, chosen);
      forall i | 0 <= i < |front| ensures front[i].who != matches[n].who {
        var m := front[i];
        ServedExact(matches[..n], qos, chosen, m.who, m.qos);
        var b :| Match(m.who, b) in matches[..n];
      }
      assert Once(front);
      assert Served(matches, qos, chosen) ==
             front + if matches[n].who in chosen then [Match(matches[n].who, Min(qos, matches[n].qos))] else [];
    }
  }

  /** Connected clients get the message now; disconnected ones with a session that
      outlives the connection get it queued; other nodes get it unless it was itself
      forwarded. `queued` are the disconnected clients whose session has a non-zero
      expiry interval. */
  method RouteMessage(matches: seq<Match>, connected: set<Bytes>, expiry: map<Bytes, nat>,
                      remote: seq<Match>, qos: Byte, forwarded: bool) returns (r: Routed)
    ensures var queued := set c | c in expiry && expiry[c] != 0 && c !in connected;
            && r.online == Served(matches, qos, connected)
            && r.offline == Served(matches, qos, queued)
            && r.forwards == (if forwarded then [] else Served(remote, qos, set m | m in remote :: m.who))
  {
    ghost var queued := set c | c in expiry && expiry[c] != 0 && c !in connected;
    var online, offline, forwards := [], [], [];
    for i := 0 to |matches|
      invariant online == Served(matches[..i], qos, connected)
      invariant offline == Served(matches[..i], qos, queued)
    {
      assert matches[..i + 1][..i] == matches[..i];
      var m := matches[i];
      var effectiveQoS := qos;
      if m.qos < effectiveQoS {
        effectiveQoS := m.qos;
      }
      if m.who in connected {
        online := online + [Match(m.who, effectiveQoS)];
      } else if m.who in expiry && expiry[m.who] != 0 {
        offline := offline + [Match(m.who, effectiveQoS)];
      }
    }
    assert matches[..|matches|] == matches;
    if !forwarded {
      ghost var everyone := set m | m in remote :: m.who;
      for i := 0 to |remote|
        invariant forwards == Served(remote[..i], qos, everyone)
      {
        assert remote[..i + 1][..i] == remote[..i] && remote[i] in remote;
        var m := remote[i];
        var effectiveQoS := qos;
        if m.qos < effectiveQoS {
          effectiveQoS := m.qos;
        }
        forwards := forwards + [Match(m.who, effectiveQoS)];
      }
      assert remote[..|remote|] == remote;
    }
    return Routed(online, offline, forwards);
  }

  /** Direct delivery: a client is served exactly once, at the lower of the
      publisher's QoS and its own best matching QoS, or not at all. */
  lemma DirectDelivery(matches: seq<Match>, rel: Relation, topic: Bytes, qos: Byte, chosen: set<Bytes>, who: Bytes, q: Byte)
    requires Answers(matches, rel, topic)
    ensures Match(who, q) in Served(matches, qos, chosen) <==>
            who in chosen && exists b :: IsBest(rel, topic, who, b) && q == Min(qos, b)
    ensures Once(Served(matches, qos, chosen))
  {
    ServedExact(matches, qos, chosen, who, q);
    ServedOnce(matches, qos, chosen);
    if b :| IsBest(rel, topic, who, b) && q == Min(qos, b) {
      assert Match(who, b) in matches;
    }
    if b :| Match(who, b) in matches && q == Min(qos, b) {
      assert IsBest(rel, topic, who, b);
    }
  }

  // ----- Two hops -----

  /** Another node's index bounds this node's local grants. */
  ghost predicate Bounds(remote: Relation, node: Bytes, local: Relation) {
    forall p :: p in local ==> (node, p.1) in remote && local[p] <= remote[(node, p.1)]
  }

  /** Some matching subscription means there is a best one. */
  lemma {:induction false} BestExists(rel: Relation, topic: Bytes, who: Bytes, f: Bytes) returns (best: Byte)
    requires (who, f) in rel && TopicMatch(f, topic)
    ensures IsBest(rel, topic, who, best) && rel[(who, f)] <= best
    decreases 255 - rel[(who, f)]
  {
    if g :| (who, g) in rel && TopicMatch(g, topic) && rel[(who, g)] > rel[(who, f)] {
      best := BestExists(rel, topic, who, g);
    } else {
      best := rel[(who, f)];
    }
  }

  /** Two-hop QoS: while the remote entries bound the node's grants, a subscriber there
      is forwarded to, and gets exactly what direct delivery would give it. */
  lemma TwoHopEqualsDirect(remote: Relation, node: Bytes, local: Relation, topic: Bytes, client: Bytes, best: Byte, qos: Byte)
    requires Bounds(remote, node, local) && IsBest(local, topic, client, best)
    ensures exists r :: IsBest(remote, topic, node, r) && Min(Min(qos, r), best) == Min(qos, best)
  {
    var f :| (client, f) in local && TopicMatch(f, topic) && local[(client, f)] == best;
    var r := BestExists(remote, topic, node, f);
    assert best <= r;
  }

  // ----- One hop only -----

  /** A copy of a message at a node. `Forward` marks what it sends. */
  datatype Copy = Copy(node: Bytes, qos: Byte, forwarded: bool)

  /** The copies `routeMessage` sends on, given who matches remotely. */
  function SentOn(c: Copy, remote: seq<Match>): seq<Copy> {
    if c.forwarded then []
    else seq(|remote|, i requires 0 <= i < |remote| => Copy(remote[i].who, Min(c.qos, remote[i].qos), true))
  }

  /** All copies a publish causes, whatever the indexes of the nodes say: routing
      copies until none is left, at most `rounds` times. */
  ghost function Spread(copies: seq<Copy>, index: Bytes -> seq<Match>, rounds: nat): seq<Copy>
    decreases rounds
  {
    if rounds == 0 || copies == [] then copies
    else copies + Spread(Onward(copies, index), index, rounds - 1)
  }

  ghost function Onward(copies: seq<Copy>, index: Bytes -> seq<Match>): seq<Copy> {
    if copies == [] then []
    else Onward(copies[..|copies| - 1], index)
         + SentOn(copies[|copies| - 1], index(copies[|copies| - 1].node))
  }

  lemma {:induction false} ForwardedStop(copies: seq<Copy>, index: Bytes -> seq<Match>)
    requires forall c :: c in copies ==> c.forwarded
    ensures Onward(copies, index) == []
    decreases |copies|
  {
    if copies != [] {
      assert forall c :: c in copies[..|copies| - 1] ==> c in copies;
      ForwardedStop(copies[..|copies| - 1], index);
      assert copies[|copies| - 1].forwarded;
    }
  }

  /** A forwarded copy is never forwarded again: however long routing goes on, a
      publish causes the original and one copy per node that matched at its origin. */
  lemma ForwardedOnce(origin: Copy, index: Bytes -> seq<Match>, rounds: nat)
    requires !origin.forwarded && rounds >= 1
    ensures Spread([origin], index, rounds) == [origin] + SentOn(origin, index(origin.node))
  {
    var first := SentOn(origin, index(origin.node));
    assert [origin][..0] == [];
    assert Onward([origin], index) == [] + first == first;
    ForwardedStop(first, index);
    if rounds > 1 && first != [] {
      assert Spread(first, index, rounds - 1) == first + Spread([], index, rounds - 2) == first;
    }
  }
}
