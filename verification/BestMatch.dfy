/** Subscriptions as a relation: who, on which filter, at which QoS. Both the local
    and the remote index answer "highest QoS over the matching filters". */
module BestMatch {
  import opened ByteStrings
  import opened Topics

  /** Subscriber (a client or a node) and filter, mapped to the granted QoS. */
  type Relation = map<(Bytes, Bytes), Byte>

  ghost function Matching(rel: Relation, topic: Bytes): set<(Bytes, Bytes)> {
    set p | p in rel && TopicMatch(p.1, topic)
  }

  /** `best` holds, per subscriber seen, the highest QoS among the pairs seen. */
  ghost predicate Bests(best: map<Bytes, Byte>, rel: Relation, seen: set<(Bytes, Bytes)>) {
    && seen <= rel.Keys
    && (forall k :: k in best ==> exists f :: (k, f) in seen && rel[(k, f)] == best[k])
    && (forall p :: p in seen ==> p.0 in best && rel[p] <= best[p.0])
  }

  /** The update both match loops make. */
  function Better(best: map<Bytes, Byte>, k: Bytes, qos: Byte): map<Bytes, Byte> {
    if k !in best || qos > best[k] then best[k := qos] else best
  }

  lemma BestStep(best: map<Bytes, Byte>, rel: Relation, seen: set<(Bytes, Bytes)>, k: Bytes, f: Bytes)
    requires Bests(best, rel, seen) && (k, f) in rel
    ensures Bests(Better(best, k, rel[(k, f)]), rel, seen + {(k, f)})
  {
    var best' := Better(best, k, rel[(k, f)]);
    forall j | j in best' ensures exists g :: (j, g) in seen + {(k, f)} && rel[(j, g)] == best'[j] {
      if j == k && best' != best {
        assert (k, f) in seen + {(k, f)};
      } else {
        var g :| (j, g) in seen && rel[(j, g)] == best[j];
        assert (j, g) in seen + {(k, f)};
      }
    }
  }

  /** The QoS a subscriber is served at: its highest over all matching filters. */
  ghost predicate IsBest(rel: Relation, topic: Bytes, k: Bytes, qos: Byte) {
    && (exists f :: (k, f) in rel && TopicMatch(f, topic) && rel[(k, f)] == qos)
    && (forall f :: (k, f) in rel && TopicMatch(f, topic) ==> rel[(k, f)] <= qos)
  }

  lemma BestUnique(rel: Relation, topic: Bytes, k: Bytes, a: Byte, b: Byte)
    requires IsBest(rel, topic, k, a) && IsBest(rel, topic, k, b)
    ensures a == b
  {
  }

  datatype Match = Match(who: Bytes, qos: Byte)

  /** Nobody is listed twice. */
  ghost predicate Once(ms: seq<Match>) {
    forall i, j :: 0 <= i < j < |ms| ==> ms[i].who != ms[j].who
  }

  /** Each matching subscriber exactly once, at its best QoS, and nobody else. */
  ghost predicate Answers(result: seq<Match>, rel: Relation, topic: Bytes) {
    && Once(result)
    && (forall k, qos :: Match(k, qos) in result <==> IsBest(rel, topic, k, qos))
  }

  /** Turn the accumulated map into the result list. */
  method ListBest(best: map<Bytes, Byte>, ghost rel: Relation, ghost topic: Bytes) returns (result: seq<Match>)
    requires Bests(best, rel, Matching(rel, topic))
    ensures Answers(result, rel, topic)
  {
    result := [];
    var todo := best.Keys;
    while todo != {}
      invariant todo <= best.Keys
      invariant Once(result)
      invariant forall m :: m in result ==> m.who in best && m.who !in todo && m.qos == best[m.who]
      invariant forall k :: k in best && k !in todo ==> Match(k, best[k]) in result
      decreases |todo|
    {
      var k :| k in todo;
      todo := todo - {k};
      result := result + [Match(k, best[k])];
    }
    forall k, qos ensures Match(k, qos) in result <==> IsBest(rel, topic, k, qos) {
      BestIsBest(best, rel, topic, k, qos);
    }
  }

  lemma BestIsBest(best: map<Bytes, Byte>, rel: Relation, topic: Bytes, k: Bytes, qos: Byte)
    requires Bests(best, rel, Matching(rel, topic))
    ensures k in best && best[k] == qos <==> IsBest(rel, topic, k, qos)
  {
    forall f | (k, f) in rel && TopicMatch(f, topic) ensures k in best && rel[(k, f)] <= best[k] {
      assert (k, f) in Matching(rel, topic);
    }
    if k in best {
      var f :| (k, f) in Matching(rel, topic) && rel[(k, f)] == best[k];
    }
  }
}
