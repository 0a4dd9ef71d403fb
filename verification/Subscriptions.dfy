/** The local subscription index: two maps that stay mutual inverses and refine one
    relation (internal/broker/subscription.go). */
module Subscriptions {
  import opened ByteStrings
  import opened Topics
  import opened BestMatch

  datatype Entry = Entry(client: Bytes, qos: Byte)

  type Filters = map<Bytes, seq<Entry>>
  type Clients = map<Bytes, set<Bytes>>

  // ----- Refinement of a relation -----

  /** One filter's bucket lists exactly its subscribers, each once. */
  ghost predicate Bucket(es: seq<Entry>, f: Bytes, rel: Relation) {
    && (forall i, j :: 0 <= i < j < |es| ==> es[i].client != es[j].client)
    && (forall i :: 0 <= i < |es| ==> (es[i].client, f) in rel && rel[(es[i].client, f)] == es[i].qos)
    && (forall c :: (c, f) in rel ==> exists i :: 0 <= i < |es| && es[i].client == c)
  }

  ghost predicate FilterSide(filters: Filters, rel: Relation) {
    && (forall f :: f in filters ==> filters[f] != [] && Bucket(filters[f], f, rel))
    && (forall p :: p in rel ==> p.1 in filters)
  }

  ghost predicate ClientSide(clients: Clients, rel: Relation) {
    && (forall c :: c in clients ==> clients[c] != {} && forall f :: f in clients[c] ==> (c, f) in rel)
    && (forall p :: p in rel ==> p.0 in clients && p.1 in clients[p.0])
  }

  /** The two maps are inverses of each other. */
  lemma MutualInverses(filters: Filters, clients: Clients, rel: Relation, c: Bytes, f: Bytes)
    requires FilterSide(filters, rel) && ClientSide(clients, rel)
    ensures c in clients && f in clients[c] <==>
            f in filters && exists i :: 0 <= i < |filters[f]| && filters[f][i].client == c
  {
    if f in filters {
      if i :| 0 <= i < |filters[f]| && filters[f][i].client == c {
        assert (c, f) in rel;
      }
    }
  }

  lemma BucketReplaced(es: seq<Entry>, f: Bytes, rel: Relation, i: nat, qos: Byte)
    requires Bucket(es, f, rel) && i < |es|
    ensures Bucket(es[i := Entry(es[i].client, qos)], f, rel[(es[i].client, f) := qos])
  {
    var es' := es[i := Entry(es[i].client, qos)];
    forall c | (c, f) in rel ensures exists j :: 0 <= j < |es'| && es'[j].client == c {
      var j :| 0 <= j < |es| && es[j].client == c;
      assert es'[j].client == c;
    }
  }

  lemma BucketAppended(es: seq<Entry>, f: Bytes, rel: Relation, c: Bytes, qos: Byte)
    requires Bucket(es, f, rel) && (c, f) !in rel
    ensures Bucket(es + [Entry(c, qos)], f, rel[(c, f) := qos])
  {
    var es' := es + [Entry(c, qos)];
    forall d | (d, f) in rel[(c, f) := qos] ensures exists j :: 0 <= j < |es'| && es'[j].client == d {
      if d == c {
        assert es'[|es|].client == c;
      } else {
        var j :| 0 <= j < |es| && es[j].client == d;
        assert es'[j].client == d;
      }
    }
  }

  lemma BucketRemoved(es: seq<Entry>, f: Bytes, rel: Relation, i: nat)
    requires Bucket(es, f, rel) && i < |es|
    ensures Bucket(es[..i] + es[i + 1..], f, rel - {(es[i].client, f)})
  {
    var es' := es[..i] + es[i + 1..];
    forall c | (c, f) in rel - {(es[i].client, f)} ensures exists j :: 0 <= j < |es'| && es'[j].client == c {
      var j :| 0 <= j < |es| && es[j].client == c;
      assert es'[if j < i then j else j - 1].client == c;
    }
  }

  /** Changing one filter's pairs leaves the other buckets alone. */
  lemma BucketFrame(es: seq<Entry>, g: Bytes, rel: Relation, rel': Relation)
    requires Bucket(es, g, rel)
    requires forall c :: ((c, g) in rel <==> (c, g) in rel') && ((c, g) in rel ==> rel[(c, g)] == rel'[(c, g)])
    ensures Bucket(es, g, rel')
  {
  }

  /** Either side after the pairs of one filter changed. */
  ghost predicate Elsewhere(rel: Relation, rel': Relation, f: Bytes) {
    forall p: (Bytes, Bytes) :: p.1 != f ==> (p in rel <==> p in rel') && (p in rel ==> rel[p] == rel'[p])
  }

  lemma FilterSet(filters: Filters, rel: Relation, f: Bytes, es: seq<Entry>, rel': Relation)
    requires FilterSide(filters, rel) && Elsewhere(rel, rel', f) && Bucket(es, f, rel')
    ensures FilterSide(if es == [] then filters - {f} else filters[f := es], rel')
  {
    forall g | g in filters && g != f ensures Bucket(filters[g], g, rel') {
      assert forall c :: ((c, g) in rel <==> (c, g) in rel') && ((c, g) in rel ==> rel[(c, g)] == rel'[(c, g)]);
      BucketFrame(filters[g], g, rel, rel');
    }
  }

  function EntriesOf(filters: Filters, f: Bytes): seq<Entry> { if f in filters then filters[f] else [] }

  lemma EntriesBucket(filters: Filters, rel: Relation, f: Bytes)
    requires FilterSide(filters, rel)
    ensures Bucket(EntriesOf(filters, f), f, rel)
  {
  }

  /** Where a client sits in a bucket, or that it is absent. */
  lemma AbsentClient(es: seq<Entry>, f: Bytes, rel: Relation, c: Bytes)
    requires Bucket(es, f, rel) && forall j :: 0 <= j < |es| ==> es[j].client != c
    ensures (c, f) !in rel
  {
  }

  function WithFilter(clients: Clients, c: Bytes, f: Bytes): Clients {
    clients[c := (if c in clients then clients[c] else {}) + {f}]
  }

  function WithoutFilter(clients: Clients, c: Bytes, f: Bytes): Clients {
    if c !in clients then clients
    else if clients[c] - {f} == {} then clients - {c}
    else clients[c := clients[c] - {f}]
  }

  lemma ClientAdd(clients: Clients, rel: Relation, c: Bytes, f: Bytes, qos: Byte)
    requires ClientSide(clients, rel)
    ensures ClientSide(WithFilter(clients, c, f), rel[(c, f) := qos])
    ensures (c, f) in rel ==> ClientSide(clients, rel[(c, f) := qos])
  {
    var after := WithFilter(clients, c, f);
    assert f in after[c];
    forall p | p in rel[(c, f) := qos] ensures p.0 in after && p.1 in after[p.0] {
      assert p in rel || p == (c, f);
    }
  }

  lemma ClientRemove(clients: Clients, rel: Relation, c: Bytes, f: Bytes)
    requires ClientSide(clients, rel)
    ensures ClientSide(WithoutFilter(clients, c, f), rel - {(c, f)})
  {
    var after := WithoutFilter(clients, c, f);
    forall d | d in after ensures after[d] != {} && forall g :: g in after[d] ==> (d, g) in rel - {(c, f)} {
      assert d in clients;
    }
    forall p | p in rel - {(c, f)} ensures p.0 in after && p.1 in after[p.0] {
      assert p in rel;
      if p.0 == c { assert p.1 in clients[c] - {f}; }
    }
  }

  function Without(rel: Relation, c: Bytes): Relation { map p | p in rel && p.0 != c :: rel[p] }

  lemma ClientRemoveAll(clients: Clients, rel: Relation, c: Bytes)
    requires ClientSide(clients, rel)
    ensures ClientSide(clients - {c}, Without(rel, c))
    ensures c in clients ==> Minus(rel, c, clients[c]) == Without(rel, c)
    ensures c !in clients ==> Without(rel, c) == rel
  {
    assert forall p :: p in rel ==> p.0 in clients && p.1 in clients[p.0];
    if c !in clients { assert Without(rel, c) == rel; }
  }

  /** A relation without some of one client's filters. */
  function Minus(rel: Relation, c: Bytes, fs: set<Bytes>): Relation {
    map p | p in rel && !(p.0 == c && p.1 in fs) :: rel[p]
  }

  lemma MinusStep(rel: Relation, c: Bytes, fs: set<Bytes>, f: Bytes)
    ensures Minus(rel, c, fs) - {(c, f)} == Minus(rel, c, fs + {f})
    ensures Minus(rel, c, {}) == rel
  {
  }

  lemma SetElsewhere(rel: Relation, c: Bytes, f: Bytes, qos: Byte)
    ensures Elsewhere(rel, rel[(c, f) := qos], f) && Elsewhere(rel, rel - {(c, f)}, f)
  {
  }

  lemma FilterKeys(filters: Filters, rel: Relation)
    requires FilterSide(filters, rel)
    ensures forall p :: p in rel ==> p.1 in filters
  {
  }

  lemma ClientFilterSet(clients: Clients, rel: Relation, c: Bytes)
    requires ClientSide(clients, rel)
    ensures forall f :: (c in clients && f in clients[c]) <==> (c, f) in rel
  {
  }

  lemma BucketEntry(es: seq<Entry>, f: Bytes, rel: Relation, i: nat)
    requires Bucket(es, f, rel) && i < |es|
    ensures (es[i].client, f) in rel && rel[(es[i].client, f)] == es[i].qos
  {
  }

  // ----- Sizes -----

  /** The pairs behind one bucket, as many as it has entries. */
  ghost function PairsOn(es: seq<Entry>, f: Bytes, rel: Relation): (pairs: set<(Bytes, Bytes)>)
    requires Bucket(es, f, rel)
    ensures |pairs| == |es| && forall p :: p in pairs <==> p in rel && p.1 == f
  {
    PairsSize(es, f);
    Pairs(es, f)
  }

  ghost function Pairs(es: seq<Entry>, f: Bytes): (pairs: set<(Bytes, Bytes)>)
    ensures forall p :: p in pairs <==> p.1 == f && exists i :: 0 <= i < |es| && es[i].client == p.0
  {
    if es == [] then {}
    else
      var n := |es| - 1;
      var pairs := Pairs(es[..n], f) + {(es[n].client, f)};
      assert forall i :: 0 <= i < n ==> es[..n][i] == es[i];
      pairs
  }

  lemma {:induction false} PairsSize(es: seq<Entry>, f: Bytes)
    requires forall i, j :: 0 <= i < j < |es| ==> es[i].client != es[j].client
    ensures |Pairs(es, f)| == |es|
    decreases |es|
  {
    if es != [] { PairsSize(es[..|es| - 1], f); }
  }

  ghost function TotalFilters(clients: Clients): nat {
    if clients == map[] then 0
    else
      var c :| c in clients;
      |clients[c]| + TotalFilters(clients - {c})
  }

  lemma {:induction false} ClientPairs(clients: Clients, rel: Relation)
    requires ClientSide(clients, rel)
    ensures |rel| == TotalFilters(clients)
    decreases |clients|
  {
    hide ClientSide;
    ClientKeys(clients, rel);
    if clients == map[] {
      assert rel.Keys == {};
    } else {
      var c :| c in clients && TotalFilters(clients) == |clients[c]| + TotalFilters(clients - {c});
      assert (clients - {c}).Keys == clients.Keys - {c};
      ClientRemoveAll(clients, rel, c);
      ClientPairs(clients - {c}, Without(rel, c));
      ClientFilterSet(clients, rel, c);
      OwnPairs(rel, c, clients[c]);
    }
  }

  lemma ClientKeys(clients: Clients, rel: Relation)
    requires ClientSide(clients, rel)
    ensures forall p :: p in rel ==> p.0 in clients
  {
  }

  /** A client's pairs and the rest make up the relation. */
  lemma OwnPairs(rel: Relation, c: Bytes, fs: set<Bytes>)
    requires forall f :: f in fs <==> (c, f) in rel
    ensures |rel| == |fs| + |Without(rel, c)|
  {
    var mine, others := set f | f in fs :: (c, f), Without(rel, c).Keys;
    ImageSize(fs, c);
    assert rel.Keys == mine + others && mine !! others;
    assert |rel| == |rel.Keys| && |Without(rel, c)| == |others|;
  }

  lemma {:induction false} ImageSize(fs: set<Bytes>, c: Bytes)
    ensures |set f | f in fs :: (c, f)| == |fs|
    decreases |fs|
  {
    if fs == {} {
      assert (set f | f in fs :: (c, f)) == {};
    } else {
      var f :| f in fs;
      ImageSize(fs - {f}, c);
      assert (set g | g in fs :: (c, g)) == (set g | g in fs - {f} :: (c, g)) + {(c, f)};
    }
  }

  // ----- As the source runs -----

  lemma NothingSeen(rel: Relation)
    ensures Bests(map[], rel, {})
  {
  }

  lemma PairsSnoc(es: seq<Entry>, i: nat, f: Bytes)
    requires i < |es|
    ensures Pairs(es[..i + 1], f) == Pairs(es[..i], f) + {(es[i].client, f)}
  {
    assert es[..i + 1][..i] == es[..i];
  }

  /** The inner loop of Match over one matching filter's entries. */
  method Accumulate(entries: seq<Entry>, filter: Bytes, start: map<Bytes, Byte>,
                    ghost rel: Relation, ghost before: set<(Bytes, Bytes)>)
    returns (best: map<Bytes, Byte>, ghost seen: set<(Bytes, Bytes)>)
    requires Bucket(entries, filter, rel) && Bests(start, rel, before)
    ensures Bests(best, rel, seen) && seen == before + PairsOn(entries, filter, rel)
  {
    hide Bucket, Bests, Pairs, Better;
    best, seen := start, before;
    NoPairs(filter);
    for i := 0 to |entries|
      invariant Bests(best, rel, seen) && seen == before + Pairs(entries[..i], filter)
    {
      BucketEntry(entries, filter, rel, i);
      PairsSnoc(entries, i, filter);
      BestStep(best, rel, seen, entries[i].client, filter);
      best := Better(best, entries[i].client, entries[i].qos);
      seen := seen + {(entries[i].client, filter)};
    }
    assert entries[..|entries|] == entries;
  }

  lemma NoPairs(f: Bytes)
    ensures Pairs([], f) == {}
  {
  }

  class SubscriptionIndex {
    var filters: Filters
    var clients: Clients
    ghost var rel: Relation

    ghost predicate Valid()
      reads this
    {
      FilterSide(filters, rel) && ClientSide(clients, rel)
    }

    constructor ()
      ensures Valid() && rel == map[]
    {
      filters, clients, rel := map[], map[], map[];
    }

    method Add(clientID: Bytes, filter: Bytes, qos: Byte)
      requires Valid()
      modifies this
      ensures Valid() && rel == old(rel)[(clientID, filter) := qos]
    {
      hide FilterSide, ClientSide, Bucket, Elsewhere;
      var entries := EntriesOf(filters, filter);
      EntriesBucket(filters, rel, filter);
      ClientAdd(clients, rel, clientID, filter, qos);
      SetElsewhere(rel, clientID, filter, qos);
      ghost var after := rel[(clientID, filter) := qos];
      for i := 0 to |entries|
        invariant forall j :: 0 <= j < i ==> entries[j].client != clientID
        invariant filters == old(filters) && clients == old(clients) && rel == old(rel)
      {
        if entries[i].client == clientID {
          BucketReplaced(entries, filter, rel, i, qos);
          BucketEntry(entries, filter, rel, i);
          var replaced := entries[i := Entry(clientID, qos)];
          FilterSet(filters, rel, filter, replaced, after);
          filters := filters[filter := replaced];
          rel := after;
          return;
        }
      }
      AbsentClient(entries, filter, rel, clientID);
      BucketAppended(entries, filter, rel, clientID, qos);
      FilterSet(filters, rel, filter, entries + [Entry(clientID, qos)], after);
      filters := filters[filter := entries + [Entry(clientID, qos)]];
      clients := WithFilter(clients, clientID, filter);
      rel := after;
    }

    /** The bucket half of Remove and RemoveAll. */
    method RemoveEntry(clientID: Bytes, filter: Bytes)
      requires FilterSide(filters, rel)
      modifies this`filters, this`rel
      ensures FilterSide(filters, rel) && rel == old(rel) - {(clientID, filter)}
    {
      hide FilterSide, Bucket, Elsewhere;
      var entries := EntriesOf(filters, filter);
      EntriesBucket(filters, rel, filter);
      SetElsewhere(rel, clientID, filter, 0);
      var i := 0;
      while i < |entries| && entries[i].client != clientID
        invariant 0 <= i <= |entries|
        invariant forall j :: 0 <= j < i ==> entries[j].client != clientID
      {
        i := i + 1;
      }
      ghost var after := rel - {(clientID, filter)};
      if i < |entries| {
        BucketRemoved(entries, filter, rel, i);
        entries := entries[..i] + entries[i + 1..];
      } else {
        AbsentClient(entries, filter, rel, clientID);
        assert after == rel;
      }
      FilterSet(filters, rel, filter, entries, after);
      filters := if |entries| == 0 then filters - {filter} else filters[filter := entries];
      rel := after;
    }

    method Remove(clientID: Bytes, filter: Bytes)
      requires Valid()
      modifies this
      ensures Valid() && rel == old(rel) - {(clientID, filter)}
    {
      hide FilterSide, ClientSide;
      ClientRemove(clients, rel, clientID, filter);
      RemoveEntry(clientID, filter);
      if clientID in clients {
        var mine := clients[clientID] - {filter};
        clients := if mine == {} then clients - {clientID} else clients[clientID := mine];
      }
    }

    method RemoveAll(clientID: Bytes)
      requires Valid()
      modifies this
      ensures Valid() && rel == Without(old(rel), clientID)
    {
      hide FilterSide, ClientSide, Minus, Without;
      ClientRemoveAll(clients, rel, clientID);
      if clientID !in clients {
        return;
      }
      var todo := clients[clientID];
      ghost var done: set<Bytes> := {};
      MinusStep(rel, clientID, done, []);
      while todo != {}
        invariant FilterSide(filters, rel) && clients == old(clients)
        invariant done + todo == clients[clientID] && rel == Minus(old(rel), clientID, done)
        decreases |todo|
      {
        var filter :| filter in todo;
        MinusStep(old(rel), clientID, done, filter);
        todo := todo - {filter};
        done := done + {filter};
        RemoveEntry(clientID, filter);
      }
      assert done == clients[clientID];
      clients := clients - {clientID};
    }

    /** The filters of one client, in no particular order. */
    method ClientFilters(clientID: Bytes) returns (result: seq<Bytes>)
      requires Valid()
      ensures forall f :: f in result <==> (clientID, f) in rel
      ensures forall i, j :: 0 <= i < j < |result| ==> result[i] != result[j]
    {
      hide FilterSide, ClientSide;
      ClientFilterSet(clients, rel, clientID);
      result := [];
      var all := if clientID in clients then clients[clientID] else {};
      var todo := all;
      while todo != {}
        invariant forall f :: f in result || f in todo <==> f in all
        invariant forall f :: f in result ==> f !in todo
        invariant forall i, j :: 0 <= i < j < |result| ==> result[i] != result[j]
        decreases |todo|
      {
        var f :| f in todo;
        todo := todo - {f};
        result := result + [f];
      }
    }

    method Match(topic: Bytes) returns (result: seq<Match>)
      requires Valid()
      ensures Answers(result, rel, topic)
    {
      hide FilterSide, ClientSide, Bucket, Bests, TopicMatch;
      var best: map<Bytes, Byte> := map[];
      ghost var seen: set<(Bytes, Bytes)> := {};
      FilterKeys(filters, rel);
      NothingSeen(rel);
      var todo := filters.Keys;
      while todo != {}
        invariant todo <= filters.Keys && Bests(best, rel, seen)
        invariant forall p :: p in seen <==> p in rel && p.1 !in todo && TopicMatch(p.1, topic)
        decreases |todo|
      {
        var filter :| filter in todo;
        todo := todo - {filter};
        var matches := MatchTopic(filter, topic);
        if matches {
          EntriesBucket(filters, rel, filter);
          best, seen := Accumulate(filters[filter], filter, best, rel, seen);
        }
      }
      assert seen == Matching(rel, topic);
      result := ListBest(best, rel, topic);
    }

    /** The number of subscriptions, which the client side counts as well. */
    method Count() returns (count: nat)
      requires Valid()
      ensures count == |rel| == TotalFilters(clients)
    {
      hide FilterSide, ClientSide, Bucket, TotalFilters, Pairs;
      count := 0;
      ClientPairs(clients, rel);
      FilterKeys(filters, rel);
      var todo := filters.Keys;
      ghost var counted: set<(Bytes, Bytes)> := {};
      while todo != {}
        invariant todo <= filters.Keys && count == |counted|
        invariant forall p :: p in counted <==> p in rel && p.1 !in todo
        decreases |todo|
      {
        var filter :| filter in todo;
        todo := todo - {filter};
        EntriesBucket(filters, rel, filter);
        ghost var here := PairsOn(filters[filter], filter, rel);
        assert counted !! here;
        count := count + |filters[filter]|;
        counted := counted + here;
      }
      assert counted == rel.Keys;
    }
  }
}
