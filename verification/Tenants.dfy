/** Tenant isolation by topic prefixes (internal/tenant/interceptor.go). */
module Tenants {
  import opened ByteStrings
  import opened Topics

  predicate Dollar(s: Bytes) { s != [] && s[0] == DOLLAR }

  /** Prefix a topic or filter, leaving '$' names and unprefixed tenants alone. */
  function Rewrite(prefix: Bytes, name: Bytes): Bytes {
    if prefix != [] && !Dollar(name) then prefix + [SLASH] + name else name
  }

  /** Remove the prefix again on delivery. */
  function Strip(prefix: Bytes, topic: Bytes): Bytes {
    if prefix != [] && HasPrefix(topic, prefix + [SLASH]) then topic[|prefix| + 1..] else topic
  }

  // ----- Round trip -----

  /** The ways a publish reaches a client: at once, from the offline queue when the client
      reconnects, or from the retained messages when it subscribes. */
  datatype Path = Live | Queued | Retained

  /** The name a publish is matched under: retained messages are stored before the
      interceptors see them. */
  function Stored(path: Path, prefix: Bytes, name: Bytes): Bytes {
    if path.Retained? then name else Rewrite(prefix, name)
  }

  /** The topic a client of the same tenant receives: only live deliveries pass the
      interceptors. */
  function Received(path: Path, prefix: Bytes, topic: Bytes): Bytes {
    if path.Live? then Strip(prefix, Stored(path, prefix, topic)) else Stored(path, prefix, topic)
  }

  /** A client receives the topic that was published, on each path exactly when: live,
      unless it is a '$' topic that carries the prefix already; queued, only if there is
      no prefix or the topic starts with '$'; retained, always. */
  lemma DeliveryRestores(path: Path, prefix: Bytes, topic: Bytes)
    ensures Received(path, prefix, topic) == topic <==>
            match path
            case Live => !(prefix != [] && Dollar(topic) && HasPrefix(topic, prefix + [SLASH]))
            case Queued => prefix == [] || Dollar(topic)
            case Retained => true
  {
    if path.Queued? && prefix != [] && !Dollar(topic) {
      assert |prefix + [SLASH] + topic| > |topic|;
    }
    if prefix != [] {
      if !Dollar(topic) {
        assert (prefix + [SLASH] + topic)[|prefix| + 1..] == topic;
        assert HasPrefix(prefix + [SLASH] + topic, prefix + [SLASH]);
      } else if HasPrefix(topic, prefix + [SLASH]) {
        assert |topic[|prefix| + 1..]| < |topic|;
      }
    }
  }

  // ----- Matching under a prefix -----

  lemma {:induction false} CommonLevels(p: seq<Bytes>, f: seq<Bytes>, t: seq<Bytes>)
    ensures MatchLevels(p + f, p + t) == (HASH in p || MatchLevels(f, t))
    decreases |p|
  {
    if p == [] {
      assert p + f == f && p + t == t;
    } else {
      assert (p + f)[1..] == p[1..] + f && (p + t)[1..] == p[1..] + t && p == [p[0]] + p[1..];
      CommonLevels(p[1..], f, t);
    }
  }

  /** The first level starts with the string's first byte. */
  lemma FirstLevel(s: Bytes)
    ensures s == [] || s[0] == SLASH ==> Split(s)[0] == []
    ensures s != [] && s[0] != SLASH ==> Split(s)[0] != [] && Split(s)[0][0] == s[0]
  {
  }

  /** A '$' name and another name differ in their first level. */
  lemma DollarApart(filter: Bytes, topic: Bytes)
    requires Dollar(filter) != Dollar(topic)
    ensures !TopicMatch(filter, topic)
  {
    FirstLevel(filter);
    FirstLevel(topic);
    assert Dollar(filter) ==> Split(filter)[0] != HASH && Split(filter)[0] != PLUS;
  }

  /** Prefixes under which tenants keep exactly their own matches. */
  predicate Sound(prefix: Bytes) { prefix == [] || (HASH !in Split(prefix) && !Dollar(prefix)) }

  lemma RewriteMatches(prefix: Bytes, filter: Bytes, topic: Bytes)
    requires Sound(prefix)
    ensures TopicMatch(Rewrite(prefix, filter), Rewrite(prefix, topic)) == TopicMatch(filter, topic)
  {
    if prefix != [] {
      if !Dollar(filter) && !Dollar(topic) {
        SplitConcat(prefix, filter);
        SplitConcat(prefix, topic);
        CommonLevels(Split(prefix), Split(filter), Split(topic));
      } else if Dollar(filter) != Dollar(topic) {
        DollarApart(filter, topic);
        DollarApart(Rewrite(prefix, filter), Rewrite(prefix, topic));
      }
    }
  }

  ghost predicate Homomorphic(prefix: Bytes) {
    forall filter, topic ::
      TopicMatch(Rewrite(prefix, filter), Rewrite(prefix, topic)) == TopicMatch(filter, topic)
  }

  /** Tenant rewriting preserves matching for all filters and topics, '$' names
      included, exactly for prefixes with no '#' level and no leading '$'. */
  lemma RewriteHomomorphism(prefix: Bytes)
    ensures Homomorphic(prefix) <==> Sound(prefix)
  {
    if Sound(prefix) {
      forall filter, topic
        ensures TopicMatch(Rewrite(prefix, filter), Rewrite(prefix, topic)) == TopicMatch(filter, topic)
      {
        RewriteMatches(prefix, filter, topic);
      }
    } else if HASH in Split(prefix) {
      var a: Bytes, b: Bytes := [97], [98];
      SplitConcat(prefix, a);
      SplitConcat(prefix, b);
      CommonLevels(Split(prefix), Split(a), Split(b));
      SplitPlain(a);
      SplitPlain(b);
      DollarFree(prefix, a, b);
      assert TopicMatch(Rewrite(prefix, a), Rewrite(prefix, b)) != TopicMatch(a, b);
    } else {
      var x: Bytes := [120];
      var f := prefix + [SLASH] + x;
      SplitConcat(prefix, x);
      SplitPlain(x);
      CommonLevels(Split(f), [], []);
      assert Split(f) + [] == Split(f);
      TooLong(Split(f), Split(x));
      assert TopicMatch(Rewrite(prefix, f), Rewrite(prefix, x)) != TopicMatch(f, x);
    }
  }

  /** Two names under one prefix start alike, so no leading wildcard meets a '$'. */
  lemma DollarFree(prefix: Bytes, a: Bytes, b: Bytes)
    requires prefix != []
    ensures !DollarHidden(prefix + [SLASH] + a, prefix + [SLASH] + b)
  {
  }

  lemma TooLong(filter: seq<Bytes>, topic: seq<Bytes>)
    requires |filter| > |topic| && HASH !in filter
    ensures !MatchLevels(filter, topic)
  {
    if topic != [] && MatchLevels(filter[1..], topic[1..]) { TooLong(filter[1..], topic[1..]); }
  }

  // ----- Isolation -----

  /** The levels a prefix puts in front; the default tenant's empty prefix puts none. */
  function Levels(prefix: Bytes): seq<Bytes> { if prefix == [] then [] else Split(prefix) }

  lemma RewriteLevels(prefix: Bytes, name: Bytes)
    requires !Dollar(name)
    ensures Split(Rewrite(prefix, name)) == Levels(prefix) + Split(name)
  {
    if prefix != [] { SplitConcat(prefix, name); }
  }

  /** Some filter below levels `f` matches some topic below levels `t`. */
  predicate Reaches(f: seq<Bytes>, t: seq<Bytes>) {
    if f == [] || f[0] == HASH then true
    else if t == [] then !Dollar(f[0])
    else (f[0] == PLUS || f[0] == t[0]) && Reaches(f[1..], t[1..])
  }

  /** A tenant with prefix `p` can see something of a tenant with prefix `q`. */
  predicate Overlap(p: Bytes, q: Bytes) {
    Reaches(Levels(p), Levels(q)) && !(Dollar(q) && (p == [] || DollarHidden(p, q)))
  }

  /** Retained messages are shared by all tenants, whatever their prefixes: the filter of
      one and the topic of another meet unprefixed. */
  lemma RetainedShared(p: Bytes, q: Bytes, filter: Bytes, topic: Bytes)
    ensures TopicMatch(Stored(Retained, p, filter), Stored(Retained, q, topic)) <==> TopicMatch(filter, topic)
    ensures !Dollar(topic) ==> TopicMatch(Stored(Retained, p, HASH), Stored(Retained, q, topic))
  {
    SplitPlain(HASH);
  }

  /** Nothing the one publishes, live or queued, matches anything the other subscribes to;
      '$' names belong to nobody. */
  ghost predicate Isolated(p: Bytes, q: Bytes) {
    forall filter, topic :: !Dollar(filter) && !Dollar(topic) ==> !TopicMatch(Rewrite(p, filter), Rewrite(q, topic))
  }

  lemma {:induction false} MatchReaches(p: seq<Bytes>, f: seq<Bytes>, q: seq<Bytes>, t: seq<Bytes>)
    requires MatchLevels(p + f, q + t) && t != [] && !Dollar(t[0])
    ensures Reaches(p, q)
    decreases |p|
  {
    if p != [] && p[0] != HASH {
      assert (p + f)[0] == p[0] && (p + f)[1..] == p[1..] + f;
      if q == [] {
        assert q + t == t;
      } else {
        assert (q + t)[0] == q[0] && (q + t)[1..] == q[1..] + t;
        MatchReaches(p[1..], f, q[1..], t);
      }
    }
  }

  /** A topic that literally follows a filter's levels. */
  function Follow(f: seq<Bytes>): seq<Bytes> {
    if f == [] || f[0] == HASH then [[]] else [if f[0] == PLUS then [] else f[0]] + Follow(f[1..])
  }

  lemma {:induction false} FollowMatches(f: seq<Bytes>)
    requires forall l :: l in f ==> SLASH !in l
    ensures MatchLevels(f + [HASH], Follow(f)) && |Follow(f)| >= 1 && forall l :: l in Follow(f) ==> SLASH !in l
    ensures f != [] && !Dollar(f[0]) ==> !Dollar(Follow(f)[0])
    decreases |f|
  {
    if f == [] {
      assert f + [HASH] == [HASH];
    } else if f[0] != HASH {
      assert (f + [HASH])[1..] == f[1..] + [HASH];
      FollowMatches(f[1..]);
      assert Follow(f)[1..] == Follow(f[1..]);
    }
  }

  /** The topic levels that continue `q` so that `p` reaches them. */
  lemma {:induction false} ReachedTopic(p: seq<Bytes>, q: seq<Bytes>) returns (t: seq<Bytes>)
    requires Reaches(p, q) && forall l :: l in p ==> SLASH !in l
    ensures MatchLevels(p + [HASH], q + t) && |t| >= 1 && !Dollar(t[0]) && forall l :: l in t ==> SLASH !in l
    decreases |p|
  {
    if p == [] || p[0] == HASH {
      t := [[]];
      assert (p + [HASH])[0] == HASH;
    } else if q == [] {
      FollowMatches(p);
      t := Follow(p);
      assert q + t == t;
    } else {
      t := ReachedTopic(p[1..], q[1..]);
      assert (p + [HASH])[1..] == p[1..] + [HASH] && (q + t)[1..] == q[1..] + t;
    }
  }

  lemma {:induction false} JoinSplits(levels: seq<Bytes>)
    requires |levels| >= 1 && forall l :: l in levels ==> SLASH !in l
    ensures Split(Join(levels)) == levels
    decreases |levels|
  {
    if |levels| == 1 {
      SplitPlain(levels[0]);
    } else {
      JoinSplits(levels[1..]);
      SplitConcat(levels[0], Join(levels[1..]));
      SplitPlain(levels[0]);
    }
  }

  /** Two arbitrary prefixes, the default tenant's empty one included, keep tenants
      apart if and only if the one's levels cannot reach the other's. */
  lemma TenantsIsolated(p: Bytes, q: Bytes)
    ensures Isolated(p, q) <==> !Overlap(p, q)
  {
    if Overlap(p, q) {
      OverlapSeen(p, q);
    } else {
      forall filter, topic | !Dollar(filter) && !Dollar(topic)
        ensures !TopicMatch(Rewrite(p, filter), Rewrite(q, topic))
      {
        ApartUnseen(p, q, filter, topic);
      }
    }
  }

  lemma OverlapSeen(p: Bytes, q: Bytes)
    requires Overlap(p, q)
    ensures !Isolated(p, q)
  {
    if p != [] { SplitJoins(p); }
    var t := ReachedTopic(Levels(p), Levels(q));
    var topic := Join(t);
    JoinSplits(t);
    FirstLevel(topic);
    assert !Dollar(topic);
    RewriteLevels(p, HASH);
    RewriteLevels(q, topic);
    SplitPlain(HASH);
    assert !DollarHidden(Rewrite(p, HASH), Rewrite(q, topic));
    assert TopicMatch(Rewrite(p, HASH), Rewrite(q, topic));
  }

  lemma ApartUnseen(p: Bytes, q: Bytes, filter: Bytes, topic: Bytes)
    requires !Overlap(p, q) && !Dollar(filter) && !Dollar(topic)
    ensures !TopicMatch(Rewrite(p, filter), Rewrite(q, topic))
  {
    RewriteLevels(p, filter);
    RewriteLevels(q, topic);
    FirstLevel(topic);
    if MatchLevels(Split(Rewrite(p, filter)), Split(Rewrite(q, topic))) {
      MatchReaches(Levels(p), Split(filter), Levels(q), Split(topic));
      if p == [] { DollarApart(filter, Rewrite(q, topic)); }
    }
  }

  /** So distinct single-level prefixes that are no wildcard keep tenants apart. */
  lemma SingleLevels(p: Bytes, q: Bytes)
    requires p != [] && q != [] && p != q && SLASH !in p && SLASH !in q && p != PLUS && p != HASH
    ensures Isolated(p, q)
  {
    SplitPlain(p);
    SplitPlain(q);
    TenantsIsolated(p, q);
  }

  /** The default tenant, whose prefix is empty, sees every other that does not hide
      behind a '$'. */
  lemma DefaultTenantSees(q: Bytes)
    ensures Isolated([], q) <==> Dollar(q)
  {
    TenantsIsolated([], q);
  }

  // ----- As the source runs -----

  class TopicEvent {
    var name: Bytes

    constructor (name: Bytes)
      ensures this.name == name
    {
      this.name := name;
    }

    /** `OnPublish`, `OnSubscribe` and `OnUnsubscribe` rewrite in place. */
    method Prefix(prefix: Bytes)
      modifies this
      ensures name == Rewrite(prefix, old(name))
    {
      if prefix != [] && !HasPrefix(name, [DOLLAR]) {
        name := prefix + [SLASH] + name;
      }
    }

    /** `OnDelivery`. */
    method Unprefix(prefix: Bytes)
      modifies this
      ensures name == Strip(prefix, old(name))
    {
      if prefix != [] {
        var pfx := prefix + [SLASH];
        if HasPrefix(name, pfx) {
          name := name[|pfx|..];
        }
      }
    }
  }
}
