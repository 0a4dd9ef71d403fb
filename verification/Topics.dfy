/** Topic filters and topic names (internal/broker/topic_matcher.go; the cluster's
    topicMatch in internal/cluster/remote_subs.go is the same function). */
module Topics {
  import opened ByteStrings

  const HASH: Bytes := [35]
  const PLUS: Bytes := [43]
  const DOLLAR: Byte := 36

  // ----- Levels -----

  /** `strings.Split(s, "/")`. */
  function Split(s: Bytes): (levels: seq<Bytes>)
    ensures |levels| >= 1
  {
    if s == [] then [[]]
    else
      var rest := Split(s[1..]);
      if s[0] == SLASH then [[]] + rest else [[s[0]] + rest[0]] + rest[1..]
  }

  function Join(levels: seq<Bytes>): Bytes
    requires |levels| >= 1
  {
    if |levels| == 1 then levels[0] else levels[0] + [SLASH] + Join(levels[1..])
  }

  /** Splitting is exact: slash-free levels that join back to the string. */
  lemma {:induction false} SplitJoins(s: Bytes)
    ensures Join(Split(s)) == s
    ensures forall l :: l in Split(s) ==> SLASH !in l
  {
    if s != [] {
      SplitJoins(s[1..]);
      var rest := Split(s[1..]);
      assert s == [s[0]] + s[1..];
      assert rest == [rest[0]] + rest[1..];
      if s[0] == SLASH {
        assert Split(s)[1..] == rest;
      } else if |rest| > 1 {
        assert Split(s)[1..] == rest[1..];
        assert [s[0]] + rest[0] + [SLASH] + Join(rest[1..]) == [s[0]] + (rest[0] + [SLASH] + Join(rest[1..]));
      }
    }
  }

  lemma {:induction false} SplitConcat(a: Bytes, b: Bytes)
    ensures Split(a + [SLASH] + b) == Split(a) + Split(b)
    decreases |a|
  {
    var s := a + [SLASH] + b;
    if a == [] {
      assert s[1..] == b;
    } else {
      assert s[1..] == a[1..] + [SLASH] + b;
      SplitConcat(a[1..], b);
    }
  }

  lemma SplitPlain(s: Bytes)
    requires SLASH !in s
    ensures Split(s) == [s]
  {
    if s != [] {
      assert s == [s[0]] + s[1..];
      SplitPlain(s[1..]);
    }
  }

  // ----- Matching -----

  function MatchLevels(filter: seq<Bytes>, topic: seq<Bytes>): bool {
    if filter == [] then topic == []
    else if filter[0] == HASH then true
    else if topic == [] then false
    else (filter[0] == PLUS || filter[0] == topic[0]) && MatchLevels(filter[1..], topic[1..])
  }

  /** Leading wildcards do not see topics that start with '$'. */
  predicate DollarHidden(filter: Bytes, topic: Bytes) {
    topic != [] && topic[0] == DOLLAR && filter != [] && (filter[0] == PLUS[0] || filter[0] == HASH[0])
  }

  predicate TopicMatch(filter: Bytes, topic: Bytes) {
    !DollarHidden(filter, topic) && MatchLevels(Split(filter), Split(topic))
  }

  /** The matching loop. */
  method MatchTopic(filter: Bytes, topic: Bytes) returns (r: bool)
    ensures r == TopicMatch(filter, topic)
  {
    if |topic| > 0 && topic[0] == DOLLAR {
      if |filter| > 0 && (filter[0] == PLUS[0] || filter[0] == HASH[0]) {
        return false;
      }
    }
    var filterParts, topicParts := Split(filter), Split(topic);
    var i := 0;
    while i < |filterParts|
      invariant 0 <= i <= |filterParts| && i <= |topicParts|
      invariant MatchLevels(filterParts, topicParts) == MatchLevels(filterParts[i..], topicParts[i..])
    {
      assert filterParts[i..][1..] == filterParts[i + 1..];
      if filterParts[i] == HASH {
        return true;
      }
      if i >= |topicParts| {
        return false;
      }
      assert topicParts[i..][1..] == topicParts[i + 1..];
      if filterParts[i] != PLUS && filterParts[i] != topicParts[i] {
        return false;
      }
      i := i + 1;
    }
    return |filterParts| == |topicParts|;
  }

  // ----- The declarative meaning -----

  /** What one filter level can stand for. */
  predicate StandsFor(level: Bytes, replacement: seq<Bytes>) {
    if level == HASH then true
    else if level == PLUS then |replacement| == 1
    else replacement == [level]
  }

  function Flatten(parts: seq<seq<Bytes>>): seq<Bytes> {
    if parts == [] then [] else parts[0] + Flatten(parts[1..])
  }

  ghost predicate Substitutes(filter: seq<Bytes>, parts: seq<seq<Bytes>>) {
    |parts| == |filter| && forall i :: 0 <= i < |filter| ==> StandsFor(filter[i], parts[i])
  }

  /** The topic is the filter with '+' replaced by one level and '#' by any number. */
  ghost predicate Instance(filter: seq<Bytes>, topic: seq<Bytes>) {
    exists parts :: Substitutes(filter, parts) && Flatten(parts) == topic
  }

  /** The part of a filter the matcher looks at. */
  function UpToHash(filter: seq<Bytes>): seq<Bytes> {
    if filter == [] then []
    else if filter[0] == HASH then [HASH]
    else [filter[0]] + UpToHash(filter[1..])
  }

  lemma {:induction false} MatchFindsParts(filter: seq<Bytes>, topic: seq<Bytes>) returns (parts: seq<seq<Bytes>>)
    requires MatchLevels(filter, topic)
    ensures Substitutes(UpToHash(filter), parts) && Flatten(parts) == topic
    decreases |filter|
  {
    if filter == [] {
      parts := [];
    } else if filter[0] == HASH {
      parts := [topic];
      assert Flatten(parts) == topic + Flatten([]);
    } else {
      var rest := MatchFindsParts(filter[1..], topic[1..]);
      parts := [[topic[0]]] + rest;
      assert parts[1..] == rest && topic == [topic[0]] + topic[1..];
      var cut := UpToHash(filter);
      forall i | 0 <= i < |cut| ensures StandsFor(cut[i], parts[i]) {
        if i > 0 { assert StandsFor(UpToHash(filter[1..])[i - 1], rest[i - 1]); }
      }
    }
  }

  lemma {:induction false} PartsMatch(filter: seq<Bytes>, parts: seq<seq<Bytes>>)
    requires Substitutes(UpToHash(filter), parts)
    ensures MatchLevels(filter, Flatten(parts))
    decreases |filter|
  {
    if filter != [] && filter[0] != HASH {
      var cut := UpToHash(filter);
      assert cut[1..] == UpToHash(filter[1..]) && StandsFor(cut[0], parts[0]);
      forall i | 0 <= i < |cut| - 1 ensures StandsFor(cut[1..][i], parts[1..][i]) {
        assert StandsFor(cut[i + 1], parts[i + 1]);
      }
      PartsMatch(filter[1..], parts[1..]);
      var topic := Flatten(parts);
      assert topic == parts[0] + Flatten(parts[1..]) && topic[1..] == Flatten(parts[1..]);
    }
  }

  /** For every filter, valid or not: matching is being an instance of the filter up
      to its first '#'. */
  lemma MatchMeansInstance(filter: seq<Bytes>, topic: seq<Bytes>)
    ensures MatchLevels(filter, topic) <==> Instance(UpToHash(filter), topic)
  {
    if MatchLevels(filter, topic) {
      var parts := MatchFindsParts(filter, topic);
    }
    if Instance(UpToHash(filter), topic) {
      var parts :| Substitutes(UpToHash(filter), parts) && Flatten(parts) == topic;
      PartsMatch(filter, parts);
    }
  }

  // ----- Valid filters -----

  predicate LevelValid(part: Bytes, last: bool) {
    (HASH[0] in part ==> part == HASH && last) && (PLUS[0] in part ==> part == PLUS)
  }

  predicate FilterValid(filter: Bytes) {
    filter != [] && forall i :: 0 <= i < |Split(filter)| ==> LevelValid(Split(filter)[i], i == |Split(filter)| - 1)
  }

  method TopicFilterValid(filter: Bytes) returns (r: bool)
    ensures r == FilterValid(filter)
  {
    if filter == [] {
      return false;
    }
    var parts := Split(filter);
    for i := 0 to |parts|
      invariant forall j :: 0 <= j < i ==> LevelValid(parts[j], j == |parts| - 1)
    {
      var part := parts[i];
      if HASH[0] in part {
        if part != HASH || i != |parts| - 1 {
          assert !LevelValid(part, i == |parts| - 1);
          return false;
        }
      }
      if PLUS[0] in part {
        if part != PLUS {
          assert !LevelValid(part, i == |parts| - 1);
          return false;
        }
      }
    }
    return true;
  }

  lemma {:induction false} HashOnlyLast(levels: seq<Bytes>)
    requires forall i :: 0 <= i < |levels| - 1 ==> levels[i] != HASH
    ensures UpToHash(levels) == levels
    decreases |levels|
  {
    if levels != [] {
      assert levels == [levels[0]] + levels[1..];
      HashOnlyLast(levels[1..]);
    }
  }

  /** For valid filters the matcher is exactly the wildcard rule of section 4.7 of
      MQTT 3.1.1: an instance of the filter, not hidden by a leading '$'. */
  lemma ValidFilterMeaning(filter: Bytes, topic: Bytes)
    requires FilterValid(filter)
    ensures TopicMatch(filter, topic) <==>
            !DollarHidden(filter, topic) && Instance(Split(filter), Split(topic))
  {
    var levels := Split(filter);
    forall i | 0 <= i < |levels| - 1 ensures levels[i] != HASH {
      assert LevelValid(levels[i], i == |levels| - 1);
      assert HASH[0] in HASH;
    }
    HashOnlyLast(levels);
    MatchMeansInstance(levels, Split(topic));
  }
}
