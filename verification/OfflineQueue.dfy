/** The per-client offline queue discipline: expiry, tiered time-to-live,
    priority eviction and stable draining (internal/broker/offline.go). */
module OfflineQueue {
  import opened ByteStrings

  const LOW: Byte := 2

  /** Instants are integers; 0 is Go's zero `time.Time`, meaning "not set". */
  datatype OfflineMessage = OfflineMessage(
    topic: Bytes, payload: Bytes, qos: Byte, priority: Byte, createdAt: int, expiresAt: int)

  datatype TierConfig = TierConfig(highTTL: int, midTTL: int, lowTTL: int)

  datatype Config = Config(maxPerClient: int, defaultTTL: int, tiers: Option<TierConfig>)

  // ----- Expiry -----

  predicate Expired(m: OfflineMessage, now: int) {
    m.expiresAt != 0 && now > m.expiresAt
  }

  /** The unexpired messages, in queue order. */
  function Live(q: seq<OfflineMessage>, now: int): (r: seq<OfflineMessage>)
    ensures |r| <= |q|
  {
    if q == [] then []
    else
      var last := |q| - 1;
      Live(q[..last], now) + (if Expired(q[last], now) then [] else [q[last]])
  }

  lemma {:induction false} LiveMembers(q: seq<OfflineMessage>, now: int)
    ensures forall m :: m in Live(q, now) <==> m in q && !Expired(m, now)
  {
    if q != [] {
      LiveMembers(q[..|q| - 1], now);
      assert q == q[..|q| - 1] + [q[|q| - 1]];
    }
  }

  lemma LiveSnoc(q: seq<OfflineMessage>, m: OfflineMessage, now: int)
    ensures Live(q + [m], now) == Live(q, now) + (if Expired(m, now) then [] else [m])
  {
    assert (q + [m])[..|q|] == q;
  }

  /** Dropping what has expired now does not change what is live later. */
  lemma {:induction false} LiveLater(q: seq<OfflineMessage>, now: int, later: int)
    requires now <= later
    ensures Live(Live(q, now), later) == Live(q, later)
  {
    if q != [] {
      var last := |q| - 1;
      LiveLater(q[..last], now, later);
      if Expired(q[last], now) {
        assert Live(q, now) == Live(q[..last], now);
      } else {
        LiveSnoc(Live(q[..last], now), q[last], later);
      }
    }
  }

  lemma {:induction false} LiveOfUnexpired(q: seq<OfflineMessage>, now: int)
    requires forall m :: m in q ==> !Expired(m, now)
    ensures Live(q, now) == q
  {
    if q != [] {
      var last := |q| - 1;
      assert q == q[..last] + [q[last]];
      assert forall m :: m in q[..last] ==> m in q;
      LiveOfUnexpired(q[..last], now);
    }
  }

  // ----- Stamping -----

  /** Creation time and tier- or default-specific expiry of an arriving message. */
  function Stamp(cfg: Config, m: OfflineMessage, now: int): OfflineMessage {
    var created := if m.createdAt == 0 then m.(createdAt := now) else m;
    if created.expiresAt != 0 then created
    else if cfg.tiers.Some? then
      if created.priority == 0 then created.(expiresAt := created.createdAt + cfg.tiers.value.highTTL)
      else if created.priority == 1 then created.(expiresAt := created.createdAt + cfg.tiers.value.midTTL)
      else if created.priority == 2 then created.(expiresAt := created.createdAt + cfg.tiers.value.lowTTL)
      else created
    else if cfg.defaultTTL > 0 then created.(expiresAt := created.createdAt + cfg.defaultTTL)
    else created
  }

  /** A message that some earlier arrival under this configuration stamped. */
  predicate Stamped(cfg: Config, m: OfflineMessage) {
    m.createdAt != 0 && Stamp(cfg, m, m.createdAt) == m
  }

  /** Stamping is idempotent: re-queueing a queued message does not extend its life. */
  lemma StampIdempotent(cfg: Config, m: OfflineMessage, now: int, again: int)
    requires now != 0
    ensures Stamped(cfg, Stamp(cfg, m, now))
    ensures Stamp(cfg, Stamp(cfg, m, now), again) == Stamp(cfg, m, now)
  {
  }

  // ----- Admission and eviction -----

  /** Position of the first message of priority `p`. */
  function FirstWith(q: seq<OfflineMessage>, p: int): (r: Option<nat>)
    ensures r.Some? ==> r.value < |q| && q[r.value].priority == p
    ensures r.Some? ==> forall j :: 0 <= j < r.value ==> q[j].priority != p
    ensures r.None? ==> forall j :: 0 <= j < |q| ==> q[j].priority != p
  {
    if q == [] then None
    else if q[0].priority == p then Some(0)
    else
      assert forall j :: 1 <= j < |q| ==> q[j] == q[1..][j - 1];
      var rest := FirstWith(q[1..], p);
      if rest.None? then None else Some(rest.value + 1)
  }

  /** The outer eviction loop: priorities from `p` down to the newcomer's. */
  function Victim(q: seq<OfflineMessage>, p: int, newcomer: Byte): Option<nat>
    decreases p - newcomer
  {
    if p < newcomer then None
    else if FirstWith(q, p).Some? then FirstWith(q, p)
    else Victim(q, p - 1, newcomer)
  }

  /** A message eviction may take: not beyond the lowest tier, and no more
      important than the newcomer. */
  predicate Evictable(m: OfflineMessage, newcomer: Byte) {
    newcomer <= m.priority <= LOW
  }

  /** The victim is the first of the least important evictable messages; there is
      none exactly when nothing is evictable. */
  lemma {:induction false} VictimExact(q: seq<OfflineMessage>, p: int, newcomer: Byte)
    requires forall m :: m in q && Evictable(m, newcomer) ==> m.priority <= p
    requires p <= LOW
    ensures Victim(q, p, newcomer).None? <==> forall m :: m in q ==> !Evictable(m, newcomer)
    ensures Victim(q, p, newcomer).Some? ==>
              var v := Victim(q, p, newcomer).value;
              && v < |q| && Evictable(q[v], newcomer)
              && (forall j :: 0 <= j < v && Evictable(q[j], newcomer) ==> q[j].priority < q[v].priority)
              && (forall j :: v <= j < |q| && Evictable(q[j], newcomer) ==> q[j].priority <= q[v].priority)
    decreases p - newcomer
  {
    if p >= newcomer {
      if FirstWith(q, p).Some? {
        var v := FirstWith(q, p).value;
        assert q[v] in q;
      } else {
        VictimExact(q, p - 1, newcomer);
      }
    }
  }

  function Without<T>(q: seq<T>, i: nat): seq<T>
    requires i < |q|
  {
    q[..i] + q[i + 1..]
  }

  datatype Admission = Admission(accepted: bool, queue: seq<OfflineMessage>)

  /** What `Enqueue` does to one client's queue. */
  function Admit(cfg: Config, q: seq<OfflineMessage>, m: OfflineMessage, now: int): Admission {
    var live := Live(q, now);
    var stamped := Stamp(cfg, m, now);
    if |live| < cfg.maxPerClient then Admission(true, live + [stamped])
    else if cfg.tiers.None? then Admission(false, live)
    else
      VictimInRange(live, LOW, m.priority);
      var victim := Victim(live, LOW, m.priority);
      if victim.None? then Admission(false, live)
      else Admission(true, Without(live, victim.value) + [stamped])
  }

  lemma VictimInRange(q: seq<OfflineMessage>, p: int, newcomer: Byte)
    ensures Victim(q, p, newcomer).Some? ==> Victim(q, p, newcomer).value < |q|
    decreases p - newcomer
  {
    if p >= newcomer && FirstWith(q, p).None? { VictimInRange(q, p - 1, newcomer); }
  }

  /** Bounded priority eviction, for every configuration, queue and priority byte. */
  lemma BoundedEviction(cfg: Config, q: seq<OfflineMessage>, m: OfflineMessage, now: int)
    ensures var live, r := Live(q, now), Admit(cfg, q, m, now);
            // The bound is kept, and a queue above it (loaded under a larger limit) never grows.
            && (|live| <= cfg.maxPerClient ==> |r.queue| <= cfg.maxPerClient)
            && |r.queue| <= |live| + 1 && (|live| >= cfg.maxPerClient ==> |r.queue| <= |live|)
            // Rejected exactly when full and every live message is out of eviction's reach.
            && (!r.accepted <==>
                (|live| >= cfg.maxPerClient
                 && (cfg.tiers.None? || forall x :: x in live ==> !Evictable(x, m.priority))))
            && (!r.accepted ==> r.queue == live)
            && (r.accepted && |live| < cfg.maxPerClient ==> r.queue == live + [Stamp(cfg, m, now)])
            // Otherwise exactly one message goes: the first of the least important ones.
            && (r.accepted && |live| >= cfg.maxPerClient ==>
                  exists v :: 0 <= v < |live|
                    && r.queue == Without(live, v) + [Stamp(cfg, m, now)]
                    && Evictable(live[v], m.priority)
                    && (forall j :: 0 <= j < |live| && Evictable(live[j], m.priority) ==>
                          live[j].priority < live[v].priority || (live[j].priority == live[v].priority && v <= j)))
  {
    var live := Live(q, now);
    VictimExact(live, LOW, m.priority);
    if |live| >= cfg.maxPerClient && cfg.tiers.Some? && Victim(live, LOW, m.priority).Some? {
      var v := Victim(live, LOW, m.priority).value;
      assert Admit(cfg, q, m, now).queue == Without(live, v) + [Stamp(cfg, m, now)];
    }
  }

  /** With the three documented priorities a full tiered queue rejects exactly the
      messages less important than everything queued. */
  lemma RejectedIffLeastImportant(cfg: Config, q: seq<OfflineMessage>, m: OfflineMessage, now: int)
    requires forall x :: x in q ==> x.priority <= LOW
    requires cfg.tiers.Some? && |Live(q, now)| >= cfg.maxPerClient
    ensures !Admit(cfg, q, m, now).accepted <==> forall x :: x in Live(q, now) ==> x.priority < m.priority
  {
    LiveMembers(q, now);
    BoundedEviction(cfg, q, m, now);
  }

  // ----- Stable draining order -----

  /** The comparison `Dequeue` sorts with: priority, then creation time. */
  predicate Before(a: OfflineMessage, b: OfflineMessage) {
    a.priority < b.priority || (a.priority == b.priority && a.createdAt < b.createdAt)
  }

  function Rank(m: OfflineMessage): (Byte, int) { (m.priority, m.createdAt) }

  /** Insert behind everything that does not have to come later. */
  function Insert(s: seq<OfflineMessage>, x: OfflineMessage): (r: seq<OfflineMessage>)
    ensures |r| == |s| + 1
  {
    if s == [] || !Before(x, s[|s| - 1]) then s + [x]
    else Insert(s[..|s| - 1], x) + [s[|s| - 1]]
  }

  /** `sort.SliceStable` with that comparison. */
  function StableSort(s: seq<OfflineMessage>): (r: seq<OfflineMessage>)
    ensures |r| == |s|
  {
    if s == [] then [] else Insert(StableSort(s[..|s| - 1]), s[|s| - 1])
  }

  ghost predicate Sorted(s: seq<OfflineMessage>) {
    forall i, j :: 0 <= i < j < |s| ==> !Before(s[j], s[i])
  }

  /** The messages of one rank, in order. */
  function OfRank(s: seq<OfflineMessage>, r: (Byte, int)): seq<OfflineMessage> {
    if s == [] then []
    else OfRank(s[..|s| - 1], r) + (if Rank(s[|s| - 1]) == r then [s[|s| - 1]] else [])
  }

  /** Same messages, and equal ranks keep their order. */
  ghost predicate StablePermutation(a: seq<OfflineMessage>, b: seq<OfflineMessage>) {
    multiset(a) == multiset(b) && forall r :: OfRank(a, r) == OfRank(b, r)
  }

  lemma {:induction false} InsertMembers(s: seq<OfflineMessage>, x: OfflineMessage)
    ensures multiset(Insert(s, x)) == multiset(s) + multiset{x}
    ensures forall m :: m in Insert(s, x) <==> m in s || m == x
  {
    hide Before;
    if !(s == [] || !Before(x, s[|s| - 1])) {
      InsertMembers(s[..|s| - 1], x);
      assert s == s[..|s| - 1] + [s[|s| - 1]];
    }
  }

  lemma SortedSnoc(s: seq<OfflineMessage>, x: OfflineMessage)
    requires Sorted(s) && forall m :: m in s ==> !Before(x, m)
    ensures Sorted(s + [x])
  {
  }

  /** Nothing in a sorted list has to come after its last message. */
  lemma LastGreatest(s: seq<OfflineMessage>)
    requires Sorted(s) && s != []
    ensures Sorted(s[..|s| - 1]) && forall m :: m in s ==> !Before(s[|s| - 1], m)
  {
  }

  lemma {:induction false} InsertSorted(s: seq<OfflineMessage>, x: OfflineMessage)
    requires Sorted(s)
    ensures Sorted(Insert(s, x))
  {
    hide Sorted;
    if s == [] {
      SortedSnoc([], x) by { assert Sorted([]) by { EmptySorted(); } }
    } else {
      var last := s[|s| - 1];
      LastGreatest(s);
      if !Before(x, last) {
        SortedSnoc(s, x);
      } else {
        InsertSorted(s[..|s| - 1], x);
        InsertMembers(s[..|s| - 1], x);
        forall m | m in Insert(s[..|s| - 1], x) ensures !Before(last, m) {
          assert m == x || m in s;
        }
        SortedSnoc(Insert(s[..|s| - 1], x), last);
      }
    }
  }

  lemma EmptySorted()
    ensures Sorted([])
  {
  }

  lemma {:induction false} InsertStable(s: seq<OfflineMessage>, x: OfflineMessage, r: (Byte, int))
    ensures OfRank(Insert(s, x), r) == OfRank(s + [x], r)
  {
    assert (s + [x])[..|s|] == s;
    if s == [] || !Before(x, s[|s| - 1]) {
    } else {
      var last := |s| - 1;
      var front := s[..last];
      InsertStable(front, x, r);
      assert (front + [x])[..last] == front;
      var t := Insert(front, x) + [s[last]];
      assert t[..|t| - 1] == Insert(front, x);
    }
  }

  lemma {:induction false} StableSortCorrect(s: seq<OfflineMessage>)
    ensures Sorted(StableSort(s)) && StablePermutation(StableSort(s), s)
  {
    if s != [] {
      var last := |s| - 1;
      var front := s[..last];
      StableSortCorrect(front);
      InsertSorted(StableSort(front), s[last]);
      InsertMembers(StableSort(front), s[last]);
      assert s == front + [s[last]];
      forall r ensures OfRank(StableSort(s), r) == OfRank(s, r) {
        InsertStable(StableSort(front), s[last], r);
        var t := StableSort(front) + [s[last]];
        assert t[..|t| - 1] == StableSort(front);
      }
    }
  }

  lemma OfRankMembers(s: seq<OfflineMessage>, r: (Byte, int))
    ensures forall m :: m in OfRank(s, r) <==> m in s && Rank(m) == r
  {
    if s != [] {
      OfRankMembers(s[..|s| - 1], r);
      assert s == s[..|s| - 1] + [s[|s| - 1]];
    }
  }

  lemma OfRankSnoc(s: seq<OfflineMessage>, r: (Byte, int))
    requires s != []
    ensures OfRank(s, r) == OfRank(s[..|s| - 1], r) + (if Rank(s[|s| - 1]) == r then [s[|s| - 1]] else [])
  {
  }

  /** The last message is the last of its rank. */
  lemma LastOfRank(s: seq<OfflineMessage>)
    requires s != []
    ensures var x := s[|s| - 1]; var of := OfRank(s, Rank(x)); of != [] && of[|of| - 1] == x
  {
  }

  /** A message of the other list is not greater than this list's last. */
  lemma NotBeyondLast(a: seq<OfflineMessage>, b: seq<OfflineMessage>)
    requires Sorted(a) && a != [] && b != []
    requires forall r :: OfRank(a, r) == OfRank(b, r)
    ensures !Before(a[|a| - 1], b[|b| - 1])
  {
    hide OfRank, Sorted, Before;
    var y := b[|b| - 1];
    OfRankMembers(a, Rank(y));
    OfRankMembers(b, Rank(y));
    assert y in OfRank(a, Rank(y));
    LastGreatest(a);
  }

  /** In both lists the last message is the last of the greatest rank. */
  lemma SameLast(a: seq<OfflineMessage>, b: seq<OfflineMessage>)
    requires Sorted(a) && Sorted(b) && a != []
    requires forall r :: OfRank(a, r) == OfRank(b, r)
    ensures b != [] && a[|a| - 1] == b[|b| - 1]
  {
    hide OfRank, Sorted;
    LastOfRank(a);
    if b == [] {
      OfRankMembers(b, Rank(a[|a| - 1]));
      assert false;
    }
    LastOfRank(b);
    NotBeyondLast(a, b);
    NotBeyondLast(b, a);
    assert Rank(a[|a| - 1]) == Rank(b[|b| - 1]);
  }

  /** There is only one sorted stable permutation, so any stable sort is this one. */
  lemma {:induction false} StableSortUnique(a: seq<OfflineMessage>, b: seq<OfflineMessage>)
    requires Sorted(a) && Sorted(b)
    requires forall r :: OfRank(a, r) == OfRank(b, r)
    ensures a == b
    decreases |a|
  {
    hide OfRank;
    if a == [] {
      if b != [] { SameLast(b, a); }
    } else {
      SameLast(a, b);
      var x := a[|a| - 1];
      var a', b' := a[..|a| - 1], b[..|b| - 1];
      forall r ensures OfRank(a', r) == OfRank(b', r) {
        OfRankSnoc(a, r);
        OfRankSnoc(b, r);
        var tail := if Rank(x) == r then [x] else [];
        EqualFronts(OfRank(a', r), OfRank(b', r), tail);
      }
      StableSortUnique(a', b');
      assert a == a' + [x] && b == b' + [x];
    }
  }

  lemma EqualFronts<T>(a: seq<T>, b: seq<T>, tail: seq<T>)
    requires a + tail == b + tail
    ensures a == b
  {
    assert |a| == |b|;
    assert (a + tail)[..|a|] == a && (b + tail)[..|a|] == b;
  }

  // ----- Draining -----

  datatype Drained = Drained(result: seq<OfflineMessage>, rest: seq<OfflineMessage>)

  /** What `Dequeue` does to one client's queue. */
  function Drain(q: seq<OfflineMessage>, maxCount: nat, now: int): Drained {
    var sorted := StableSort(Live(q, now));
    var count := if maxCount > |sorted| then |sorted| else maxCount;
    Drained(sorted[..count], sorted[count..])
  }

  /** Draining conserves messages: what is handed out followed by what stays is
      the one stable (priority, created-at) order of exactly the live messages. */
  lemma DrainConserves(q: seq<OfflineMessage>, maxCount: nat, now: int)
    ensures var d := Drain(q, maxCount, now);
            && Sorted(d.result + d.rest)
            && StablePermutation(d.result + d.rest, Live(q, now))
            && multiset(d.result) + multiset(d.rest) == multiset(Live(q, now))
            && (|d.result| == maxCount || d.rest == []) && |d.result| <= maxCount
  {
    hide Live, StableSort, Sorted, OfRank;
    var sorted := StableSort(Live(q, now));
    StableSortCorrect(Live(q, now));
    var d := Drain(q, maxCount, now);
    assert d.result + d.rest == sorted;
  }

  lemma DrainNothing(n: nat, now: int)
    ensures Drain([], n, now) == Drained([], [])
  {
  }

  /** Re-enqueueing a list of messages one by one. */
  function Refill(cfg: Config, q: seq<OfflineMessage>, ms: seq<OfflineMessage>, now: int): seq<OfflineMessage> {
    if ms == [] then q else Admit(cfg, Refill(cfg, q, ms[..|ms| - 1], now), ms[|ms| - 1], now).queue
  }

  /** `GetOfflineMessages`: drain everything, then put it all back. */
  function PeekAll(cfg: Config, q: seq<OfflineMessage>, now: int): Drained {
    var all := Drain(q, |q|, now);
    Drained(all.result, Refill(cfg, all.rest, all.result, now))
  }

  lemma AdmitFits(cfg: Config, q: seq<OfflineMessage>, m: OfflineMessage, now: int)
    requires forall x :: x in q ==> !Expired(x, now)
    requires Stamp(cfg, m, now) == m && |q| < cfg.maxPerClient
    ensures Admit(cfg, q, m, now) == Admission(true, q + [m])
  {
    LiveOfUnexpired(q, now);
  }

  lemma {:induction false} RefillFits(cfg: Config, ms: seq<OfflineMessage>, now: int)
    requires forall m :: m in ms ==> !Expired(m, now) && Stamp(cfg, m, now) == m
    requires |ms| <= cfg.maxPerClient
    ensures Refill(cfg, [], ms, now) == ms
  {
    if ms != [] {
      var last := |ms| - 1;
      assert ms == ms[..last] + [ms[last]];
      assert forall m :: m in ms[..last] ==> m in ms;
      RefillFits(cfg, ms[..last], now);
      AdmitFits(cfg, ms[..last], ms[last], now);
    }
  }

  lemma {:induction false} RefillBounded(cfg: Config, ms: seq<OfflineMessage>, now: int)
    ensures |Refill(cfg, [], ms, now)| <= if cfg.maxPerClient < 0 then 0 else cfg.maxPerClient
  {
    if ms != [] {
      var before := Refill(cfg, [], ms[..|ms| - 1], now);
      RefillBounded(cfg, ms[..|ms| - 1], now);
      BoundedEviction(cfg, before, ms[|ms| - 1], now);
    }
  }

  /** Whatever was queued again carries the stamp of this configuration. */
  lemma {:induction false} RefillStamped(cfg: Config, ms: seq<OfflineMessage>, now: int)
    ensures forall m :: m in Refill(cfg, [], ms, now) ==> Stamp(cfg, m, now) == m
  {
    if ms != [] {
      var before, m := Refill(cfg, [], ms[..|ms| - 1], now), ms[|ms| - 1];
      RefillStamped(cfg, ms[..|ms| - 1], now);
      AdmitMembers(cfg, before, m, now);
      assert Stamp(cfg, Stamp(cfg, m, now), now) == Stamp(cfg, m, now);
    }
  }

  /** Admission adds the stamped newcomer at most. */
  lemma AdmitMembers(cfg: Config, q: seq<OfflineMessage>, m: OfflineMessage, now: int)
    ensures forall x :: x in Admit(cfg, q, m, now).queue ==> x in q || x == Stamp(cfg, m, now)
  {
    LiveMembers(q, now);
    hide Stamp, Victim;
    VictimInRange(Live(q, now), LOW, m.priority);
  }

  /** Peeking hands out every live message. It leaves the queue holding the same
      messages if and only if they all fit under the limit and this configuration would
      not stamp any of them anew. */
  lemma PeekConserves(cfg: Config, q: seq<OfflineMessage>, now: int)
    ensures multiset(PeekAll(cfg, q, now).result) == multiset(Live(q, now))
    ensures multiset(PeekAll(cfg, q, now).rest) == multiset(Live(q, now)) <==>
            Live(q, now) == [] ||
            (|Live(q, now)| <= cfg.maxPerClient && forall m :: m in Live(q, now) ==> Stamp(cfg, m, now) == m)
    ensures multiset(PeekAll(cfg, q, now).rest) == multiset(Live(q, now)) ==>
            PeekAll(cfg, q, now).rest == StableSort(Live(q, now))
  {
    hide Stamp, Admit, Refill, Live, StableSort;
    var live, result := Live(q, now), StableSort(Live(q, now));
    DrainAll(q, now);
    var rest := Refill(cfg, [], result, now);
    if live == [] {
      RefillNothing(cfg, now);
    } else if |live| <= cfg.maxPerClient && forall m :: m in live ==> Stamp(cfg, m, now) == m {
      RefillFits(cfg, result, now);
    } else {
      RefillBounded(cfg, result, now);
      RefillStamped(cfg, result, now);
      if multiset(rest) == multiset(live) {
        SameSize(rest, live);
        forall m | m in live ensures Stamp(cfg, m, now) == m {
          assert m in multiset(rest);
        }
      }
    }
  }

  lemma SameSize(a: seq<OfflineMessage>, b: seq<OfflineMessage>)
    requires multiset(a) == multiset(b)
    ensures |a| == |b|
  {
    assert |a| == |multiset(a)| == |multiset(b)| == |b|;
  }

  /** Draining as much as is queued hands out all live messages, none of them expired. */
  lemma DrainAll(q: seq<OfflineMessage>, now: int)
    ensures Drain(q, |q|, now) == Drained(StableSort(Live(q, now)), [])
    ensures multiset(StableSort(Live(q, now))) == multiset(Live(q, now))
    ensures forall m :: m in StableSort(Live(q, now)) <==> m in Live(q, now)
    ensures forall m :: m in Live(q, now) ==> !Expired(m, now)
  {
    hide Live, StableSort, Sorted, OfRank;
    var live := Live(q, now);
    StableSortCorrect(live);
    LiveMembers(q, now);
    forall m ensures m in StableSort(live) <==> m in live {
      assert m in StableSort(live) <==> m in multiset(StableSort(live));
    }
  }

  lemma RefillNothing(cfg: Config, now: int)
    ensures Refill(cfg, [], [], now) == []
  {
  }
}
