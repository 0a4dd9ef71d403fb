/** Reachable queues: every message carries the stamp of the configuration, and looking at a
    queue of such messages (internal/broker/offline.go, GetOfflineMessages in broker.go). */
module OfflineStamps {
  import opened ByteStrings
  import opened Storage
  import opened OfflineQueue
  import opened OfflineStorage
  import opened OfflineCalls
  import opened OfflineRestart

  /** Every message in memory and in the store was stamped under this configuration. */
  ghost predicate AllStamped(cfg: Config, s: State) {
    && (forall c, m :: c in s.queues && m in s.queues[c] ==> Stamped(cfg, m))
    && (s.db.Some? ==> forall k :: k in s.db.value && s.db.value[k].Message? ==> Stamped(cfg, s.db.value[k].msg))
  }

  lemma {:induction false} WrittenStamped(cfg: Config, db: Database, c: Bytes, q: seq<OfflineMessage>)
    requires forall k :: k in db && db[k].Message? ==> Stamped(cfg, db[k].msg)
    requires forall m :: m in q ==> Stamped(cfg, m)
    ensures forall k :: k in Written(db, c, q) && Written(db, c, q)[k].Message? ==> Stamped(cfg, Written(db, c, q)[k].msg)
  {
    hide Stamped, MessageKey, SeqKey;
    if q != [] {
      assert forall m :: m in q[..|q| - 1] ==> m in q;
      WrittenStamped(cfg, db, c, q[..|q| - 1]);
    }
  }

  lemma PersistStamped(cfg: Config, s: State, c: Bytes)
    requires AllStamped(cfg, s)
    ensures AllStamped(cfg, Persist(s, c))
  {
    hide Stamped;
    if s.db.Some? {
      WrittenStamped(cfg, Cleared(s.db.value, c), c, QueueOf(s.queues, c));
    }
  }

  lemma {:induction false} LoadedStamped(cfg: Config, db: Database, keys: seq<Bytes>)
    requires forall k :: k in keys ==> k in db && HasPrefix(k, OM)
    requires forall k :: k in db && db[k].Message? ==> Stamped(cfg, db[k].msg)
    ensures forall c, m :: c in Loaded(db, map[], keys) && m in Loaded(db, map[], keys)[c] ==> Stamped(cfg, m)
  {
    hide Stamped, HasPrefix, ClientOf;
    if keys != [] { LoadedStamped(cfg, db, keys[..|keys| - 1]); }
  }

  lemma EnqueueStamped(cfg: Config, s: State, c: Bytes, m: OfflineMessage, now: int)
    requires AllStamped(cfg, s) && now != 0
    ensures AllStamped(cfg, EnqueueStep(cfg, s, c, m, now).0)
  {
    StampIdempotent(cfg, m, now, now);
    AdmitMembers(cfg, QueueOf(s.queues, c), m, now);
    hide Stamped, Stamp, Admit, Persist;
    var a := Admit(cfg, QueueOf(s.queues, c), m, now);
    var s' := s.(queues := s.queues[c := a.queue]);
    assert AllStamped(cfg, s');
    PersistStamped(cfg, s', c);
  }

  lemma DequeueStamped(cfg: Config, s: State, c: Bytes, n: nat, now: int)
    requires AllStamped(cfg, s)
    ensures AllStamped(cfg, DequeueStep(s, c, n, now).0)
  {
    hide Stamped, Persist;
    if c in s.queues {
      var d := Drain(s.queues[c], n, now);
      DrainMembers(s.queues[c], n, now);
      var s' := s.(queues := if d.rest == [] then s.queues - {c} else s.queues[c := d.rest]);
      assert AllStamped(cfg, s');
      PersistStamped(cfg, s', c);
    }
  }

  lemma DrainMembers(q: seq<OfflineMessage>, n: nat, now: int)
    ensures forall m :: m in Drain(q, n, now).rest ==> m in q
  {
    hide Live, StableSort;
    DrainAll(q, now);
    LiveMembers(q, now);
    assert forall m :: m in Drain(q, n, now).rest ==> m in StableSort(Live(q, now));
  }

  lemma NothingStamped(cfg: Config)
    ensures AllStamped(cfg, FRESH_STORE)
  {
  }

  lemma RemoveStamped(cfg: Config, s: State, c: Bytes)
    requires AllStamped(cfg, s)
    ensures AllStamped(cfg, RemoveAllStep(s, c))
  {
    hide Stamped, Persist;
    PersistStamped(cfg, s.(queues := s.queues - {c}), c);
  }

  lemma RestartStamped(cfg: Config, s: State)
    requires AllStamped(cfg, s)
    ensures AllStamped(cfg, RestartStep(s))
  {
    hide Stamped;
    if s.db.Some? { LoadedStamped(cfg, s.db.value, KeyOrder(KeysWith(s.db.value.Keys, OM))); }
  }

  /** The run is made under one configuration, and the clock is set. */
  ghost predicate Under(es: seq<Timed>, cfg: Config) {
    forall i :: 0 <= i < |es| ==> es[i].cfg == cfg && es[i].now != 0
  }

  lemma {:induction false} RunStamped(cfg: Config, es: seq<Timed>)
    requires Under(es, cfg)
    ensures AllStamped(cfg, Run(FRESH_STORE, es).state)
    decreases |es|
  {
    hide AllStamped, Persist, EnqueueStep, DequeueStep;
    if es == [] {
      NothingStamped(cfg);
    } else {
      var e, s := es[|es| - 1], Run(FRESH_STORE, es[..|es| - 1]).state;
      RunStamped(cfg, es[..|es| - 1]);
      match e.event
      case Enqueue(c, m) => EnqueueStamped(cfg, s, c, m, e.now);
      case Dequeue(c, n) => DequeueStamped(cfg, s, c, n, e.now);
      case RemoveAll(c) => RemoveStamped(cfg, s, c);
      case Restart => RestartStamped(cfg, s);
    }
  }

  lemma {:induction false} CallsStamped(cfg: Config, s: State, cs: seq<Call>)
    requires AllStamped(cfg, s) && forall i :: 0 <= i < |cs| ==> cs[i].now != 0
    ensures AllStamped(cfg, RunCalls(cfg, s, cs))
    decreases |cs|
  {
    hide AllStamped, EnqueueStep, DequeueStep, RemoveAllStep;
    if cs != [] {
      var n := |cs| - 1;
      var c, before := cs[n], RunCalls(cfg, s, cs[..n]);
      CallsStamped(cfg, s, cs[..n]);
      match c
      case Put(d, m, now) => EnqueueStamped(cfg, before, d, m, now);
      case PutBack(d, m, now) => EnqueueStamped(cfg, before, d, m, now);
      case Take(d, k, now) => DequeueStamped(cfg, before, d, k, now);
      case Erase(d, now) => RemoveStamped(cfg, before, d);
    }
  }

  /** A reachable queue is within the limit and stamped. */
  lemma ReachableQueue(cfg: Config, es: seq<Timed>, client: Bytes, now: int)
    requires Monotone(es) && PlainClients(es) && Under(es, cfg) && cfg.maxPerClient <= MAX_INT && Plain(client)
    requires forall i :: 0 <= i < |es| ==> es[i].now <= now
    ensures var q := QueueOf(Run(FRESH_STORE, es).state.queues, client);
            |q| <= Limit(cfg) && forall m :: m in q ==> Stamped(cfg, m)
  {
    hide Run, Plain, SameFrom, Live, Stamped;
    var s := Run(FRESH_STORE, es).state;
    RunAgrees(es, Limit(cfg), now);
    assert ClientAgrees(Limit(cfg), Run(IN_MEMORY, WithoutRestarts(es)).state, s, client, now);
    RunStamped(cfg, es);
  }

  // ----- Looking at a reachable queue -----

  /** The condition of a call on stamped messages: room, or nothing to lose. */
  predicate Room(cfg: Config, q: seq<OfflineMessage>, c: Call) {
    match c
    case Put(_, m, now) => |Live(q, now)| < cfg.maxPerClient || Rejects(cfg, q, m, now)
    case PutBack(_, m, now) => |Live(q, now)| < cfg.maxPerClient || (Expired(m, now) && Rejects(cfg, q, m, now))
    case Take(_, _, _) => true
    case Erase(_, _) => true
  }

  ghost predicate AllRoom(cfg: Config, t: Track, cs: seq<Call>) {
    cs == [] || (AllRoom(cfg, t, cs[..|cs| - 1]) && Room(cfg, TrackRun(cfg, t, cs[..|cs| - 1]).queue, cs[|cs| - 1]))
  }

  lemma {:induction false} RoomIsFit(cfg: Config, t: Track, cs: seq<Call>)
    requires forall m :: m in Backs(cs) ==> Stamped(cfg, m)
    ensures AllRoom(cfg, t, cs) <==> AllFit(cfg, t, cs)
    decreases |cs|
  {
    hide TrackRun, Live, Rejects, Expired;
    if cs != [] {
      var n := |cs| - 1;
      assert forall m :: m in Backs(cs[..n]) ==> m in Backs(cs);
      RoomIsFit(cfg, t, cs[..n]);
      if cs[n].PutBack? { assert Stamped(cfg, cs[n].msg); }
    }
  }

  lemma DrainedStamped(cfg: Config, s: State, client: Bytes, p: Peeking)
    requires AllStamped(cfg, s) && forall i :: 0 <= i < |p.counting| ==> p.counting[i].now != 0
    ensures forall m :: m in Draining(cfg, s, client, p).result ==> Stamped(cfg, m)
  {
    hide Stamped, Drain;
    CallsStamped(cfg, s, p.counting);
    var q := QueueOf(RunCalls(cfg, s, p.counting).queues, client);
    DrainedMembers(q, |QueueOf(s.queues, client)|, p.start);
  }

  lemma DrainedMembers(q: seq<OfflineMessage>, n: nat, now: int)
    ensures forall m :: m in Drain(q, n, now).result ==> m in q
  {
    hide Live, StableSort;
    DrainAll(q, now);
    LiveMembers(q, now);
    assert forall m :: m in Drain(q, n, now).result ==> m in StableSort(Live(q, now));
  }

  /** In every reachable state, with others at work: looking at a queue loses nothing at
      any point if and only if every call in between and every refill finds room. */
  lemma PeekRoom(cfg: Config, es: seq<Timed>, client: Bytes, p: Peeking)
    requires Under(es, cfg) && forall i :: 0 <= i < |p.counting| ==> p.counting[i].now != 0
    requires Undisturbed(p, client)
    requires var d := Draining(cfg, Run(FRESH_STORE, es).state, client, p);
             Timely(Own(Refills(client, d.result, p), client), p.start)
    ensures var d := Draining(cfg, Run(FRESH_STORE, es).state, client, p);
            var cs := Own(Refills(client, d.result, p), client);
            AlwaysBalanced(cfg, Begun(d), cs) <==> AllRoom(cfg, Begun(d), cs)
  {
    hide Run, Draining, AllRoom, AllFit, AlwaysBalanced, Own, Refills, Stamped;
    var s := Run(FRESH_STORE, es).state;
    var d := Draining(cfg, s, client, p);
    var cs := Own(Refills(client, d.result, p), client);
    RunStamped(cfg, es);
    DrainedStamped(cfg, s, client, p);
    RefillsPutBack(client, d.result, p);
    RoomIsFit(cfg, Begun(d), cs);
    PeekExactly(cfg, s, client, p, Ends(cs, p.start));
  }

  /** Nobody else calls about the client meanwhile. */
  ghost predicate Quiet(p: Peeking, client: Bytes) {
    Own(p.counting, client) == [] && forall i: nat :: Own(p.gaps(i), client) == []
  }

  lemma {:induction false} QuietRefills(client: Bytes, ms: seq<OfflineMessage>, p: Peeking)
    requires forall i: nat :: Own(p.gaps(i), client) == []
    ensures |Own(Refills(client, ms, p), client)| == |ms|
    ensures forall i :: 0 <= i < |ms| ==> Own(Refills(client, ms, p), client)[i] == PutBack(client, ms[i], p.clock(i))
    decreases |ms|
  {
    hide Own;
    if ms == [] {
      NoBacks(client);
      NoOwn(client);
    } else {
      var n := |ms| - 1;
      QuietRefills(client, ms[..n], p);
      var front, last := Refills(client, ms[..n], p), PutBack(client, ms[n], p.clock(n));
      OwnJoins(front + p.gaps(n), [last], client);
      OwnJoins(front, p.gaps(n), client);
      OneBack(last);
      assert Own(front, client) + [] == Own(front, client);
    }
  }

  lemma NoOwn(client: Bytes)
    ensures Own([], client) == []
  {
  }

  /** Refilling up to the limit always finds room. */
  lemma {:induction false} RefillRoom(cfg: Config, cs: seq<Call>)
    requires |cs| <= cfg.maxPerClient && forall i :: 0 <= i < |cs| ==> cs[i].PutBack?
    ensures AllRoom(cfg, Track([], [], []), cs)
    ensures var t := TrackRun(cfg, Track([], [], []), cs); |t.queue| <= |cs| && t.out == []
    ensures Newcomers(cfg, Track([], [], []), cs) == []
    decreases |cs|
  {
    hide Admit, Rejects;
    if cs != [] {
      var n := |cs| - 1;
      RefillRoom(cfg, cs[..n]);
      BoundedEviction(cfg, TrackRun(cfg, Track([], [], []), cs[..n]).queue, cs[n].msg, cs[n].now);
    }
  }

  /** In every reachable state of ids without '/', looking at a queue hands out all its
      live messages and loses none, if nobody else calls about the client meanwhile. */
  lemma PeekSafe(cfg: Config, es: seq<Timed>, client: Bytes, p: Peeking, later: int)
    requires Monotone(es) && PlainClients(es) && Under(es, cfg) && cfg.maxPerClient <= MAX_INT && Plain(client)
    requires forall i :: 0 <= i < |es| ==> es[i].now <= p.start
    requires Quiet(p, client) && forall i :: 0 <= i < |p.counting| ==> p.counting[i].now != 0
    requires forall i, j :: 0 <= i <= j ==> p.start <= p.clock(i) <= p.clock(j) <= later
    ensures var s := Run(FRESH_STORE, es).state; var q := QueueOf(s.queues, client);
            var (s', ms) := PeekRun(cfg, s, client, p);
            && multiset(ms) == multiset(Live(q, p.start))
            && multiset(Live(QueueOf(s'.queues, client), later)) == multiset(Live(q, later))
  {
    hide Run, RunCalls, TrackRun, AllFit, AlwaysBalanced, Own, Refills, Live, Stamped, Drain, StableSort, PeekRun, Plain;
    var s := Run(FRESH_STORE, es).state;
    var q := QueueOf(s.queues, client);
    ReachableQueue(cfg, es, client, p.start);
    QuietCounting(cfg, s, client, p);
    DrainAll(q, p.start);
    var d := Draining(cfg, s, client, p);
    assert d == Drained(StableSort(Live(q, p.start)), []);
    var cs := Own(Refills(client, d.result, p), client);
    QuietRefills(client, d.result, p);
    assert Undisturbed(p, client) by { NoBacksAnywhere(p, client); }
    assert Timely(cs, p.start);
    assert |d.result| <= |q| && p.start <= p.clock(0) <= later;
    assert cs != [] ==> Ends(cs, p.start) == p.clock(|cs| - 1) <= later;
    QuietBalance(cfg, s, client, p, q, d, cs, later);
  }

  lemma NoBacksAnywhere(p: Peeking, client: Bytes)
    requires Quiet(p, client)
    ensures Undisturbed(p, client)
  {
  }

  lemma QuietCounting(cfg: Config, s: State, client: Bytes, p: Peeking)
    requires Quiet(p, client)
    ensures QueueOf(RunCalls(cfg, s, p.counting).queues, client) == QueueOf(s.queues, client)
  {
    hide RunCalls, Own;
    var t := Track(QueueOf(s.queues, client), [], []);
    QueueTracked(cfg, s, p.counting, client, t);
    TrackNothing(cfg, t);
  }

  lemma QuietBalance(cfg: Config, s: State, client: Bytes, p: Peeking, q: seq<OfflineMessage>, d: Drained, cs: seq<Call>, later: int)
    requires d == Draining(cfg, s, client, p) && cs == Own(Refills(client, d.result, p), client)
    requires d.rest == [] && multiset(d.result) == multiset(Live(q, p.start)) && p.start <= later
    requires forall m :: m in q ==> Stamped(cfg, m)
    requires |cs| == |d.result| && forall i :: 0 <= i < |cs| ==> cs[i].PutBack?
    requires cs == [] || |cs| <= cfg.maxPerClient
    requires Undisturbed(p, client) && Timely(cs, p.start) && Ends(cs, p.start) <= later
    ensures PeekRun(cfg, s, client, p).1 == d.result
    ensures multiset(Live(QueueOf(PeekRun(cfg, s, client, p).0.queues, client), later)) == multiset(Live(q, later))
  {
    hide PeekRun, Draining, Own, Refills, Live, Stamped, TrackRun, AllFit, AllRoom, Newcomers;
    PeekExactly(cfg, s, client, p, later);
    if cs == [] { RoomNothing(cfg); } else { RefillRoom(cfg, cs); }
    RefillsPutBack(client, d.result, p);
    forall m | m in Backs(cs) ensures Stamped(cfg, m) {
      assert m in multiset(d.result);
      LiveMembers(q, p.start);
    }
    RoomIsFit(cfg, Begun(d), cs);
    LiveNothing(later);
    SameLater(d.result, q, p.start, later);
    var end := TrackRun(cfg, Begun(d), cs);
    assert Begun(d) == Track([], [], []) && end.out == [];
    assert multiset(Live(end.queue, later)) + multiset(Live(end.out, later)) == multiset(Live(end.queue, later));
  }

  lemma RoomNothing(cfg: Config)
    ensures AllRoom(cfg, Track([], [], []), []) && TrackRun(cfg, Track([], [], []), []) == Track([], [], [])
    ensures Newcomers(cfg, Track([], [], []), []) == []
  {
  }
}
