/** The offline store under concurrent callers: every call is locked on its own, and
    GetOfflineMessages in internal/broker/broker.go is a Count, a Dequeue and one Enqueue per
    message, with anything in between (internal/broker/offline.go). */
module OfflineCalls {
  import opened ByteStrings
  import opened OfflineQueue
  import opened OfflineStorage

  /** `PutBack` is an Enqueue like `Put`, of a message that was taken out to be looked at. */
  datatype Call =
    | Put(client: Bytes, msg: OfflineMessage, now: int)
    | PutBack(client: Bytes, msg: OfflineMessage, now: int)
    | Take(client: Bytes, maxCount: nat, now: int)
    | Erase(client: Bytes, now: int)

  function CallStep(cfg: Config, s: State, c: Call): State {
    match c
    case Put(d, m, now) => EnqueueStep(cfg, s, d, m, now).0
    case PutBack(d, m, now) => EnqueueStep(cfg, s, d, m, now).0
    case Take(d, n, now) => DequeueStep(s, d, n, now).0
    case Erase(d, now) => RemoveAllStep(s, d)
  }

  function RunCalls(cfg: Config, s: State, cs: seq<Call>): State {
    if cs == [] then s else CallStep(cfg, RunCalls(cfg, s, cs[..|cs| - 1]), cs[|cs| - 1])
  }

  lemma RunNothing(cfg: Config, s: State)
    ensures RunCalls(cfg, s, []) == s
  {
  }

  lemma RunLast(cfg: Config, s: State, cs: seq<Call>, c: Call)
    ensures RunCalls(cfg, s, cs + [c]) == CallStep(cfg, RunCalls(cfg, s, cs), c)
  {
    hide CallStep;
    assert (cs + [c])[..|cs|] == cs;
  }

  lemma {:induction false} RunJoins(cfg: Config, s: State, cs: seq<Call>, later: seq<Call>)
    ensures RunCalls(cfg, s, cs + later) == RunCalls(cfg, RunCalls(cfg, s, cs), later)
    decreases |later|
  {
    hide CallStep;
    if later == [] {
      assert cs + later == cs;
    } else {
      var n := |later| - 1;
      assert (cs + later)[..|cs| + n] == cs + later[..n];
      RunJoins(cfg, s, cs, later[..n]);
    }
  }

  // ----- One client's queue, and what became of its messages -----

  /** `kept` is what was there, was accepted or was to be put back; `out` what was taken
      out or erased. */
  datatype Track = Track(queue: seq<OfflineMessage>, kept: seq<OfflineMessage>, out: seq<OfflineMessage>)

  function TrackStep(cfg: Config, t: Track, c: Call): Track {
    match c
    case Put(_, m, now) =>
      var a := Admit(cfg, t.queue, m, now);
      t.(queue := a.queue, kept := if a.accepted then t.kept + [Stamp(cfg, m, now)] else t.kept)
    case PutBack(_, m, now) => t.(queue := Admit(cfg, t.queue, m, now).queue, kept := t.kept + [m])
    case Take(_, n, now) => t.(queue := Drain(t.queue, n, now).rest, out := t.out + Drain(t.queue, n, now).result)
    case Erase(_, now) => t.(queue := [], out := t.out + t.queue)
  }

  function TrackRun(cfg: Config, t: Track, cs: seq<Call>): Track {
    if cs == [] then t else TrackStep(cfg, TrackRun(cfg, t, cs[..|cs| - 1]), cs[|cs| - 1])
  }

  function Own(cs: seq<Call>, client: Bytes): seq<Call> {
    if cs == [] then []
    else Own(cs[..|cs| - 1], client) + if cs[|cs| - 1].client == client then [cs[|cs| - 1]] else []
  }

  lemma CallQueue(cfg: Config, s: State, c: Call, d: Bytes, t: Track)
    requires t.queue == QueueOf(s.queues, d)
    ensures QueueOf(CallStep(cfg, s, c).queues, d) == if c.client == d then TrackStep(cfg, t, c).queue else t.queue
  {
    hide Admit, Drain, Rewritten;
    if c.Take? { DrainNothing(c.maxCount, c.now); }
  }

  /** A client's queue depends on the calls about that client alone. */
  lemma {:induction false} QueueTracked(cfg: Config, s: State, cs: seq<Call>, d: Bytes, t: Track)
    requires t.queue == QueueOf(s.queues, d)
    ensures QueueOf(RunCalls(cfg, s, cs).queues, d) == TrackRun(cfg, t, Own(cs, d)).queue
    decreases |cs|
  {
    hide CallStep, TrackStep;
    if cs != [] {
      var n := |cs| - 1;
      QueueTracked(cfg, s, cs[..n], d, t);
      CallQueue(cfg, RunCalls(cfg, s, cs[..n]), cs[n], d, TrackRun(cfg, t, Own(cs[..n], d)));
      var own := Own(cs[..n], d) + [cs[n]];
      assert own[..|own| - 1] == Own(cs[..n], d);
      assert cs[n].client != d ==> Own(cs, d) == Own(cs[..n], d);
    }
  }

  // ----- Balance -----

  lemma {:induction false} LiveJoins(a: seq<OfflineMessage>, b: seq<OfflineMessage>, now: int)
    ensures Live(a + b, now) == Live(a, now) + Live(b, now)
    decreases |b|
  {
    if b == [] {
      assert a + b == a && Live(a, now) + [] == Live(a, now);
    } else {
      var n := |b| - 1;
      assert a + b == (a + b[..n]) + [b[n]] && b == b[..n] + [b[n]];
      LiveJoins(a, b[..n], now);
      LiveSnoc(a + b[..n], b[n], now);
      LiveSnoc(b[..n], b[n], now);
    }
  }

  lemma {:induction false} LiveCount(q: seq<OfflineMessage>, now: int, m: OfflineMessage)
    ensures multiset(Live(q, now))[m] == if Expired(m, now) then 0 else multiset(q)[m]
    decreases |q|
  {
    hide Live, Expired;
    if q == [] {
      LiveNothing(now);
    } else {
      var n := |q| - 1;
      LiveCount(q[..n], now, m);
      LiveSnoc(q[..n], q[n], now);
      assert q == q[..n] + [q[n]];
      assert multiset(q) == multiset(q[..n]) + multiset{q[n]};
    }
  }

  /** Nothing live is missing and nothing is made up. */
  ghost predicate Balanced(t: Track, now: int) {
    multiset(Live(t.kept, now)) == multiset(Live(t.queue, now)) + multiset(Live(t.out, now))
  }

  lemma BalancedLater(t: Track, now: int, later: int)
    requires Balanced(t, now) && now <= later
    ensures Balanced(t, later)
  {
    hide Live, Expired;
    forall m ensures multiset(Live(t.kept, later))[m] == multiset(Live(t.queue, later))[m] + multiset(Live(t.out, later))[m] {
      LiveTwice(t.kept, now, later, m);
      LiveTwice(t.queue, now, later, m);
      LiveTwice(t.out, now, later, m);
    }
  }

  lemma LiveTwice(q: seq<OfflineMessage>, now: int, later: int, m: OfflineMessage)
    requires now <= later
    ensures multiset(Live(q, later))[m] == if Expired(m, later) then 0 else multiset(Live(q, now))[m]
  {
    hide Live;
    LiveLater(q, now, later);
    LiveCount(Live(q, now), later, m);
  }

  lemma SameLater(a: seq<OfflineMessage>, q: seq<OfflineMessage>, now: int, later: int)
    requires multiset(a) == multiset(Live(q, now)) && now <= later
    ensures multiset(Live(a, later)) == multiset(Live(q, later))
  {
    hide Live, Expired;
    forall m ensures multiset(Live(a, later))[m] == multiset(Live(q, later))[m] {
      LiveCount(a, later, m);
      LiveTwice(q, now, later, m);
    }
  }

  /** A full queue turns the message away without evicting. */
  predicate Rejects(cfg: Config, q: seq<OfflineMessage>, m: OfflineMessage, now: int) {
    |Live(q, now)| >= cfg.maxPerClient
    && (cfg.tiers.None? || forall x :: x in Live(q, now) ==> !Evictable(x, m.priority))
  }

  /** The call keeps the balance: it finds room, or is a newcomer turned away, or puts
      back what has expired meanwhile. */
  predicate Fits(cfg: Config, q: seq<OfflineMessage>, c: Call) {
    match c
    case Put(_, m, now) => |Live(q, now)| < cfg.maxPerClient || Rejects(cfg, q, m, now)
    case PutBack(_, m, now) =>
      if Expired(m, now) then |Live(q, now)| < cfg.maxPerClient || Rejects(cfg, q, m, now)
      else |Live(q, now)| < cfg.maxPerClient && Stamp(cfg, m, now) == m
    case Take(_, _, _) => true
    case Erase(_, _) => true
  }

  /** The queue after an admission: as it was, one more, or one exchanged. */
  lemma AdmitShape(cfg: Config, q: seq<OfflineMessage>, m: OfflineMessage, now: int)
    ensures var live, a, x := Live(q, now), Admit(cfg, q, m, now), Stamp(cfg, m, now);
            && Live(live, now) == live
            && (Rejects(cfg, q, m, now) ==> a == Admission(false, live))
            && (|live| < cfg.maxPerClient ==> a == Admission(true, live + [x]))
            && (|live| >= cfg.maxPerClient && !Rejects(cfg, q, m, now) ==>
                  a.accepted && |Live(a.queue, now)| < |live| + |Live([x], now)|)
  {
    BoundedEviction(cfg, q, m, now);
    LiveLater(q, now, now);
    var live, a, x := Live(q, now), Admit(cfg, q, m, now), Stamp(cfg, m, now);
    hide Admit, Stamp;
    if |live| >= cfg.maxPerClient && !Rejects(cfg, q, m, now) {
      var v :| 0 <= v < |live| && a.queue == Without(live, v) + [x];
      LiveJoins(Without(live, v), [x], now);
    }
  }

  lemma LiveOne(m: OfflineMessage, now: int)
    ensures Live([m], now) == if Expired(m, now) then [] else [m]
  {
    LiveSnoc([], m, now);
    assert [] + [m] == [m];
  }

  lemma PutFits(cfg: Config, t: Track, m: OfflineMessage, now: int, c: Call)
    requires Balanced(t, now) && c == Put(c.client, m, now)
    ensures Balanced(TrackStep(cfg, t, c), now) <==> Fits(cfg, t.queue, c)
  {
    hide Live, Admit, Stamp, Rejects;
    var live, x := Live(t.queue, now), Stamp(cfg, m, now);
    AdmitShape(cfg, t.queue, m, now);
    LiveJoins(live, [x], now);
    LiveJoins(t.kept, [x], now);
    var t' := TrackStep(cfg, t, c);
    if !Fits(cfg, t.queue, c) {
      Sizes(t', now);
      Sizes(t, now);
    }
  }

  /** A balance in numbers. */
  lemma Sizes(t: Track, now: int)
    ensures Balanced(t, now) ==> |Live(t.kept, now)| == |Live(t.queue, now)| + |Live(t.out, now)|
  {
    hide Live;
    if Balanced(t, now) {
      assert |multiset(Live(t.kept, now))| == |multiset(Live(t.queue, now)) + multiset(Live(t.out, now))|;
    }
  }

  lemma StampExpired(cfg: Config, m: OfflineMessage, now: int)
    requires Expired(m, now)
    ensures Expired(Stamp(cfg, m, now), now)
  {
  }

  lemma PutBackFits(cfg: Config, t: Track, m: OfflineMessage, now: int, c: Call)
    requires Balanced(t, now) && c == PutBack(c.client, m, now)
    ensures Balanced(TrackStep(cfg, t, c), now) <==> Fits(cfg, t.queue, c)
  {
    hide Live, Admit, Stamp, Rejects, Expired;
    var live, x := Live(t.queue, now), Stamp(cfg, m, now);
    AdmitShape(cfg, t.queue, m, now);
    LiveJoins(live, [x], now);
    LiveJoins(t.kept, [m], now);
    LiveOne(m, now);
    LiveOne(x, now);
    if Expired(m, now) { StampExpired(cfg, m, now); }
    var t' := TrackStep(cfg, t, c);
    Sizes(t', now);
    Sizes(t, now);
    if |live| < cfg.maxPerClient && !Expired(m, now) && x != m {
      Exchanged(t, live, m, Live([x], now), now);
    }
  }

  /** Another message in the place of a live one upsets the balance. */
  lemma Exchanged(t: Track, live: seq<OfflineMessage>, m: OfflineMessage, other: seq<OfflineMessage>, now: int)
    requires Balanced(t, now) && live == Live(t.queue, now) && m !in other
    ensures multiset(Live(t.kept, now) + [m]) != multiset(live + other) + multiset(Live(t.out, now))
  {
    hide Live;
    assert multiset(Live(t.kept, now) + [m])[m] == multiset(Live(t.kept, now))[m] + 1;
    assert multiset(live + other)[m] == multiset(live)[m];
  }

  lemma TakeFits(cfg: Config, t: Track, c: Call)
    requires Balanced(t, c.now) && (c.Take? || c.Erase?)
    ensures Balanced(TrackStep(cfg, t, c), c.now)
  {
    hide Live, Drain, StableSort;
    if c.Take? {
      DrainLive(t.queue, c.maxCount, c.now);
      LiveJoins(t.out, Drain(t.queue, c.maxCount, c.now).result, c.now);
    } else {
      LiveJoins(t.out, t.queue, c.now);
      LiveNothing(c.now);
    }
  }

  lemma LiveNothing(now: int)
    ensures Live([], now) == []
  {
  }

  lemma DrainLive(q: seq<OfflineMessage>, n: nat, now: int)
    ensures var d := Drain(q, n, now);
            multiset(Live(d.result, now)) + multiset(Live(d.rest, now)) == multiset(Live(q, now))
  {
    var d := Drain(q, n, now);
    DrainConserves(q, n, now);
    hide Live, Drain, StableSort;
    forall m ensures multiset(Live(d.result, now))[m] + multiset(Live(d.rest, now))[m] == multiset(Live(q, now))[m] {
      LiveCount(d.result, now, m);
      LiveCount(d.rest, now, m);
      LiveCount(q, now, m);
      assert multiset(d.result)[m] + multiset(d.rest)[m] == multiset(Live(q, now))[m];
    }
  }

  lemma FitsExactly(cfg: Config, t: Track, c: Call)
    requires Balanced(t, c.now)
    ensures Balanced(TrackStep(cfg, t, c), c.now) <==> Fits(cfg, t.queue, c)
  {
    hide Balanced, TrackStep, Rejects;
    match c
    case Put(_, m, now) => PutFits(cfg, t, m, now, c);
    case PutBack(_, m, now) => PutBackFits(cfg, t, m, now, c);
    case Take(_, _, _) => TakeFits(cfg, t, c);
    case Erase(_, _) => TakeFits(cfg, t, c);
  }

  // ----- Over whole runs of calls -----

  ghost predicate Timely(cs: seq<Call>, start: int) {
    && (forall i :: 0 <= i < |cs| ==> start <= cs[i].now)
    && (forall i, j :: 0 <= i < j < |cs| ==> cs[i].now <= cs[j].now)
  }

  /** Every call finds its condition in the queue it meets. */
  ghost predicate AllFit(cfg: Config, t: Track, cs: seq<Call>) {
    cs == [] || (AllFit(cfg, t, cs[..|cs| - 1]) && Fits(cfg, TrackRun(cfg, t, cs[..|cs| - 1]).queue, cs[|cs| - 1]))
  }

  /** After every call the balance holds. */
  ghost predicate AlwaysBalanced(cfg: Config, t: Track, cs: seq<Call>) {
    cs == [] || (AlwaysBalanced(cfg, t, cs[..|cs| - 1]) && Balanced(TrackRun(cfg, t, cs), cs[|cs| - 1].now))
  }

  function Ends(cs: seq<Call>, start: int): int { if cs == [] then start else cs[|cs| - 1].now }

  /** Over any calls on one client's queue, nothing is lost at any point if and only if
      every call finds its condition. */
  lemma {:induction false} RunFitsExactly(cfg: Config, t: Track, cs: seq<Call>, start: int)
    requires Balanced(t, start) && Timely(cs, start)
    ensures AlwaysBalanced(cfg, t, cs) <==> AllFit(cfg, t, cs)
    ensures AllFit(cfg, t, cs) ==> Balanced(TrackRun(cfg, t, cs), Ends(cs, start))
    decreases |cs|
  {
    hide Balanced, Fits, TrackStep, TrackRun;
    if cs == [] {
      TrackNothing(cfg, t);
    } else {
      var n := |cs| - 1;
      var front := cs[..n];
      TrackSnoc(cfg, t, cs);
      RunFitsExactly(cfg, t, front, start);
      var before := TrackRun(cfg, t, front);
      if AllFit(cfg, t, front) {
        BalancedLater(before, Ends(front, start), cs[n].now);
        FitsExactly(cfg, before, cs[n]);
      }
    }
  }

  lemma TrackNothing(cfg: Config, t: Track)
    ensures TrackRun(cfg, t, []) == t
  {
  }

  lemma TrackSnoc(cfg: Config, t: Track, cs: seq<Call>)
    requires cs != []
    ensures TrackRun(cfg, t, cs) == TrackStep(cfg, TrackRun(cfg, t, cs[..|cs| - 1]), cs[|cs| - 1])
  {
  }

  /** The newcomers that were accepted. */
  function Newcomers(cfg: Config, t: Track, cs: seq<Call>): seq<OfflineMessage> {
    if cs == [] then []
    else
      var n := |cs| - 1;
      Newcomers(cfg, t, cs[..n]) +
      if cs[n].Put? && Admit(cfg, TrackRun(cfg, t, cs[..n]).queue, cs[n].msg, cs[n].now).accepted
      then [Stamp(cfg, cs[n].msg, cs[n].now)] else []
  }

  function Backs(cs: seq<Call>): seq<OfflineMessage> {
    if cs == [] then [] else Backs(cs[..|cs| - 1]) + if cs[|cs| - 1].PutBack? then [cs[|cs| - 1].msg] else []
  }

  lemma {:induction false} KeptParts(cfg: Config, t: Track, cs: seq<Call>)
    ensures multiset(TrackRun(cfg, t, cs).kept) == multiset(t.kept) + multiset(Backs(cs)) + multiset(Newcomers(cfg, t, cs))
    decreases |cs|
  {
    hide Admit, Stamp, TrackStep, TrackRun;
    if cs == [] {
      TrackNothing(cfg, t);
    } else {
      var n := |cs| - 1;
      KeptParts(cfg, t, cs[..n]);
      TrackSnoc(cfg, t, cs);
      KeptStep(cfg, TrackRun(cfg, t, cs[..n]), cs[n]);
      assert multiset(Backs(cs)) == multiset(Backs(cs[..n])) + if cs[n].PutBack? then multiset{cs[n].msg} else multiset{};
    }
  }

  lemma KeptStep(cfg: Config, t: Track, c: Call)
    ensures multiset(TrackStep(cfg, t, c).kept) == multiset(t.kept)
            + (if c.PutBack? then multiset{c.msg} else multiset{})
            + (if c.Put? && Admit(cfg, t.queue, c.msg, c.now).accepted then multiset{Stamp(cfg, c.msg, c.now)} else multiset{})
  {
    hide Admit, Stamp, Drain;
  }

  // ----- Looking at a queue -----

  /** What other callers do during `GetOfflineMessages`, and its clock readings. */
  datatype Peeking = Peeking(counting: seq<Call>, start: int, gaps: nat -> seq<Call>, clock: nat -> int)

  /** Enqueueing the messages again, with other calls before each. */
  function Refills(client: Bytes, ms: seq<OfflineMessage>, p: Peeking): seq<Call> {
    if ms == [] then []
    else
      var n := |ms| - 1;
      Refills(client, ms[..n], p) + p.gaps(n) + [PutBack(client, ms[n], p.clock(n))]
  }

  /** Count, other calls, Dequeue of that many, then the refills. */
  function PeekRun(cfg: Config, s: State, client: Bytes, p: Peeking): (State, seq<OfflineMessage>) {
    var (drained, ms) :=
      DequeueStep(RunCalls(cfg, s, p.counting), client, |QueueOf(s.queues, client)|, p.start);
    (RunCalls(cfg, drained, Refills(client, ms, p)), ms)
  }

  /** The queue that is drained, and what draining leaves and takes. */
  function Draining(cfg: Config, s: State, client: Bytes, p: Peeking): Drained {
    Drain(QueueOf(RunCalls(cfg, s, p.counting).queues, client), |QueueOf(s.queues, client)|, p.start)
  }

  function Begun(d: Drained): Track { Track(d.rest, d.rest, []) }

  lemma DequeueQueue(s: State, client: Bytes, n: nat, now: int)
    ensures var (s', ms) := DequeueStep(s, client, n, now);
            var d := Drain(QueueOf(s.queues, client), n, now);
            ms == d.result && QueueOf(s'.queues, client) == d.rest
  {
    hide Drain, Rewritten;
    DrainNothing(n, now);
  }

  lemma {:induction false} OwnJoins(a: seq<Call>, b: seq<Call>, client: Bytes)
    ensures Own(a + b, client) == Own(a, client) + Own(b, client)
    decreases |b|
  {
    if b == [] {
      assert a + b == a;
    } else {
      var n := |b| - 1;
      assert (a + b)[..|a| + n] == a + b[..n];
      OwnJoins(a, b[..n], client);
    }
  }

  lemma {:induction false} BacksJoin(a: seq<Call>, b: seq<Call>)
    ensures Backs(a + b) == Backs(a) + Backs(b)
    decreases |b|
  {
    if b == [] {
      assert a + b == a;
    } else {
      var n := |b| - 1;
      assert (a + b)[..|a| + n] == a + b[..n];
      BacksJoin(a, b[..n]);
    }
  }

  /** Nobody else puts messages back for this client meanwhile. */
  ghost predicate Undisturbed(p: Peeking, client: Bytes) {
    forall i: nat :: Backs(Own(p.gaps(i), client)) == []
  }

  lemma NoBacks(client: Bytes)
    ensures Backs(Own([], client)) == []
  {
  }

  lemma OneBack(c: Call)
    ensures Own([c], c.client) == [c] && Backs([c]) == if c.PutBack? then [c.msg] else []
  {
    var cs := [c];
    assert cs[..0] == [];
    assert Own(cs[..0], c.client) == [] && Backs(cs[..0]) == [];
  }

  lemma {:induction false} RefillsPutBack(client: Bytes, ms: seq<OfflineMessage>, p: Peeking)
    requires Undisturbed(p, client)
    ensures Backs(Own(Refills(client, ms, p), client)) == ms
    decreases |ms|
  {
    hide Own, Backs;
    if ms == [] {
      NoBacks(client);
    } else {
      var n := |ms| - 1;
      var front, gap, last := Refills(client, ms[..n], p), p.gaps(n), [PutBack(client, ms[n], p.clock(n))];
      RefillsPutBack(client, ms[..n], p);
      OwnJoins(front + gap, last, client);
      OwnJoins(front, gap, client);
      BacksJoin(Own(front, client) + Own(gap, client), Own(last, client));
      BacksJoin(Own(front, client), Own(gap, client));
      OneBack(last[0]);
      assert ms[..n] + [] + [ms[n]] == ms;
    }
  }

  /** Looking at a queue with others at work: at every point nothing is lost if and only
      if every call in between and every refill finds its condition. In that case, at the
      end, the queue and what others took out are what was drained, what the drain left
      and what was accepted meanwhile. */
  lemma PeekExactly(cfg: Config, s: State, client: Bytes, p: Peeking, later: int)
    requires Undisturbed(p, client)
    requires var d := Draining(cfg, s, client, p); Timely(Own(Refills(client, d.result, p), client), p.start)
    requires var d := Draining(cfg, s, client, p); Ends(Own(Refills(client, d.result, p), client), p.start) <= later
    ensures var d := Draining(cfg, s, client, p); var cs := Own(Refills(client, d.result, p), client);
            var end := TrackRun(cfg, Begun(d), cs);
            && PeekRun(cfg, s, client, p).1 == d.result
            && QueueOf(PeekRun(cfg, s, client, p).0.queues, client) == end.queue
            && (AlwaysBalanced(cfg, Begun(d), cs) <==> AllFit(cfg, Begun(d), cs))
            && (AllFit(cfg, Begun(d), cs) ==>
                  multiset(Live(end.queue, later)) + multiset(Live(end.out, later)) ==
                  multiset(Live(d.result, later)) + multiset(Live(d.rest, later)) + multiset(Live(Newcomers(cfg, Begun(d), cs), later)))
  {
    hide Drain, RunCalls, Refills, TrackRun, AllFit, AlwaysBalanced, Balanced, Own, Live;
    var d := Draining(cfg, s, client, p);
    var cs := Own(Refills(client, d.result, p), client);
    var s1 := RunCalls(cfg, s, p.counting);
    DequeueQueue(s1, client, |QueueOf(s.queues, client)|, p.start);
    var drained := DequeueStep(s1, client, |QueueOf(s.queues, client)|, p.start).0;
    QueueTracked(cfg, drained, Refills(client, d.result, p), client, Begun(d));
    StartBalanced(d, p.start);
    RunFitsExactly(cfg, Begun(d), cs, p.start);
    if AllFit(cfg, Begun(d), cs) {
      var end := TrackRun(cfg, Begun(d), cs);
      BalancedLater(end, Ends(cs, p.start), later);
      KeptParts(cfg, Begun(d), cs);
      RefillsPutBack(client, d.result, p);
      KeptLive(end, d.rest, d.result, Newcomers(cfg, Begun(d), cs), later);
    }
  }

  lemma StartBalanced(d: Drained, now: int)
    ensures Balanced(Begun(d), now)
  {
    LiveNothing(now);
  }

  lemma KeptLive(t: Track, a: seq<OfflineMessage>, b: seq<OfflineMessage>, c: seq<OfflineMessage>, now: int)
    requires Balanced(t, now) && multiset(t.kept) == multiset(a) + multiset(b) + multiset(c)
    ensures multiset(Live(t.queue, now)) + multiset(Live(t.out, now)) ==
            multiset(Live(b, now)) + multiset(Live(a, now)) + multiset(Live(c, now))
  {
    hide Live;
    forall m ensures multiset(Live(t.kept, now))[m] ==
                     multiset(Live(b, now))[m] + multiset(Live(a, now))[m] + multiset(Live(c, now))[m]
    {
      LiveCount(t.kept, now, m);
      LiveCount(a, now, m);
      LiveCount(b, now, m);
      LiveCount(c, now, m);
    }
  }

  /** With room for one message, a publish between drain and refill costs the drained
      message its place. */
  lemma PublishDisplaces(cfg: Config, client: Bytes, a: OfflineMessage, b: OfflineMessage, now: int)
    requires cfg.maxPerClient == 1 && cfg.tiers.None? && a != Stamp(cfg, b, now)
    requires !Expired(a, now) && !Expired(Stamp(cfg, b, now), now)
    ensures var p := Peeking([], now, (i: nat) => [Put(client, b, now)], (i: nat) => now);
            var s := State(map[client := [a]], map[], None);
            PeekRun(cfg, s, client, p).1 == [a] && QueueOf(PeekRun(cfg, s, client, p).0.queues, client) == [Stamp(cfg, b, now)]
  {
    hide Stamp;
    var p := Peeking([], now, (i: nat) => [Put(client, b, now)], (i: nat) => now);
    var s := State(map[client := [a]], map[], None);
    var x := Stamp(cfg, b, now);
    DrainOne(a, now);
    LiveOne(x, now);
    var s1 := DequeueStep(s, client, 1, now).0;
    assert s1.queues == map[];
    var cs := [Put(client, b, now), PutBack(client, a, now)];
    assert Refills(client, [a], p) == cs by { assert [a][..0] == []; }
    assert cs[..1] == [cs[0]] && cs[..1][..0] == [];
    assert Live([], now) == [] && [] + [x] == [x];
    var s2 := CallStep(cfg, s1, cs[0]);
    assert QueueOf(s2.queues, client) == [x];
    assert RunCalls(cfg, s1, cs[..1]) == s2;
    assert QueueOf(CallStep(cfg, s2, cs[1]).queues, client) == [x];
  }

  lemma DrainOne(a: OfflineMessage, now: int)
    requires !Expired(a, now)
    ensures Drain([a], 1, now) == Drained([a], [])
  {
    LiveOne(a, now);
    var q := [a];
    assert StableSort(q) == q by { assert q[..0] == []; assert Insert([], a) == [] + [a] == q; }
  }
}
