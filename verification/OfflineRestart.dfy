/** Restart transparency of the offline store: whole runs of enqueues, dequeues,
    removals and process restarts (internal/broker/offline.go). */
module OfflineRestart {
  import opened ByteStrings
  import opened Storage
  import opened OfflineQueue
  import opened OfflineStorage

  datatype Event =
    | Enqueue(client: Bytes, msg: OfflineMessage)
    | Dequeue(client: Bytes, maxCount: nat)
    | RemoveAll(client: Bytes)
    | Restart

  /** An event, when it happens, and the configuration the process has then. */
  datatype Timed = Timed(now: int, cfg: Config, event: Event)

  /** What callers get to see. */
  datatype Output = Accepted(ok: bool) | Delivered(msgs: seq<OfflineMessage>)

  datatype Outcome = Outcome(state: State, outputs: seq<Output>)

  ghost function Step(s: State, e: Timed): Outcome {
    match e.event
    case Enqueue(c, m) => var (s', ok) := EnqueueStep(e.cfg, s, c, m, e.now); Outcome(s', [Accepted(ok)])
    case Dequeue(c, n) => var (s', ms) := DequeueStep(s, c, n, e.now); Outcome(s', [Delivered(ms)])
    case RemoveAll(c) => Outcome(RemoveAllStep(s, c), [])
    case Restart => Outcome(RestartStep(s), [])
  }

  ghost function Run(s: State, es: seq<Timed>): Outcome {
    if es == [] then Outcome(s, [])
    else
      var before := Run(s, es[..|es| - 1]);
      var after := Step(before.state, es[|es| - 1]);
      Outcome(after.state, before.outputs + after.outputs)
  }

  function WithoutRestarts(es: seq<Timed>): seq<Timed> {
    if es == [] then []
    else WithoutRestarts(es[..|es| - 1]) + (if es[|es| - 1].event.Restart? then [] else [es[|es| - 1]])
  }

  /** Clocks do not run backwards. */
  ghost predicate Monotone(es: seq<Timed>) {
    forall i, j :: 0 <= i < j < |es| ==> es[i].now <= es[j].now
  }

  ghost predicate PlainClients(es: seq<Timed>) {
    forall i :: 0 <= i < |es| && !es[i].event.Restart? ==> Plain(es[i].event.client)
  }

  const IN_MEMORY: State := State(map[], map[], None)
  const FRESH_STORE: State := State(map[], map[], Some(map[]))

  // ----- The simulation -----

  function Limit(cfg: Config): nat { if cfg.maxPerClient < 0 then 0 else cfg.maxPerClient }

  /** No configuration of the run allows more than `bound` messages. A Go `int` is never
      more than MAX_INT. */
  ghost predicate Bounded(es: seq<Timed>, bound: nat) {
    bound <= MAX_INT && forall i :: 0 <= i < |es| ==> Limit(es[i].cfg) <= bound
  }

  /** Two queues that no later observation can tell apart. */
  ghost predicate SameFrom(a: seq<OfflineMessage>, b: seq<OfflineMessage>, now: int) {
    forall t :: now <= t ==> Live(a, t) == Live(b, t)
  }

  /** One client's queue in the reference, in memory and in the store. */
  ghost predicate ClientAgrees(bound: nat, ref: State, s: State, c: Bytes, now: int)
    requires s.db.Some?
  {
    var q, stored := QueueOf(s.queues, c), StoredFor(s.db.value, c);
    && SameFrom(QueueOf(ref.queues, c), q, now) && SameFrom(q, stored, now)
    && |q| <= bound && |stored| <= bound
  }

  ghost predicate Agrees(bound: nat, ref: State, s: State, now: int) {
    s.db.Some? && forall c :: Plain(c) ==> ClientAgrees(bound, ref, s, c, now)
  }

  lemma SameFromLater(a: seq<OfflineMessage>, now: int, then_: int)
    requires now <= then_
    ensures SameFrom(a, Live(a, now), then_)
  {
    forall t | then_ <= t ensures Live(a, t) == Live(Live(a, now), t) { LiveLater(a, now, t); }
  }

  lemma PersistAgrees(bound: nat, ref: State, s: State, c: Bytes, now: int)
    requires Plain(c) && s.db.Some? && bound <= MAX_INT
    requires QueueOf(ref.queues, c) == QueueOf(s.queues, c)
    requires |QueueOf(s.queues, c)| <= bound
    requires forall d :: Plain(d) && d != c ==> ClientAgrees(bound, ref, s, d, now)
    ensures Agrees(bound, ref, Persist(s, c), now)
  {
    var q := QueueOf(s.queues, c);
    RewriteStores(s.db.value, c, q);
    forall d | Plain(d) ensures ClientAgrees(bound, ref, Persist(s, c), d, now) {
      if d != c {
        assert ClientAgrees(bound, ref, s, d, now);
        RewriteFrame(s.db.value, c, q, d);
      }
    }
  }

  /** Agreement persists as time passes. */
  lemma AgreesLater(bound: nat, ref: State, s: State, now: int, later: int)
    requires Agrees(bound, ref, s, now) && now <= later
    ensures Agrees(bound, ref, s, later)
  {
    forall c | Plain(c) ensures ClientAgrees(bound, ref, s, c, later) {
      assert ClientAgrees(bound, ref, s, c, now);
    }
  }

  lemma AdmitSameLive(cfg: Config, a: seq<OfflineMessage>, b: seq<OfflineMessage>, m: OfflineMessage, now: int)
    requires Live(a, now) == Live(b, now)
    ensures Admit(cfg, a, m, now) == Admit(cfg, b, m, now)
  {
  }

  lemma EnqueueAgrees(bound: nat, cfg: Config, ref: State, s: State, c: Bytes, m: OfflineMessage, now: int)
    requires Agrees(bound, ref, s, now) && Plain(c) && ref.db.None? && Limit(cfg) <= bound <= MAX_INT
    ensures var (ref', ok) := EnqueueStep(cfg, ref, c, m, now);
            var (s', ok') := EnqueueStep(cfg, s, c, m, now);
            ok == ok' && Agrees(bound, ref', s', now)
  {
    hide Admit, Rewritten, StoredFor;
    assert ClientAgrees(bound, ref, s, c, now);
    var q, qr := QueueOf(s.queues, c), QueueOf(ref.queues, c);
    AdmitSameLive(cfg, qr, q, m, now);
    var a := Admit(cfg, q, m, now);
    var s1 := s.(queues := s.queues[c := a.queue]);
    var r1 := ref.(queues := ref.queues[c := a.queue]);
    forall d | Plain(d) && d != c ensures ClientAgrees(bound, r1, s1, d, now) {
      assert ClientAgrees(bound, ref, s, d, now);
    }
    BoundedEviction(cfg, q, m, now);
    if a.accepted {
      PersistAgrees(bound, r1, s1, c, now);
    } else {
      SameFromLater(q, now, now);
      assert a.queue == Live(q, now);
      assert ClientAgrees(bound, r1, s1, c, now);
    }
  }

  /** A dequeue, whether or not the client has a queue entry. */
  function AfterDrain(s: State, c: Bytes, rest: seq<OfflineMessage>): State {
    s.(queues := if rest == [] then s.queues - {c} else s.queues[c := rest])
  }

  lemma DequeueShape(s: State, c: Bytes, n: nat, now: int)
    ensures var d, (s', ms) := Drain(QueueOf(s.queues, c), n, now), DequeueStep(s, c, n, now);
            && ms == d.result && s'.queues == AfterDrain(s, c, d.rest).queues
            && s' == (if c in s.queues then Persist(AfterDrain(s, c, d.rest), c) else s)
  {
    hide Drain, Rewritten;
    if c !in s.queues {
      DrainNothing(n, now);
      assert s.queues - {c} == s.queues;
    }
  }

  lemma DequeueAgrees(bound: nat, ref: State, s: State, c: Bytes, n: nat, now: int)
    requires Agrees(bound, ref, s, now) && Plain(c) && ref.db.None? && bound <= MAX_INT
    ensures var (ref', ms) := DequeueStep(ref, c, n, now);
            var (s', ms') := DequeueStep(s, c, n, now);
            ms == ms' && Agrees(bound, ref', s', now)
  {
    assert ClientAgrees(bound, ref, s, c, now);
    var q, qr := QueueOf(s.queues, c), QueueOf(ref.queues, c);
    DequeueShape(ref, c, n, now);
    DequeueShape(s, c, n, now);
    DrainSameLive(qr, q, n, now);
    var rest := Drain(q, n, now).rest;
    var ref' := DequeueStep(ref, c, n, now).0;
    DrainAgrees(bound, ref, s, c, rest, now);
    if c in s.queues {
      PersistAgrees(bound, ref', AfterDrain(s, c, rest), c, now);
    } else {
      assert s == AfterDrain(s, c, rest);
      assert ClientAgrees(bound, ref', s, c, now);
    }
  }

  lemma DrainSameLive(a: seq<OfflineMessage>, b: seq<OfflineMessage>, n: nat, now: int)
    requires Live(a, now) == Live(b, now)
    ensures Drain(a, n, now) == Drain(b, n, now)
    ensures |Drain(b, n, now).rest| <= |b|
    ensures b == [] ==> Drain(b, n, now).rest == []
  {
  }

  lemma DrainAgrees(bound: nat, ref: State, s: State, c: Bytes, rest: seq<OfflineMessage>, now: int)
    requires Agrees(bound, ref, s, now)
    ensures forall d :: Plain(d) && d != c ==>
              ClientAgrees(bound, AfterDrain(ref, c, rest), AfterDrain(s, c, rest), d, now)
    ensures QueueOf(AfterDrain(ref, c, rest).queues, c) == rest == QueueOf(AfterDrain(s, c, rest).queues, c)
  {
    forall d | Plain(d) && d != c
      ensures ClientAgrees(bound, AfterDrain(ref, c, rest), AfterDrain(s, c, rest), d, now)
    {
      assert ClientAgrees(bound, ref, s, d, now);
    }
  }

  lemma RemoveAllAgrees(bound: nat, ref: State, s: State, c: Bytes, now: int)
    requires Agrees(bound, ref, s, now) && Plain(c) && ref.db.None? && bound <= MAX_INT
    ensures Agrees(bound, RemoveAllStep(ref, c), RemoveAllStep(s, c), now)
  {
    var ref' := RemoveAllStep(ref, c);
    var s1 := s.(queues := s.queues - {c});
    forall d | Plain(d) && d != c ensures ClientAgrees(bound, ref', s1, d, now) {
      assert ClientAgrees(bound, ref, s, d, now);
    }
    PersistAgrees(bound, ref', s1, c, now);
  }

  lemma RestartAgrees(bound: nat, ref: State, s: State, now: int)
    requires Agrees(bound, ref, s, now)
    ensures Agrees(bound, ref, RestartStep(s), now)
  {
    forall c | Plain(c) ensures ClientAgrees(bound, ref, RestartStep(s), c, now) {
      assert ClientAgrees(bound, ref, s, c, now);
      LoadReadsStored(s.db.value, c);
    }
  }

  lemma StepAgrees(bound: nat, ref: State, s: State, e: Timed)
    requires Agrees(bound, ref, s, e.now) && ref.db.None? && Limit(e.cfg) <= bound <= MAX_INT
    requires !e.event.Restart? && Plain(e.event.client)
    ensures Step(ref, e).outputs == Step(s, e).outputs
    ensures Agrees(bound, Step(ref, e).state, Step(s, e).state, e.now)
    ensures Step(ref, e).state.db.None?
  {
    match e.event
    case Enqueue(c, m) => EnqueueAgrees(bound, e.cfg, ref, s, c, m, e.now);
    case Dequeue(c, n) => DequeueAgrees(bound, ref, s, c, n, e.now);
    case RemoveAll(c) => RemoveAllAgrees(bound, ref, s, c, e.now);
  }

  /** The states a persistent run and its restart-free reference reach agree. */
  lemma {:induction false} RunAgrees(es: seq<Timed>, bound: nat, now: int)
    requires Monotone(es) && PlainClients(es) && Bounded(es, bound)
    requires forall i :: 0 <= i < |es| ==> es[i].now <= now
    ensures var ref, s := Run(IN_MEMORY, WithoutRestarts(es)), Run(FRESH_STORE, es);
            ref.outputs == s.outputs && Agrees(bound, ref.state, s.state, now) && ref.state.db.None?
    decreases |es|
  {
    if es == [] {
      forall c ensures ClientAgrees(bound, IN_MEMORY, FRESH_STORE, c, now) {
        assert KeysWith({}, ClientPrefix(c)) == {};
        assert KeyOrder({}) == [];
      }
    } else {
      var n := |es| - 1;
      var e, front := es[n], es[..n];
      RunAgrees(front, bound, e.now);
      var ref, s := Run(IN_MEMORY, WithoutRestarts(front)), Run(FRESH_STORE, front);
      if e.event.Restart? {
        RestartAgrees(bound, ref.state, s.state, e.now);
        assert WithoutRestarts(es) == WithoutRestarts(front);
        AgreesLater(bound, ref.state, RestartStep(s.state), e.now, now);
      } else {
        var kept := WithoutRestarts(front) + [e];
        assert kept[..|kept| - 1] == WithoutRestarts(front);
        StepAgrees(bound, ref.state, s.state, e);
        AgreesLater(bound, Step(ref.state, e).state, Step(s.state, e).state, e.now, now);
      }
    }
  }

  /** Restart transparency: for client ids without '/', a persistent store that is
      restarted anywhere in a run answers every Enqueue and Dequeue exactly as an
      in-memory store that is never restarted, whatever configuration each event finds. */
  lemma RestartTransparent(es: seq<Timed>)
    requires Monotone(es) && PlainClients(es) && Bounded(es, MAX_INT)
    ensures Run(FRESH_STORE, es).outputs == Run(IN_MEMORY, WithoutRestarts(es)).outputs
  {
    RunAgrees(es, MAX_INT, if es == [] then 0 else es[|es| - 1].now);
  }

  /** The mirror itself: in every reachable state each client's stored messages,
      read in key order, have the live messages of its queue at every later time. */
  lemma StoreMirrorsQueue(es: seq<Timed>, client: Bytes, now: int)
    requires Monotone(es) && PlainClients(es) && Bounded(es, MAX_INT) && Plain(client)
    requires forall i :: 0 <= i < |es| ==> es[i].now <= now
    ensures var s := Run(FRESH_STORE, es).state;
            s.db.Some? && Live(StoredFor(s.db.value, client), now) == Live(QueueOf(s.queues, client), now)
  {
    RunAgrees(es, MAX_INT, now);
    assert ClientAgrees(MAX_INT, Run(IN_MEMORY, WithoutRestarts(es)).state, Run(FRESH_STORE, es).state, client, now);
  }

  // ----- Counters -----

  lemma CounterRead(db: Database, c: Bytes)
    ensures c in LoadedCounters(db) <==> SeqKey(c) in db && db[SeqKey(c)].Counter?
    ensures c in LoadedCounters(db) ==> LoadedCounters(db)[c] == db[SeqKey(c)].next
  {
    assert SeqKey(c)[|OM_SEQ|..] == c && SeqKey(c)[..|OM_SEQ|] == OM_SEQ;
  }

  lemma {:induction false} WrittenCounter(db: Database, c: Bytes, q: seq<OfflineMessage>, d: Bytes)
    requires forall x :: SeqKey(x) in db ==> db[SeqKey(x)].Counter?
    ensures forall x :: SeqKey(x) in Written(db, c, q) ==> Written(db, c, q)[SeqKey(x)].Counter?
    ensures SeqKey(d) in Written(db, c, q) <==> SeqKey(d) in db || (c == d && q != [])
    ensures c == d && q != [] ==> Written(db, c, q)[SeqKey(d)] == Counter(|q|)
    ensures c != d && SeqKey(d) in db ==> Written(db, c, q)[SeqKey(d)] == db[SeqKey(d)]
  {
    assert SeqKey(c)[|OM_SEQ|..] == c && SeqKey(d)[|OM_SEQ|..] == d;
    if q != [] {
      WrittenCounter(db, c, q[..|q| - 1], d);
      forall x ensures SeqKey(x) != MessageKey(c, |q| - 1) {
        SeqKeyApart(x, c);
        assert HasPrefix(MessageKey(c, |q| - 1), ClientPrefix(c));
      }
    }
  }

  ghost predicate CountersMirrored(s: State) {
    && s.db.Some?
    && (forall x :: SeqKey(x) in s.db.value ==> s.db.value[SeqKey(x)].Counter?)
    && s.seqNums == LoadedCounters(s.db.value)
  }

  lemma PersistCounter(s: State, c: Bytes, d: Bytes)
    requires CountersMirrored(s)
    ensures var s' := Persist(s, c);
            && (SeqKey(d) in s'.db.value ==> s'.db.value[SeqKey(d)].Counter?)
            && (d in s'.seqNums <==> SeqKey(d) in s'.db.value)
            && (d in s'.seqNums ==> s'.db.value[SeqKey(d)] == Counter(s'.seqNums[d]))
  {
    hide Written, LoadedCounters;
    var cleared := Cleared(s.db.value, c);
    forall x ensures SeqKey(x) in cleared <==> SeqKey(x) in s.db.value { SeqKeyApart(x, c); }
    assert SeqKey(c)[|OM_SEQ|..] == c && SeqKey(d)[|OM_SEQ|..] == d;
    CounterRead(s.db.value, d);
    WrittenCounter(cleared, c, QueueOf(s.queues, c), d);
  }

  lemma PersistCounters(s: State, c: Bytes)
    requires CountersMirrored(s)
    ensures CountersMirrored(Persist(s, c))
  {
    hide Rewritten, LoadedCounters;
    var s' := Persist(s, c);
    forall d
      ensures SeqKey(d) in s'.db.value ==> s'.db.value[SeqKey(d)].Counter?
      ensures d in s'.seqNums <==> d in LoadedCounters(s'.db.value)
      ensures d in s'.seqNums ==> s'.seqNums[d] == LoadedCounters(s'.db.value)[d]
    {
      PersistCounter(s, c, d);
      CounterRead(s'.db.value, d);
    }
  }

  /** In every reachable state the in-memory counters are the ones a restart reads. */
  lemma {:induction false} CountersSurvive(es: seq<Timed>)
    ensures CountersMirrored(Run(FRESH_STORE, es).state)
  {
    if es == [] {
      assert LoadedCounters(map[]) == map[];
    } else {
      var e := es[|es| - 1];
      CountersSurvive(es[..|es| - 1]);
      var s := Run(FRESH_STORE, es[..|es| - 1]).state;
      match e.event
      case Enqueue(c, m) =>
        PersistCounters(s.(queues := s.queues[c := Admit(e.cfg, QueueOf(s.queues, c), m, e.now).queue]), c);
      case Dequeue(c, n) =>
        if c in s.queues {
          var d := Drain(s.queues[c], n, e.now);
          PersistCounters(s.(queues := if d.rest == [] then s.queues - {c} else s.queues[c := d.rest]), c);
        }
      case RemoveAll(c) => PersistCounters(s.(queues := s.queues - {c}), c);
      case Restart =>
    }
  }
}
