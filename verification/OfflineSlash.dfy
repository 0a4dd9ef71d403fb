/** Which client ids survive a restart: message keys are parsed at the first '/'
    (internal/broker/offline.go). */
module OfflineSlash {
  import opened ByteStrings
  import opened Storage
  import opened OfflineQueue
  import opened OfflineStorage
  import opened OfflineRestart

  lemma {:induction false} LoadedClientsPlain(db: Database, keys: seq<Bytes>)
    requires forall k :: k in keys ==> k in db && HasPrefix(k, OM)
    ensures forall c :: c in Loaded(db, map[], keys) ==> Plain(c)
  {
    if keys != [] { LoadedClientsPlain(db, keys[..|keys| - 1]); }
  }

  /** The first message a client with no queue enqueues. */
  lemma EnqueueFirst(cfg: Config, s: State, client: Bytes, m: OfflineMessage, now: int)
    requires s.queues == map[] && cfg.maxPerClient >= 1
    ensures EnqueueStep(cfg, s, client, m, now) ==
            (Persist(s.(queues := map[client := [Stamp(cfg, m, now)]]), client), true)
  {
    hide Stamp, Persist;
    assert Live([], now) == [] && [] + [Stamp(cfg, m, now)] == [Stamp(cfg, m, now)];
  }

  lemma DequeueOnly(s: State, client: Bytes, m: OfflineMessage, now: int)
    requires QueueOf(s.queues, client) == [m] && !Expired(m, now)
    ensures DequeueStep(s, client, 1, now).1 == [m]
  {
    hide Persist;
    var q := [m];
    assert Live(q, now) == q by { LiveSnoc([], m, now); assert [] + [m] == q; }
    assert StableSort(q) == q by { assert q[..0] == []; assert Insert([], m) == [] + [m] == q; }
  }

  lemma RunTwo(s: State, a: Timed, b: Timed)
    ensures var x := Step(s, a); var y := Step(x.state, b);
            Run(s, [a, b]) == Outcome(y.state, x.outputs + y.outputs)
  {
    hide Step;
    assert [a, b][..1] == [a] && [a][..0] == [];
    assert Run(s, [a]) == Outcome(Step(s, a).state, Step(s, a).outputs) by {
      assert [] + Step(s, a).outputs == Step(s, a).outputs;
    }
  }

  lemma RunThree(s: State, a: Timed, b: Timed, c: Timed)
    ensures var x := Step(s, a); var y := Step(x.state, b); var z := Step(y.state, c);
            Run(s, [a, b, c]) == Outcome(z.state, x.outputs + y.outputs + z.outputs)
  {
    hide Step;
    assert [a, b, c][..2] == [a, b];
    RunTwo(s, a, b);
  }

  /** The message `reader` gets if `client` queued one before a restart. */
  ghost function AfterRestart(cfg: Config, client: Bytes, m: OfflineMessage, reader: Bytes, now: int): seq<Output> {
    Run(FRESH_STORE,
        [Timed(now, cfg, Enqueue(client, m)), Timed(now, cfg, Restart), Timed(now, cfg, Dequeue(reader, 1))]).outputs
  }

  lemma RestartedOutputs(cfg: Config, client: Bytes, m: OfflineMessage, reader: Bytes, now: int)
    requires cfg.maxPerClient >= 1
    ensures var db := Rewritten(map[], client, [Stamp(cfg, m, now)]);
            AfterRestart(cfg, client, m, reader, now) ==
            [Accepted(true), Delivered(DequeueStep(State(LoadedQueues(db), LoadedCounters(db), Some(db)), reader, 1, now).1)]
  {
    hide Stamp, DequeueStep, LoadedQueues, LoadedCounters, Rewritten;
    RunThree(FRESH_STORE, Timed(now, cfg, Enqueue(client, m)), Timed(now, cfg, Restart), Timed(now, cfg, Dequeue(reader, 1)));
    EnqueueFirst(cfg, FRESH_STORE, client, m, now);
  }

  /** A queued message is there after a restart if and only if the client id has no '/'. */
  lemma SurvivesRestartIffPlain(cfg: Config, client: Bytes, m: OfflineMessage, now: int)
    requires 1 <= cfg.maxPerClient && !Expired(Stamp(cfg, m, now), now)
    ensures AfterRestart(cfg, client, m, client, now)
            == [Accepted(true), Delivered(if Plain(client) then [Stamp(cfg, m, now)] else [])]
  {
    hide Stamp, Rewritten, Expired;
    var q := [Stamp(cfg, m, now)];
    var db := Rewritten(map[], client, q);
    RestartedOutputs(cfg, client, m, client, now);
    if Plain(client) {
      RewriteStores(map[], client, q);
      LoadReadsStored(db, client);
      DequeueOnly(State(LoadedQueues(db), LoadedCounters(db), Some(db)), client, q[0], now);
    } else {
      LoadedClientsPlain(db, KeyOrder(KeysWith(db.Keys, OM)));
    }
  }

  /** The part of an id before its first '/'. */
  function Owner(client: Bytes): Bytes
    requires !Plain(client)
  {
    client[..FirstSlash(client).value]
  }

  lemma OwnerPlain(client: Bytes, n: nat)
    requires !Plain(client)
    ensures Plain(Owner(client)) && HasPrefix(MessageKey(client, n), ClientPrefix(Owner(client)))
  {
    var at := FirstSlash(client).value;
    assert client[..at + 1] == Owner(client) + [SLASH];
    assert MessageKey(client, n)[..|OM| + at + 1] == OM + client[..at + 1];
  }

  /** The one message stored for a slash id is read as the owner's. */
  lemma StoredForOwner(client: Bytes, m: OfflineMessage)
    requires !Plain(client)
    ensures StoredFor(Rewritten(map[], client, [m]), Owner(client)) == [m]
  {
    var db, k, a := Rewritten(map[], client, [m]), MessageKey(client, 0), Owner(client);
    OwnerPlain(client, 0);
    SeqKeyApart(client, a);
    WrittenContents(map[], client, [m]);
    assert Cleared(map[], client) == map[];
    assert forall x :: x in db <==> x == k || x == SeqKey(client) by { OneWritten(client, m); }
    var keys := KeysWith(db.Keys, ClientPrefix(a));
    assert keys == {k};
    ListsUnique(KeyOrder(keys), [k], keys);
    var only := [k];
    assert only[..0] == [];
    assert MessagesAt(db, only) == [] + [m];
  }

  lemma OneWritten(client: Bytes, m: OfflineMessage)
    ensures Rewritten(map[], client, [m]).Keys == {MessageKey(client, 0), SeqKey(client)}
  {
    var q := [m];
    var db: Database := map[];
    assert q[..0] == [] && Cleared(db, client) == db;
    assert Written(db, client, q) == db[MessageKey(client, 0) := Message(m)][SeqKey(client) := Counter(1)];
  }

  /** What a slash id queued is delivered, after a restart, to the client named by the
      part before its first '/'. */
  lemma DeliveredToOwner(cfg: Config, client: Bytes, m: OfflineMessage, now: int)
    requires !Plain(client) && 1 <= cfg.maxPerClient && !Expired(Stamp(cfg, m, now), now)
    ensures AfterRestart(cfg, client, m, Owner(client), now) == [Accepted(true), Delivered([Stamp(cfg, m, now)])]
  {
    hide Stamp, Rewritten, Expired, Owner;
    var x, a := Stamp(cfg, m, now), Owner(client);
    var db := Rewritten(map[], client, [x]);
    RestartedOutputs(cfg, client, m, a, now);
    OwnerPlain(client, 0);
    StoredForOwner(client, x);
    LoadReadsStored(db, a);
    DequeueOnly(State(LoadedQueues(db), LoadedCounters(db), Some(db)), a, x, now);
  }

  /** And every rewrite of that client's queue deletes what the slash id stored. */
  lemma OwnerErases(db: Database, client: Bytes, q: seq<OfflineMessage>, n: nat)
    requires !Plain(client)
    ensures MessageKey(client, n) !in Rewritten(db, Owner(client), q)
  {
    var a, k := Owner(client), MessageKey(client, n);
    OwnerPlain(client, n);
    SeqKeyApart(a, a);
    WrittenContents(Cleared(db, a), a, q);
    forall i: nat ensures k != MessageKey(a, i) {
      OwnKeyDiffers(client, n, i);
    }
  }

  /** A slash id's key has a '/' where its owner's has a digit. */
  lemma OwnKeyDiffers(client: Bytes, n: nat, i: nat)
    requires !Plain(client)
    ensures MessageKey(client, n) != MessageKey(Owner(client), i)
  {
    var at, a := |ClientPrefix(client)| - 1, Owner(client);
    assert MessageKey(client, n)[at] == SLASH;
    assert |ClientPrefix(a)| <= at;
    assert at < |MessageKey(a, i)| ==> MessageKey(a, i)[at] == Decimal(i, KEY_DIGITS)[at - |ClientPrefix(a)|];
  }

  // ----- Exactly which ids -----

  ghost predicate ClientsIn(es: seq<Timed>, clients: iset<Bytes>) {
    forall i :: 0 <= i < |es| && !es[i].event.Restart? ==> es[i].event.client in clients
  }

  ghost predicate ConfigsIn(es: seq<Timed>, cfgs: iset<Config>) {
    forall i :: 0 <= i < |es| ==> es[i].cfg in cfgs
  }

  /** No run over these clients and configurations can tell whether the process was
      restarted. */
  ghost predicate Transparent(cfgs: iset<Config>, clients: iset<Bytes>) {
    forall es :: Monotone(es) && ClientsIn(es, clients) && ConfigsIn(es, cfgs) ==>
      Run(FRESH_STORE, es).outputs == Run(IN_MEMORY, WithoutRestarts(es)).outputs
  }

  /** A store without room stays empty. */
  ghost predicate Barren(s: State) {
    && (forall c :: c in s.queues ==> s.queues[c] == []) && s.db in {None, Some(map[])}
  }

  lemma AdmitNothing(cfg: Config, m: OfflineMessage, now: int)
    requires cfg.maxPerClient < 1
    ensures Admit(cfg, [], m, now) == Admission(false, [])
  {
    VictimInRange([], LOW, m.priority);
  }

  lemma BarrenStep(s: State, e: Timed)
    requires e.cfg.maxPerClient < 1 && Barren(s)
    ensures Barren(Step(s, e).state)
    ensures Step(s, e).outputs ==
            match e.event case Enqueue(_, _) => [Accepted(false)] case Dequeue(_, _) => [Delivered([])] case _ => []
  {
    hide Admit, Drain;
    assert forall c: Bytes :: Rewritten(map[], c, []) == map[];
    match e.event
    case Enqueue(c, m) => AdmitNothing(e.cfg, m, e.now);
    case Dequeue(c, n) => DrainNothing(n, e.now);
    case RemoveAll(c) =>
    case Restart => LoadedNothing();
  }

  lemma LoadedNothing()
    ensures LoadedQueues(map[]) == map[]
  {
    ListsUnique(KeyOrder({}), [], {});
    assert KeysWith({}, OM) == {};
  }

  lemma {:induction false} BarrenRun(es: seq<Timed>)
    requires forall i :: 0 <= i < |es| ==> es[i].cfg.maxPerClient < 1
    ensures Barren(Run(FRESH_STORE, es).state) && Barren(Run(IN_MEMORY, WithoutRestarts(es)).state)
    ensures Run(FRESH_STORE, es).outputs == Run(IN_MEMORY, WithoutRestarts(es)).outputs
    decreases |es|
  {
    hide Step, Barren;
    if es == [] {
      assert Barren(FRESH_STORE) && Barren(IN_MEMORY) by { BarrenStart(); }
    } else {
      var n := |es| - 1;
      var front, e := es[..n], es[n];
      BarrenRun(front);
      BarrenStep(Run(FRESH_STORE, front).state, e);
      if e.event.Restart? {
        assert WithoutRestarts(es) == WithoutRestarts(front);
      } else {
        var kept := WithoutRestarts(front) + [e];
        assert kept[..|kept| - 1] == WithoutRestarts(front);
        BarrenStep(Run(IN_MEMORY, WithoutRestarts(front)).state, e);
      }
    }
  }

  lemma BarrenStart()
    ensures Barren(FRESH_STORE) && Barren(IN_MEMORY)
  {
  }

  lemma WithoutMiddle(a: Timed, b: Timed, c: Timed)
    requires !a.event.Restart? && b.event.Restart? && !c.event.Restart?
    ensures WithoutRestarts([a, b, c]) == [a, c]
  {
    var es := [a, b, c];
    assert es[..2][..1] == es[..1] && es[..1][..0] == [];
    assert WithoutRestarts(es[..1]) == [a] && WithoutRestarts(es[..2]) == [a];
  }

  lemma InMemoryDelivers(cfg: Config, client: Bytes, m: OfflineMessage, now: int)
    requires cfg.maxPerClient >= 1 && !Expired(Stamp(cfg, m, now), now)
    ensures Run(IN_MEMORY, [Timed(now, cfg, Enqueue(client, m)), Timed(now, cfg, Dequeue(client, 1))]).outputs
            == [Accepted(true), Delivered([Stamp(cfg, m, now)])]
  {
    hide Stamp, Expired, Admit, Drain;
    RunTwo(IN_MEMORY, Timed(now, cfg, Enqueue(client, m)), Timed(now, cfg, Dequeue(client, 1)));
    EnqueueFirst(cfg, IN_MEMORY, client, m, now);
    DequeueOnly(State(map[client := [Stamp(cfg, m, now)]], map[], None), client, Stamp(cfg, m, now), now);
  }

  /** A run over one slash id that tells. */
  lemma SlashTells(cfg: Config, cfgs: iset<Config>, client: Bytes, clients: iset<Bytes>)
    requires !Plain(client) && client in clients && cfg in cfgs && cfg.maxPerClient >= 1
    ensures !Transparent(cfgs, clients)
  {
    hide Run, WithoutRestarts;
    var m := OfflineMessage([], [], 0, 0, 1, 2);
    var es := [Timed(1, cfg, Enqueue(client, m)), Timed(1, cfg, Restart), Timed(1, cfg, Dequeue(client, 1))];
    SurvivesRestartIffPlain(cfg, client, m, 1);
    WithoutMiddle(es[0], es[1], es[2]);
    InMemoryDelivers(cfg, client, m, 1);
    assert Run(FRESH_STORE, es).outputs == [Accepted(true), Delivered([])];
    assert Monotone(es) && ClientsIn(es, clients) && ConfigsIn(es, cfgs);
  }

  /** Restarts, into whatever configuration of a set, are invisible to every run over a
      set of clients if and only if no configuration lets anything be queued or no id of
      the set contains a '/'. */
  lemma TransparentExactly(cfgs: iset<Config>, clients: iset<Bytes>)
    requires forall cfg :: cfg in cfgs ==> cfg.maxPerClient <= MAX_INT
    ensures Transparent(cfgs, clients) <==>
            (forall cfg :: cfg in cfgs ==> cfg.maxPerClient < 1) || (forall c :: c in clients ==> Plain(c))
  {
    hide Plain, Run;
    if forall cfg :: cfg in cfgs ==> cfg.maxPerClient < 1 {
      forall es | Monotone(es) && ClientsIn(es, clients) && ConfigsIn(es, cfgs)
        ensures Run(FRESH_STORE, es).outputs == Run(IN_MEMORY, WithoutRestarts(es)).outputs
      {
        BarrenRun(es);
      }
    } else if c :| c in clients && !Plain(c) {
      var cfg :| cfg in cfgs && cfg.maxPerClient >= 1;
      SlashTells(cfg, cfgs, c, clients);
    } else {
      forall es | Monotone(es) && ClientsIn(es, clients) && ConfigsIn(es, cfgs)
        ensures Run(FRESH_STORE, es).outputs == Run(IN_MEMORY, WithoutRestarts(es)).outputs
      {
        RestartTransparent(es);
      }
    }
  }
}
