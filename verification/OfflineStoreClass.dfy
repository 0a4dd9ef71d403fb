/** `OfflineStore` as it runs: filtering, eviction, scan, delete and rewrite loops
    over mutable maps and the store (internal/broker/offline.go). Every method is
    proved to take exactly the step its value-level counterpart takes. */
module OfflineStoreClass {
  import opened ByteStrings
  import opened Storage
  import opened OfflineQueue
  import opened OfflineStorage
  import opened OfflineCalls

  /** The "remove expired" loop shared by Enqueue and Dequeue. */
  method RemoveExpired(queue: seq<OfflineMessage>, now: int) returns (filtered: seq<OfflineMessage>)
    ensures filtered == Live(queue, now)
  {
    filtered := [];
    for i := 0 to |queue|
      invariant filtered == Live(queue[..i], now)
    {
      assert queue[..i + 1] == queue[..i] + [queue[i]];
      LiveSnoc(queue[..i], queue[i], now);
      if !Expired(queue[i], now) {
        filtered := filtered + [queue[i]];
      }
    }
    assert queue[..|queue|] == queue;
  }

  /** The nested eviction loops: least important priority first, oldest first. */
  method EvictOne(queue: seq<OfflineMessage>, newcomer: Byte) returns (evicted: bool, rest: seq<OfflineMessage>)
    ensures evicted == Victim(queue, LOW, newcomer).Some?
    ensures evicted ==> Victim(queue, LOW, newcomer).value < |queue|
                        && rest == Without(queue, Victim(queue, LOW, newcomer).value)
    ensures !evicted ==> rest == queue
  {
    var p: int := LOW;
    while p >= newcomer
      invariant Victim(queue, LOW, newcomer) == Victim(queue, p, newcomer)
      decreases p - newcomer
    {
      var i := 0;
      while i < |queue|
        invariant 0 <= i <= |queue|
        invariant forall j :: 0 <= j < i ==> queue[j].priority != p
      {
        if queue[i].priority == p {
          assert FirstWith(queue, p) == Some(i);
          return true, queue[..i] + queue[i + 1..];
        }
        i := i + 1;
      }
      assert FirstWith(queue, p).None?;
      p := p - 1;
    }
    return false, queue;
  }

  lemma LoadedNone(db: Database)
    ensures Loaded(db, map[], []) == map[]
  {
  }

  lemma LoadedNext(db: Database, keys: seq<Bytes>, i: nat)
    requires i < |keys| && forall k :: k in keys ==> k in db && HasPrefix(k, OM)
    ensures forall k :: k in keys[..i + 1] ==> k in keys
    ensures keys[i] in keys
    ensures Loaded(db, map[], keys[..i + 1]) == LoadOne(db, Loaded(db, map[], keys[..i]), keys[i])
  {
    hide HasPrefix, LoadOne;
    assert keys[..i + 1][..i] == keys[..i];
  }

  /** The body of Dequeue on one queue: drop expired, sort, cut. */
  method TakeFirst(queue: seq<OfflineMessage>, maxCount: nat, now: int)
    returns (result: seq<OfflineMessage>, remaining: seq<OfflineMessage>)
    ensures Drained(result, remaining) == Drain(queue, maxCount, now)
  {
    var valid := RemoveExpired(queue, now);
    valid := StableSort(valid);
    var count := maxCount;
    if count > |valid| {
      count := |valid|;
    }
    return valid[..count], valid[count..];
  }

  class OfflineStore {
    const cfg: Config
    var queues: Queues
    var seqNums: map<Bytes, nat>
    var store: PebbleStore?<Stored>

    ghost function Repr(): set<object>
      reads this
    {
      if store == null then {this} else {this, store}
    }

    ghost function State(): State
      reads Repr()
    {
      OfflineStorage.State(queues, seqNums, if store == null then None else Some(store.db))
    }

    constructor (cfg: Config, store: PebbleStore?<Stored>)
      ensures this.cfg == cfg && this.store == store
      ensures queues == map[] && seqNums == map[]
    {
      this.cfg := cfg;
      this.queues, this.seqNums, this.store := map[], map[], store;
    }

    /** Into a fresh store object: the state a restarted process starts from. */
    method LoadFromStore()
      requires queues == map[] && seqNums == map[]
      modifies this
      ensures store == old(store)
      ensures State() == RestartStep(old(State()))
    {
      if store == null {
        return;
      }
      LoadCounters();
      LoadQueues();
    }

    method LoadQueues()
      requires store != null && queues == map[]
      modifies this`queues
      ensures queues == LoadedQueues(store.db)
    {
      hide ClientOf, HasPrefix, Loaded, QueueOf, Ascending;
      var keys := store.Scan(OM);
      assert forall k :: k in KeysWith(store.db.Keys, OM) ==> HasPrefix(k, OM);
      LoadedNone(store.db);
      ListsUnique(keys, KeyOrder(KeysWith(store.db.Keys, OM)), KeysWith(store.db.Keys, OM));
      for i := 0 to |keys|
        invariant store != null
        invariant forall k :: k in keys[..i] ==> k in store.db && HasPrefix(k, OM)
        invariant queues == Loaded(store.db, map[], keys[..i])
      {
        var key := keys[i];
        LoadedNext(store.db, keys, i);
        var client := ClientOf(key);
        if client.Some? && store.db[key].Message? {
          var clientID := client.value;
          queues := queues[clientID := QueueOf(queues, clientID) + [store.db[key].msg]];
        }
      }
      assert keys[..|keys|] == keys;
    }

    method LoadCounters()
      requires store != null && seqNums == map[]
      modifies this`seqNums
      ensures seqNums == LoadedCounters(store.db)
    {
      var keys := store.Scan(OM_SEQ);
      for i := 0 to |keys|
        invariant store != null
        invariant forall c :: c in seqNums <==>
                    SeqKey(c) in keys[..i] && SeqKey(c) in store.db && store.db[SeqKey(c)].Counter?
        invariant forall c :: c in seqNums ==> seqNums[c] == store.db[SeqKey(c)].next
      {
        var key := keys[i];
        assert key in keys && HasPrefix(key, OM_SEQ);
        var clientID := key[|OM_SEQ|..];
        assert SeqKey(clientID) == key;
        assert forall c :: SeqKey(c)[|OM_SEQ|..] == c;
        assert keys[..i + 1] == keys[..i] + [key];
        if store.db[key].Counter? {
          seqNums := seqNums[clientID := store.db[key].next];
        }
      }
      assert keys[..|keys|] == keys;
      forall c ensures SeqKey(c) in keys <==> SeqKey(c) in store.db
      {
        assert SeqKey(c)[..|OM_SEQ|] == OM_SEQ && SeqKey(c)[|OM_SEQ|..] == c;
      }
      var loaded := LoadedCounters(store.db);
      forall c ensures c in seqNums <==> c in loaded {
        assert HasPrefix(SeqKey(c), OM_SEQ) && SeqKey(c)[|OM_SEQ|..] == c;
      }
      assert seqNums == loaded;
    }

    method Enqueue(clientID: Bytes, msg: OfflineMessage, now: int) returns (ok: bool)
      modifies Repr()
      ensures store == old(store)
      ensures (State(), ok) == EnqueueStep(cfg, old(State()), clientID, msg, now)
    {
      var queue := RemoveExpired(QueueOf(queues, clientID), now);
      var stamped := Stamp(cfg, msg, now);
      if |queue| >= cfg.maxPerClient {
        if cfg.tiers.None? {
          queues := queues[clientID := queue];
          return false;
        }
        var evicted;
        evicted, queue := EvictOne(queue, msg.priority);
        if !evicted {
          queues := queues[clientID := queue];
          return false;
        }
      }
      queues := queues[clientID := queue + [stamped]];
      ClearPebbleMessages(clientID);
      return true;
    }

    method Dequeue(clientID: Bytes, maxCount: nat, now: int) returns (result: seq<OfflineMessage>)
      modifies Repr()
      ensures store == old(store)
      ensures (State(), result) == DequeueStep(old(State()), clientID, maxCount, now)
    {
      if clientID !in queues {
        return [];
      }
      var remaining;
      result, remaining := TakeFirst(queues[clientID], maxCount, now);
      if |remaining| == 0 {
        queues := queues - {clientID};
      } else {
        queues := queues[clientID := remaining];
      }
      ClearPebbleMessages(clientID);
    }

    method RemoveAll(clientID: Bytes)
      modifies Repr()
      ensures store == old(store)
      ensures State() == RemoveAllStep(old(State()), clientID)
    {
      queues := queues - {clientID};
      if store != null {
        DeleteClientKeys(clientID);
        store.Delete(SeqKey(clientID));
        seqNums := seqNums - {clientID};
      }
    }

    method DeleteClientKeys(clientID: Bytes)
      requires store != null
      modifies store
      ensures store.db == Cleared(old(store.db), clientID)
    {
      var keysToDelete := store.Scan(ClientPrefix(clientID));
      for i := 0 to |keysToDelete|
        invariant store.db == old(store.db) - (set k | k in keysToDelete[..i])
      {
        assert keysToDelete[..i + 1] == keysToDelete[..i] + [keysToDelete[i]];
        store.Delete(keysToDelete[i]);
      }
      assert keysToDelete[..|keysToDelete|] == keysToDelete;
      assert (set k | k in keysToDelete) == KeysWith(old(store.db).Keys, ClientPrefix(clientID));
    }

    method PersistMessage(clientID: Bytes, msg: OfflineMessage)
      requires store != null && clientID in seqNums
      modifies this`seqNums, store
      ensures seqNums == old(seqNums)[clientID := old(seqNums)[clientID] + 1]
      ensures store.db == old(store.db)[MessageKey(clientID, old(seqNums)[clientID]) := Message(msg)]
                                       [SeqKey(clientID) := Counter(old(seqNums)[clientID] + 1)]
    {
      var seqNum := seqNums[clientID];
      seqNums := seqNums[clientID := seqNum + 1];
      store.Set(MessageKey(clientID, seqNum), Message(msg));
      store.Set(SeqKey(clientID), Counter(seqNum + 1));
    }

    method ClearPebbleMessages(clientID: Bytes)
      modifies Repr()
      ensures store == old(store)
      ensures State() == Persist(old(State()), clientID)
    {
      if store == null {
        return;
      }
      var queue := QueueOf(queues, clientID);
      DeleteClientKeys(clientID);
      seqNums := seqNums[clientID := 0];
      ghost var cleared := store.db;
      for i := 0 to |queue|
        invariant store != null && store == old(store) && queues == old(queues)
        invariant seqNums == old(seqNums)[clientID := i]
        invariant store.db == Written(cleared, clientID, queue[..i])
      {
        assert queue[..i + 1][..i] == queue[..i];
        PersistMessage(clientID, queue[i]);
      }
      assert queue[..|queue|] == queue;
      if |queue| == 0 {
        store.Delete(SeqKey(clientID));
        seqNums := seqNums - {clientID};
        assert seqNums == old(seqNums) - {clientID};
      }
    }

    method Count(clientID: Bytes) returns (n: nat)
      ensures n == |QueueOf(queues, clientID)|
    {
      n := if clientID in queues then |queues[clientID]| else 0;
    }

    /** Calls of other goroutines. */
    method Interleave(cs: seq<Call>)
      modifies Repr()
      ensures store == old(store)
      ensures State() == RunCalls(cfg, old(State()), cs)
    {
      hide EnqueueStep, DequeueStep, RemoveAllStep;
      for i := 0 to |cs|
        invariant store == old(store)
        invariant State() == RunCalls(cfg, old(State()), cs[..i])
      {
        assert cs[..i + 1][..i] == cs[..i];
        match cs[i] {
          case Put(c, m, now) => var _ := Enqueue(c, m, now);
          case PutBack(c, m, now) => var _ := Enqueue(c, m, now);
          case Take(c, n, now) => var _ := Dequeue(c, n, now);
          case Erase(c, now) => RemoveAll(c);
        }
      }
      assert cs[..|cs|] == cs;
    }

    /** `Broker.GetOfflineMessages`: count, drain that many, then put them back one by one,
        with the calls of others in between. */
    method PeekAllMessages(deviceID: Bytes, p: Peeking) returns (msgs: seq<OfflineMessage>)
      modifies Repr()
      ensures store == old(store)
      ensures (State(), msgs) == PeekRun(cfg, old(State()), deviceID, p)
    {
      hide EnqueueStep, DequeueStep, RunCalls;
      var count := Count(deviceID);
      Interleave(p.counting);
      msgs := Dequeue(deviceID, count, p.start);
      ghost var drained := State();
      RunNothing(cfg, drained);
      for i := 0 to |msgs|
        invariant store == old(store)
        invariant State() == RunCalls(cfg, drained, Refills(deviceID, msgs[..i], p))
      {
        assert msgs[..i + 1][..i] == msgs[..i];
        ghost var before := Refills(deviceID, msgs[..i], p);
        Interleave(p.gaps(i));
        RunJoins(cfg, drained, before, p.gaps(i));
        RunLast(cfg, drained, before + p.gaps(i), PutBack(deviceID, msgs[i], p.clock(i)));
        var _ := Enqueue(deviceID, msgs[i], p.clock(i));
      }
      assert msgs[..|msgs|] == msgs;
    }
  }
}
