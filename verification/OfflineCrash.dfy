/** A process killed inside a rewrite of one client's stored queue: the rewrite is a
    series of separately synced deletes and writes (clearPebbleMessages and persistMessage in
    internal/broker/offline.go). */
module OfflineCrash {
  import opened ByteStrings
  import opened Storage
  import opened OfflineQueue
  import opened OfflineStorage
  import OfflineRestart

  /** The keys a rewrite deletes, in order. */
  ghost function Doomed(db: Database, c: Bytes): seq<Bytes> { KeyOrder(KeysWith(db.Keys, ClientPrefix(c))) }

  /** How many store operations a rewrite makes: each key deleted, then a message and a
      counter per message, or the counter deleted. */
  ghost function Operations(db: Database, c: Bytes, q: seq<OfflineMessage>): nat {
    |Doomed(db, c)| + if q == [] then 1 else 2 * |q|
  }

  /** The store after the first `k` of them. */
  ghost function Partial(db: Database, c: Bytes, q: seq<OfflineMessage>, k: nat): Database
    requires k <= Operations(db, c, q)
  {
    var n := |Doomed(db, c)|;
    if k <= n then db - set key | key in Doomed(db, c)[..k]
    else if q == [] then Cleared(db, c) - {SeqKey(c)}
    else
      var j := (k - n) / 2;
      var full := Written(Cleared(db, c), c, q[..j]);
      if (k - n) % 2 == 1 then full[MessageKey(c, j) := Message(q[j])] else full
  }

  /** The last operation completes the rewrite. */
  lemma PartialCompletes(db: Database, c: Bytes, q: seq<OfflineMessage>)
    ensures Partial(db, c, q, Operations(db, c, q)) == Rewritten(db, c, q)
  {
    assert q[..|q|] == q;
  }

  /** Only messages are stored under the client's prefix. */
  ghost predicate HoldsMessages(db: Database, c: Bytes) {
    forall k :: k in db && HasPrefix(k, ClientPrefix(c)) ==> db[k].Message?
  }

  lemma {:induction false} MessagesAtEach(db: Database, keys: seq<Bytes>)
    requires forall k :: k in keys ==> k in db && db[k].Message?
    ensures |MessagesAt(db, keys)| == |keys|
    ensures forall i :: 0 <= i < |keys| ==> MessagesAt(db, keys)[i] == db[keys[i]].msg
    decreases |keys|
  {
    if keys != [] { MessagesAtEach(db, keys[..|keys| - 1]); }
  }

  /** An ascending listing without its first `k` keys lists the rest. */
  lemma DropLists(keys: seq<Bytes>, s: set<Bytes>, k: nat)
    requires Lists(keys, s) && k <= |keys|
    ensures Lists(keys[k..], s - set key | key in keys[..k])
  {
    var front := set key | key in keys[..k];
    forall key ensures key in keys[k..] <==> key in s - front {
      if key in keys[k..] {
        var j :| k <= j < |keys| && keys[j] == key;
        forall i | 0 <= i < k ensures keys[i] != key {
          LexIrreflexive(key);
        }
      }
      assert key in keys <==> key in keys[..k] || key in keys[k..] by { assert keys == keys[..k] + keys[k..]; }
    }
  }

  lemma LeftKeys(db: Database, c: Bytes, gone: set<Bytes>)
    ensures KeysWith((db - gone).Keys, ClientPrefix(c)) == KeysWith(db.Keys, ClientPrefix(c)) - gone
  {
    hide HasPrefix, ClientPrefix;
    var left, all := KeysWith((db - gone).Keys, ClientPrefix(c)), KeysWith(db.Keys, ClientPrefix(c));
    assert forall k :: k in left <==> k in all - gone;
  }

  /** Killed while deleting: the rest of the old queue is left. */
  lemma CrashWhileDeleting(db: Database, c: Bytes, q: seq<OfflineMessage>, k: nat)
    requires HoldsMessages(db, c) && k <= |Doomed(db, c)|
    ensures |StoredFor(db, c)| == |Doomed(db, c)|
    ensures StoredFor(Partial(db, c, q, k), c) == StoredFor(db, c)[k..]
  {
    hide HasPrefix, ClientPrefix, Ascending;
    var keys := Doomed(db, c);
    var gone := set key | key in keys[..k];
    var part := db - gone;
    DropLists(keys, KeysWith(db.Keys, ClientPrefix(c)), k);
    LeftKeys(db, c, gone);
    var left := KeysWith(part.Keys, ClientPrefix(c));
    ListsUnique(KeyOrder(left), keys[k..], left);
    MessagesAtEach(db, keys);
    MessagesAtEach(part, keys[k..]);
  }

  /** Killed while writing: the front of the new queue is there. */
  lemma CrashWhileWriting(db: Database, c: Bytes, q: seq<OfflineMessage>, k: nat)
    requires |q| <= MAX_INT && |Doomed(db, c)| < k <= Operations(db, c, q)
    ensures var done := (k - |Doomed(db, c)| + 1) / 2;
            StoredFor(Partial(db, c, q, k), c) == if q == [] then [] else q[..done]
  {
    var n := |Doomed(db, c)|;
    if q == [] {
      RewriteStores(db, c, []);
    } else {
      var done := (k - n + 1) / 2;
      RewriteStores(db, c, q[..done]);
      SeqKeyApart(c, c);
      var part, whole := Partial(db, c, q, k), Rewritten(db, c, q[..done]);
      assert q[..done][..done - 1] == q[..done - 1] && q[..done][done - 1] == q[done - 1];
      assert part[SeqKey(c) := Counter(done)] == whole;
      StoredForSame(part, whole, c);
    }
  }

  /** What a restart finds after a crash at any point of a rewrite: a tail of the old
      queue or a front of the new one. It is the new queue if and only if that tail
      happens to be it or all its messages were written. */
  lemma CrashExactly(db: Database, c: Bytes, q: seq<OfflineMessage>, k: nat)
    requires Plain(c) && HoldsMessages(db, c) && |q| <= MAX_INT && k <= Operations(db, c, q)
    ensures var old_, n, found := StoredFor(db, c), |Doomed(db, c)|, QueueOf(LoadedQueues(Partial(db, c, q, k)), c);
            && n == |old_|
            && (k <= n ==> found == old_[k..])
            && (k > n ==> found == q[..if q == [] then 0 else (k - n + 1) / 2])
            && (found == q <==> if k <= n then old_[k..] == q else k - n >= 2 * |q| - 1)
  {
    hide Partial, LoadedQueues, StoredFor, Doomed;
    LoadReadsStored(Partial(db, c, q, k), c);
    CrashWhileDeleting(db, c, q, 0);
    if k <= |Doomed(db, c)| {
      CrashWhileDeleting(db, c, q, k);
    } else {
      CrashWhileWriting(db, c, q, k);
    }
  }

  /** In particular a crash between the last delete and the first write loses the whole
      queue, old and new. */
  lemma CrashLosesAll(db: Database, c: Bytes, q: seq<OfflineMessage>)
    requires Plain(c) && HoldsMessages(db, c) && |q| <= MAX_INT
    ensures QueueOf(LoadedQueues(Partial(db, c, q, |Doomed(db, c)|)), c) == []
  {
    CrashExactly(db, c, q, |Doomed(db, c)|);
  }

  // ----- Reachable stores -----

  ghost predicate OnlyMessages(db: Database) { forall k :: k in db && HasPrefix(k, OM) ==> db[k].Message? }

  lemma {:induction false} WrittenOnly(db: Database, c: Bytes, q: seq<OfflineMessage>)
    requires OnlyMessages(db)
    ensures OnlyMessages(Written(db, c, q))
    decreases |q|
  {
    hide HasPrefix, MessageKey, SeqKey;
    if q != [] {
      WrittenOnly(db, c, q[..|q| - 1]);
      SeqKeyApart(c, c);
    }
  }

  lemma PersistOnly(s: State, c: Bytes)
    requires s.db.Some? ==> OnlyMessages(s.db.value)
    ensures Persist(s, c).db.Some? ==> OnlyMessages(Persist(s, c).db.value)
  {
    hide HasPrefix;
    if s.db.Some? { WrittenOnly(Cleared(s.db.value, c), c, QueueOf(s.queues, c)); }
  }

  /** So every store a run can reach qualifies. */
  lemma {:induction false} ReachableHolds(es: seq<OfflineRestart.Timed>, c: Bytes)
    ensures var db := OfflineRestart.Run(OfflineRestart.FRESH_STORE, es).state.db;
            db.Some? && OnlyMessages(db.value) && HoldsMessages(db.value, c)
    decreases |es|
  {
    hide Persist, Admit, Drain, OnlyMessages;
    if es == [] {
      NothingStored();
    } else {
      var e, s := es[|es| - 1], OfflineRestart.Run(OfflineRestart.FRESH_STORE, es[..|es| - 1]).state;
      ReachableHolds(es[..|es| - 1], c);
      if e.event.Enqueue? {
        PersistOnly(s.(queues := s.queues[e.event.client := Admit(e.cfg, QueueOf(s.queues, e.event.client), e.event.msg, e.now).queue]), e.event.client);
        PersistSome(s.(queues := s.queues[e.event.client := Admit(e.cfg, QueueOf(s.queues, e.event.client), e.event.msg, e.now).queue]), e.event.client);
      } else if e.event.Dequeue? && e.event.client in s.queues {
        var d := Drain(s.queues[e.event.client], e.event.maxCount, e.now);
        var s1 := s.(queues := if d.rest == [] then s.queues - {e.event.client} else s.queues[e.event.client := d.rest]);
        PersistOnly(s1, e.event.client);
        PersistSome(s1, e.event.client);
      } else if e.event.RemoveAll? {
        PersistOnly(s.(queues := s.queues - {e.event.client}), e.event.client);
        PersistSome(s.(queues := s.queues - {e.event.client}), e.event.client);
      }
    }
    OnlyHolds(OfflineRestart.Run(OfflineRestart.FRESH_STORE, es).state.db.value, c);
  }

  lemma NothingStored()
    ensures OnlyMessages(map[])
  {
  }

  lemma PersistSome(s: State, c: Bytes)
    requires s.db.Some?
    ensures Persist(s, c).db.Some?
  {
  }

  lemma OnlyHolds(db: Database, c: Bytes)
    requires OnlyMessages(db)
    ensures HoldsMessages(db, c)
  {
    SeqKeyApart(c, c);
  }
}
