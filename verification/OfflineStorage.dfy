/** The offline store: per-client queues mirrored into an ordered key-value store
    (internal/broker/offline.go), as step functions on values. The class in
    OfflineStoreClass runs the source's loops and takes exactly these steps. */
module OfflineStorage {
  import opened ByteStrings
  import opened Storage
  import opened OfflineQueue

  const OM: Bytes := [111, 109, 47] // "om/"
  const OM_SEQ: Bytes := [111, 109, 45, 115, 101, 113, 47] // "om-seq/"
  const KEY_DIGITS: nat := 20
  const MAX_INT: int := 0x7fff_ffff_ffff_ffff

  /** A stored value: a marshalled message, an 8-byte counter, or anything else. */
  datatype Stored = Message(msg: OfflineMessage) | Counter(next: nat) | Other

  type Database = map<Bytes, Stored>
  type Queues = map<Bytes, seq<OfflineMessage>>

  function ClientPrefix(client: Bytes): Bytes { OM + client + [SLASH] }

  function MessageKey(client: Bytes, seqNum: nat): Bytes {
    ClientPrefix(client) + Decimal(seqNum, KEY_DIGITS)
  }

  function SeqKey(client: Bytes): Bytes { OM_SEQ + client }

  /** Client ids the key format can tell apart. */
  predicate Plain(client: Bytes) { SLASH !in client }

  function QueueOf(queues: Queues, client: Bytes): seq<OfflineMessage> {
    if client in queues then queues[client] else []
  }

  // ----- Reading keys back -----

  function FirstSlash(s: Bytes): (r: Option<nat>)
    ensures r.Some? ==> r.value < |s| && s[r.value] == SLASH && SLASH !in s[..r.value]
    ensures r.None? ==> SLASH !in s
  {
    if s == [] then None
    else if s[0] == SLASH then Some(0)
    else
      var rest := FirstSlash(s[1..]);
      assert s == [s[0]] + s[1..];
      if rest.None? then None
      else
        assert s[..rest.value + 1] == [s[0]] + s[1..][..rest.value];
        Some(rest.value + 1)
  }

  /** The client a message key is loaded for: everything up to the first '/'
      behind "om/". */
  function ClientOf(key: Bytes): Option<Bytes>
    requires HasPrefix(key, OM)
  {
    var rest := key[|OM|..];
    var slash := FirstSlash(rest);
    if slash.None? then None else Some(rest[..slash.value])
  }

  /** For a plain id, loading and prefix scanning select the same keys. */
  lemma ClientOfMatchesPrefix(key: Bytes, client: Bytes)
    requires HasPrefix(key, OM) && Plain(client)
    ensures ClientOf(key) == Some(client) <==> HasPrefix(key, ClientPrefix(client))
  {
    var rest, n := key[|OM|..], |client|;
    assert key == OM + rest;
    var slash := FirstSlash(rest);
    if HasPrefix(key, ClientPrefix(client)) {
      assert rest[..n] == key[|OM|..|OM| + n] == ClientPrefix(client)[|OM|..|OM| + n] == client;
      assert rest[n] == ClientPrefix(client)[|OM| + n] == SLASH;
      assert slash.Some? && slash.value == n;
    }
    if ClientOf(key) == Some(client) {
      assert rest[..n + 1] == client + [SLASH];
      assert key[..|OM| + n + 1] == OM + rest[..n + 1];
      assert OM + (client + [SLASH]) == ClientPrefix(client);
    }
  }

  /** A stored message is loaded back for its own client exactly when the id is plain. */
  lemma KeyRoundTrip(client: Bytes, n: nat)
    ensures HasPrefix(MessageKey(client, n), OM)
    ensures ClientOf(MessageKey(client, n)) == Some(client) <==> Plain(client)
  {
    var key := MessageKey(client, n);
    assert key == OM + (client + [SLASH] + Decimal(n, KEY_DIGITS));
    if Plain(client) {
      ClientOfMatchesPrefix(key, client);
    }
  }

  lemma PrefixesDisjoint(key: Bytes, c: Bytes, d: Bytes)
    requires Plain(c) && Plain(d) && c != d
    requires HasPrefix(key, ClientPrefix(c))
    ensures !HasPrefix(key, ClientPrefix(d))
  {
    assert key[..|OM|] == ClientPrefix(c)[..|OM|] == OM;
    ClientOfMatchesPrefix(key, c);
    ClientOfMatchesPrefix(key, d);
  }

  lemma SeqKeyApart(c: Bytes, d: Bytes)
    ensures !HasPrefix(SeqKey(c), ClientPrefix(d)) && !HasPrefix(SeqKey(c), OM)
    ensures HasPrefix(ClientPrefix(d), OM)
  {
    assert SeqKey(c)[2] == 45 && ClientPrefix(d)[2] == SLASH;
  }

  // ----- The mirror in the store -----

  /** The messages under a list of keys. */
  function MessagesAt(db: Database, keys: seq<Bytes>): seq<OfflineMessage>
    requires forall k :: k in keys ==> k in db
  {
    if keys == [] then []
    else
      var last := keys[|keys| - 1];
      MessagesAt(db, keys[..|keys| - 1]) + (if db[last].Message? then [db[last].msg] else [])
  }

  /** The messages stored for a client, in key order. */
  ghost function StoredFor(db: Database, client: Bytes): seq<OfflineMessage> {
    MessagesAt(db, KeyOrder(KeysWith(db.Keys, ClientPrefix(client))))
  }

  function Cleared(db: Database, client: Bytes): Database {
    db - KeysWith(db.Keys, ClientPrefix(client))
  }

  /** `persistMessage` for a whole queue, numbering from 0. */
  function Written(db: Database, client: Bytes, q: seq<OfflineMessage>): Database {
    if q == [] then db
    else
      var n := |q| - 1;
      Written(db, client, q[..n])[MessageKey(client, n) := Message(q[n])][SeqKey(client) := Counter(n + 1)]
  }

  /** `clearPebbleMessages`: drop the client's keys and write its queue afresh. */
  function Rewritten(db: Database, client: Bytes, q: seq<OfflineMessage>): Database {
    if q == [] then Cleared(db, client) - {SeqKey(client)} else Written(Cleared(db, client), client, q)
  }

  lemma KeysInjective(c: Bytes, i: nat, j: nat)
    requires MessageKey(c, i) == MessageKey(c, j)
    ensures i == j
  {
    var p := ClientPrefix(c);
    assert MessageKey(c, i)[|p|..] == Decimal(i, KEY_DIGITS);
    assert MessageKey(c, j)[|p|..] == Decimal(j, KEY_DIGITS);
    NumberOfDecimal(i, KEY_DIGITS);
    NumberOfDecimal(j, KEY_DIGITS);
  }

  lemma MessageKeyApart(c: Bytes, i: nat, j: nat)
    ensures MessageKey(c, i) != SeqKey(c) && HasPrefix(MessageKey(c, i), ClientPrefix(c))
    ensures i != j ==> MessageKey(c, i) != MessageKey(c, j)
  {
    SeqKeyApart(c, c);
    if MessageKey(c, i) == MessageKey(c, j) { KeysInjective(c, i, j); }
  }

  lemma {:induction false} WrittenContents(db: Database, c: Bytes, q: seq<OfflineMessage>)
    ensures forall i :: 0 <= i < |q| ==>
              MessageKey(c, i) in Written(db, c, q) && Written(db, c, q)[MessageKey(c, i)] == Message(q[i])
    ensures forall k :: k in Written(db, c, q) && k !in db ==>
              k == SeqKey(c) || exists i :: 0 <= i < |q| && k == MessageKey(c, i)
    ensures forall k :: k in db && !HasPrefix(k, ClientPrefix(c)) && k != SeqKey(c) ==>
              k in Written(db, c, q) && Written(db, c, q)[k] == db[k]
  {
    hide MessageKey, SeqKey, HasPrefix, ClientPrefix;
    if q != [] {
      var n := |q| - 1;
      WrittenContents(db, c, q[..n]);
      forall i | 0 <= i < |q|
        ensures MessageKey(c, i) != SeqKey(c) && HasPrefix(MessageKey(c, i), ClientPrefix(c))
        ensures i < n ==> MessageKey(c, i) != MessageKey(c, n)
      {
        MessageKeyApart(c, i, n);
      }
      var before := Written(db, c, q[..n]);
      forall k | k in Written(db, c, q) && k !in db
        ensures k == SeqKey(c) || exists i :: 0 <= i < |q| && k == MessageKey(c, i)
      {
        if k != SeqKey(c) && k != MessageKey(c, n) { assert k in before; }
      }
    }
  }

  function KeyList(c: Bytes, n: nat): seq<Bytes> { seq(n, i requires 0 <= i < n => MessageKey(c, i)) }

  /** Twenty digits hold every Go `int`. */
  lemma TwentyDigits()
    ensures MAX_INT < Pow10(KEY_DIGITS)
  {
    assert Pow10(4) == 10_000;
    assert Pow10(8) == 10_000 * Pow10(4);
    assert Pow10(12) == 10_000 * Pow10(8);
    assert Pow10(16) == 10_000 * Pow10(12);
    assert Pow10(20) == 10_000 * Pow10(16);
  }

  /** Numbered keys come back in queue order. */
  lemma KeyListAscending(c: Bytes, n: nat)
    requires n <= MAX_INT
    ensures Ascending(KeyList(c, n))
  {
    TwentyDigits();
    forall i, j | 0 <= i < j < n ensures LexLess(KeyList(c, n)[i], KeyList(c, n)[j]) {
      PaddedOrder(i, j, KEY_DIGITS);
      LexCommonPrefix(ClientPrefix(c), Decimal(i, KEY_DIGITS), Decimal(j, KEY_DIGITS));
    }
  }

  lemma {:induction false} MessagesAtList(db: Database, c: Bytes, q: seq<OfflineMessage>)
    requires forall i :: 0 <= i < |q| ==> MessageKey(c, i) in db && db[MessageKey(c, i)] == Message(q[i])
    ensures MessagesAt(db, KeyList(c, |q|)) == q
  {
    var keys := KeyList(c, |q|);
    if q != [] {
      var n := |q| - 1;
      assert keys[..n] == KeyList(c, n);
      MessagesAtList(db, c, q[..n]);
    } else {
      assert keys == [];
    }
  }

  /** Rewriting a client's queue stores exactly that queue, in order. */
  lemma RewriteStores(db: Database, c: Bytes, q: seq<OfflineMessage>)
    requires |q| <= MAX_INT
    ensures StoredFor(Rewritten(db, c, q), c) == q
  {
    var after := Rewritten(db, c, q);
    WrittenContents(Cleared(db, c), c, q);
    SeqKeyApart(c, c);
    var keys := KeyList(c, |q|);
    var mine := KeysWith(after.Keys, ClientPrefix(c));
    forall k ensures k in keys <==> k in mine {
      if k in keys {
        var i :| 0 <= i < |q| && k == keys[i];
        assert k == MessageKey(c, i);
      }
      if k in mine {
        assert k !in Cleared(db, c);
        var i :| 0 <= i < |q| && k == MessageKey(c, i);
        assert keys[i] == k;
      }
    }
    KeyListAscending(c, |q|);
    ListsUnique(KeyOrder(mine), keys, mine);
    MessagesAtList(after, c, q);
  }

  lemma {:induction false} MessagesAtSame(db: Database, db': Database, keys: seq<Bytes>)
    requires forall k :: k in keys ==> k in db && k in db' && db[k] == db'[k]
    ensures MessagesAt(db, keys) == MessagesAt(db', keys)
  {
    if keys != [] {
      assert forall k :: k in keys[..|keys| - 1] ==> k in keys;
      MessagesAtSame(db, db', keys[..|keys| - 1]);
    }
  }

  /** Same keys and values under the client's prefix: same stored queue. */
  lemma StoredForSame(db: Database, db': Database, d: Bytes)
    requires forall k :: HasPrefix(k, ClientPrefix(d)) ==> (k in db <==> k in db') && (k in db ==> db[k] == db'[k])
    ensures StoredFor(db, d) == StoredFor(db', d)
  {
    assert KeysWith(db.Keys, ClientPrefix(d)) == KeysWith(db'.Keys, ClientPrefix(d));
    MessagesAtSame(db, db', KeyOrder(KeysWith(db.Keys, ClientPrefix(d))));
  }

  /** Rewriting one client leaves every other client's stored queue alone. */
  lemma RewriteFrame(db: Database, c: Bytes, q: seq<OfflineMessage>, d: Bytes)
    requires Plain(c) && Plain(d) && c != d
    ensures StoredFor(Rewritten(db, c, q), d) == StoredFor(db, d)
  {
    var after := Rewritten(db, c, q);
    WrittenContents(Cleared(db, c), c, q);
    forall k | HasPrefix(k, ClientPrefix(d))
      ensures (k in db <==> k in after) && (k in db ==> db[k] == after[k])
    {
      PrefixesDisjoint(k, d, c);
      SeqKeyApart(c, d);
      assert forall i :: 0 <= i < |q| ==> HasPrefix(MessageKey(c, i), ClientPrefix(c));
    }
    StoredForSame(db, after, d);
  }

  // ----- Loading -----

  function LoadOne(db: Database, queues: Queues, key: Bytes): Queues
    requires key in db && HasPrefix(key, OM)
  {
    var client := ClientOf(key);
    if client.None? || !db[key].Message? then queues
    else queues[client.value := QueueOf(queues, client.value) + [db[key].msg]]
  }

  function Loaded(db: Database, queues: Queues, keys: seq<Bytes>): Queues
    requires forall k :: k in keys ==> k in db && HasPrefix(k, OM)
  {
    if keys == [] then queues
    else LoadOne(db, Loaded(db, queues, keys[..|keys| - 1]), keys[|keys| - 1])
  }

  lemma {:induction false} LoadedQueue(db: Database, keys: seq<Bytes>, c: Bytes)
    requires forall k :: k in keys ==> k in db && HasPrefix(k, OM)
    requires Plain(c)
    ensures QueueOf(Loaded(db, map[], keys), c)
            == MessagesAt(db, Select(keys, KeysWith(db.Keys, ClientPrefix(c))))
  {
    if keys != [] {
      var n := |keys| - 1;
      LoadedQueue(db, keys[..n], c);
      ClientOfMatchesPrefix(keys[n], c);
      var chosen := Select(keys[..n], KeysWith(db.Keys, ClientPrefix(c)));
      assert (chosen + [keys[n]])[..|chosen|] == chosen;
      assert chosen + [] == chosen;
    }
  }

  ghost function LoadedQueues(db: Database): Queues {
    Loaded(db, map[], KeyOrder(KeysWith(db.Keys, OM)))
  }

  /** Loading gives every plain client exactly the queue stored for it. */
  lemma LoadReadsStored(db: Database, c: Bytes)
    requires Plain(c)
    ensures QueueOf(LoadedQueues(db), c) == StoredFor(db, c)
  {
    var keys := KeyOrder(KeysWith(db.Keys, OM));
    var mine := KeysWith(db.Keys, ClientPrefix(c));
    LoadedQueue(db, keys, c);
    SelectAscending(keys, mine);
    forall k | k in mine ensures k in keys {
      assert k[..|OM|] == ClientPrefix(c)[..|OM|] == OM;
    }
    ListsUnique(Select(keys, mine), KeyOrder(mine), mine);
  }

  // ----- Steps -----

  datatype State = State(queues: Queues, seqNums: map<Bytes, nat>, db: Option<Database>)

  function Persist(s: State, client: Bytes): State {
    var q := QueueOf(s.queues, client);
    if s.db.None? then s
    else s.(db := Some(Rewritten(s.db.value, client, q)),
            seqNums := if q == [] then s.seqNums - {client} else s.seqNums[client := |q|])
  }

  function EnqueueStep(cfg: Config, s: State, client: Bytes, m: OfflineMessage, now: int): (State, bool) {
    var a := Admit(cfg, QueueOf(s.queues, client), m, now);
    var s' := s.(queues := s.queues[client := a.queue]);
    if a.accepted then (Persist(s', client), true) else (s', false)
  }

  function DequeueStep(s: State, client: Bytes, maxCount: nat, now: int): (State, seq<OfflineMessage>) {
    if client !in s.queues then (s, [])
    else
      var d := Drain(s.queues[client], maxCount, now);
      var queues := if d.rest == [] then s.queues - {client} else s.queues[client := d.rest];
      (Persist(s.(queues := queues), client), d.result)
  }

  function RemoveAllStep(s: State, client: Bytes): State {
    Persist(s.(queues := s.queues - {client}), client)
  }

  /** The counters `LoadFromStore` reads back from the "om-seq/" keys. */
  function LoadedCounters(db: Database): map<Bytes, nat> {
    map c | c in (set k | k in db.Keys && HasPrefix(k, OM_SEQ) :: k[|OM_SEQ|..])
            && SeqKey(c) in db && db[SeqKey(c)].Counter? :: db[SeqKey(c)].next
  }

  /** A new process over the same store: empty maps, then `LoadFromStore`. */
  ghost function RestartStep(s: State): State {
    if s.db.None? then State(map[], map[], None)
    else State(LoadedQueues(s.db.value), LoadedCounters(s.db.value), s.db)
  }
}
