/** The QoS 2 duplicate gate over whole runs
    (internal/broker/dedup.go, and its use in internal/broker/client.go). */
module Dedup {
  import opened ByteStrings

  // ----- Keys -----

  function DedupKey(client: Bytes, id: PacketID): Bytes { client + [COLON] + Decimal(id, 0) }

  /** Clients never interfere: a key names one client and one packet id. */
  lemma KeyInjective(c: Bytes, i: PacketID, d: Bytes, j: PacketID)
    ensures DedupKey(c, i) == DedupKey(d, j) <==> c == d && i == j
  {
    if DedupKey(c, i) == DedupKey(d, j) {
      ColonFromRight(c, i, d, j);
      ColonFromRight(d, j, c, i);
      var k, n := DedupKey(c, i), |c|;
      assert k[..n] == c && DedupKey(d, j)[..n] == d;
      assert k[n + 1..] == Decimal(i, 0) && DedupKey(d, j)[n + 1..] == Decimal(j, 0);
      NumberOfDecimal(i, 0);
      NumberOfDecimal(j, 0);
    }
  }

  /** No digit is a colon, so the last colon is the separator. */
  lemma ColonFromRight(c: Bytes, i: PacketID, d: Bytes, j: PacketID)
    requires DedupKey(c, i) == DedupKey(d, j)
    ensures |c| >= |d|
  {
    var k := DedupKey(c, i);
    assert DedupKey(d, j)[|d|] == COLON;
    assert forall at :: 0 <= at < |Decimal(i, 0)| ==> k[|c| + 1 + at] == Decimal(i, 0)[at];
  }

  // ----- Steps -----

  /** Expiry instant per key. */
  type Entries = map<Bytes, int>

  function IsDuplicate(entries: Entries, key: Bytes, now: int): bool {
    key in entries && now <= entries[key]
  }

  function Swept(entries: Entries, now: int): Entries {
    map k | k in entries && now <= entries[k] :: entries[k]
  }

  /** The separately locked calls: the test, the mark made after a test that passed,
      the removal on PUBREL, and the background sweep. Calls of different connections
      interleave freely. */
  datatype Event =
    | Check(client: Bytes, id: PacketID, now: int)
    | Mark(client: Bytes, id: PacketID, now: int)
    | Pubrel(client: Bytes, id: PacketID, now: int)
    | Cleanup(now: int)

  function Step(ttl: int, entries: Entries, e: Event): Entries {
    match e
    case Check(c, id, now) =>
      if IsDuplicate(entries, DedupKey(c, id), now) then entries else entries - {DedupKey(c, id)}
    case Mark(c, id, now) => entries[DedupKey(c, id) := now + ttl]
    case Pubrel(c, id, now) => entries - {DedupKey(c, id)}
    case Cleanup(now) => Swept(entries, now)
  }

  function RunFrom(ttl: int, entries: Entries, es: seq<Event>): Entries {
    if es == [] then entries else Step(ttl, RunFrom(ttl, entries, es[..|es| - 1]), es[|es| - 1])
  }

  function Run(ttl: int, es: seq<Event>): Entries { RunFrom(ttl, map[], es) }

  ghost predicate Monotone(es: seq<Event>) {
    forall i, j :: 0 <= i < j < |es| ==> es[i].now <= es[j].now
  }

  /** The event is about this client and packet id. */
  predicate About(e: Event, client: Bytes, id: PacketID) { !e.Cleanup? && e.client == client && e.id == id }

  /** Does the i-th event pass the gate? */
  predicate Passes(ttl: int, es: seq<Event>, i: nat)
    requires i < |es|
  {
    es[i].Check? && !IsDuplicate(Run(ttl, es[..i]), DedupKey(es[i].client, es[i].id), es[i].now)
  }

  // ----- What the gate means -----

  /** When the pair was last marked, unless it was released since. */
  function LastMark(es: seq<Event>, client: Bytes, id: PacketID): Option<int> {
    if es == [] then None
    else
      var e := es[|es| - 1];
      if e.Mark? && About(e, client, id) then Some(e.now)
      else if e.Pubrel? && About(e, client, id) then None
      else LastMark(es[..|es| - 1], client, id)
  }

  /** The gate by history alone: blocked exactly while the latest mark of this client
      and id is at most the time-to-live old and not released. */
  predicate Blocked(ttl: int, es: seq<Event>, client: Bytes, id: PacketID, now: int) {
    LastMark(es, client, id).Some? && now <= LastMark(es, client, id).value + ttl
  }

  /** What the table remembers about a key, compared with the history. */
  ghost predicate Remembers(ttl: int, es: seq<Event>, client: Bytes, id: PacketID, now: int) {
    forall t :: now <= t ==> IsDuplicate(Run(ttl, es), DedupKey(client, id), t) == Blocked(ttl, es, client, id, t)
  }

  /** At every point of every interleaving, the gate answers what the history says. */
  lemma {:induction false} GateExact(ttl: int, es: seq<Event>, client: Bytes, id: PacketID, now: int)
    requires Monotone(es) && forall i :: 0 <= i < |es| ==> es[i].now <= now
    ensures Remembers(ttl, es, client, id, now)
    decreases |es|
  {
    if es != [] {
      var n := |es| - 1;
      var front, e := es[..n], es[n];
      GateExact(ttl, front, client, id, e.now);
      var key := DedupKey(client, id);
      if !e.Cleanup? { KeyInjective(client, id, e.client, e.id); }
      assert Run(ttl, es) == Step(ttl, Run(ttl, front), e);
      forall t | now <= t ensures IsDuplicate(Run(ttl, es), key, t) == Blocked(ttl, es, client, id, t) {
        assert IsDuplicate(Run(ttl, front), key, t) == Blocked(ttl, front, client, id, t);
      }
    }
  }

  /** No event from `i` to `j`, both exclusive, is a PUBREL of the pair. */
  ghost predicate NotReleased(es: seq<Event>, i: int, j: int, client: Bytes, id: PacketID)
    requires -1 <= i <= j <= |es|
  {
    forall k :: i < k < j ==> !(es[k].Pubrel? && About(es[k], client, id))
  }

  ghost predicate NotMarked(es: seq<Event>, i: int, j: int, client: Bytes, id: PacketID)
    requires -1 <= i <= j <= |es|
  {
    forall k :: i < k < j ==> !(es[k].Mark? && About(es[k], client, id))
  }

  /** A mark blocks the pair until it is released or the time-to-live is over. */
  lemma {:induction false} BlockedSince(ttl: int, es: seq<Event>, i: nat, now: int)
    requires Monotone(es) && i < |es| && es[i].Mark? && NotReleased(es, i, |es|, es[i].client, es[i].id)
    requires now <= es[i].now + ttl
    ensures Blocked(ttl, es, es[i].client, es[i].id, now)
    decreases |es|
  {
    var n := |es| - 1;
    if i < n {
      BlockedSince(ttl, es[..n], i, now);
      assert es[i].now <= es[n].now;
    }
  }

  /** Without a mark, a pair that is not blocked stays so. */
  lemma {:induction false} StaysOpen(ttl: int, es: seq<Event>, i: nat, client: Bytes, id: PacketID, now: int, later: int)
    requires i <= |es| && NotMarked(es, i - 1, |es|, client, id)
    requires !Blocked(ttl, es[..i], client, id, now) && now <= later
    ensures !Blocked(ttl, es, client, id, later)
    decreases |es|
  {
    if i < |es| {
      var n := |es| - 1;
      assert es[..n][..i] == es[..i];
      StaysOpen(ttl, es[..n], i, client, id, now, later);
    } else {
      assert es[..i] == es;
    }
  }

  lemma PassesUnblocked(ttl: int, es: seq<Event>, i: nat)
    requires Monotone(es) && i < |es| && es[i].Check?
    ensures Passes(ttl, es, i) <==> !Blocked(ttl, es[..i], es[i].client, es[i].id, es[i].now)
  {
    GateExact(ttl, es[..i], es[i].client, es[i].id, es[i].now);
    assert Remembers(ttl, es[..i], es[i].client, es[i].id, es[i].now);
  }

  /** QoS 2 once-only delivery, exactly: after a publish that passed and within its
      time-to-live, with no PUBREL between, a second publish of the pair passes if and
      only if the first has not been marked yet. */
  lemma SecondPassExactly(ttl: int, es: seq<Event>, i: nat, j: nat)
    requires Monotone(es) && i < j < |es| && Passes(ttl, es, i) && es[j].Check?
    requires About(es[j], es[i].client, es[i].id) && NotReleased(es, i, j, es[i].client, es[i].id)
    requires es[j].now <= es[i].now + ttl
    ensures Passes(ttl, es, j) <==> NotMarked(es, i, j, es[i].client, es[i].id)
  {
    var c, id, front := es[i].client, es[i].id, es[..j];
    PassesUnblocked(ttl, es, i);
    PassesUnblocked(ttl, es, j);
    if NotMarked(es, i, j, c, id) {
      assert front[..i] == es[..i];
      StaysOpen(ttl, front, i, c, id, es[i].now, es[j].now);
    } else {
      var k :| i < k < j && es[k].Mark? && About(es[k], c, id);
      assert front[k] == es[k];
      BlockedSince(ttl, front, k, es[j].now);
    }
  }

  /** Each publish that passes is marked before the next test of its pair, as on one
      connection, whatever other connections and the sweep do in between. */
  ghost predicate MarkedInTime(ttl: int, es: seq<Event>) {
    forall i, j :: 0 <= i < j < |es| && Passes(ttl, es, i) && es[j].Check? && About(es[j], es[i].client, es[i].id) ==>
      !NotMarked(es, i, j, es[i].client, es[i].id)
  }

  /** QoS 2 once-only delivery: then two publishes of one client and packet id that both
      pass with no PUBREL between them are more than the time-to-live apart, counted
      from the mark. */
  lemma AcceptedTwice(ttl: int, es: seq<Event>, i: nat, j: nat)
    requires Monotone(es) && MarkedInTime(ttl, es) && i < j < |es| && Passes(ttl, es, i) && Passes(ttl, es, j)
    requires About(es[j], es[i].client, es[i].id) && NotReleased(es, i, j, es[i].client, es[i].id)
    ensures es[j].now > es[i].now + ttl
    ensures forall k :: i < k < j && es[k].Mark? && About(es[k], es[i].client, es[i].id) ==> es[j].now > es[k].now + ttl
  {
    var c, id, front := es[i].client, es[i].id, es[..j];
    PassesUnblocked(ttl, es, j);
    forall k | i < k < j && es[k].Mark? && About(es[k], c, id) ensures es[j].now > es[k].now + ttl {
      if es[j].now <= es[k].now + ttl {
        assert front[k] == es[k];
        BlockedSince(ttl, front, k, es[j].now);
      }
    }
    if es[j].now <= es[i].now + ttl { SecondPassExactly(ttl, es, i, j); }
  }

  /** Two connections of one client id can both test before either marks: then the same
      publish passes twice at once. */
  lemma BothPass(ttl: int, client: Bytes, id: PacketID, now: int)
    ensures var es := [Check(client, id, now), Check(client, id, now), Mark(client, id, now), Mark(client, id, now)];
            Monotone(es) && Passes(ttl, es, 0) && Passes(ttl, es, 1) && NotReleased(es, 0, 1, client, id)
  {
    var es := [Check(client, id, now), Check(client, id, now), Mark(client, id, now), Mark(client, id, now)];
    assert es[..0] == [] && es[..1] == [es[0]] && es[..1][..0] == [];
    assert Run(ttl, es[..1]) == Step(ttl, RunFrom(ttl, map[], es[..1][..0]), es[0]) == map[];
  }

  /** A PUBREL always reopens the gate. */
  lemma ReleasedPasses(ttl: int, es: seq<Event>, client: Bytes, id: PacketID, now: int)
    requires es != [] && es[|es| - 1].Pubrel? && es[|es| - 1].client == client && es[|es| - 1].id == id
    ensures !IsDuplicate(Run(ttl, es), DedupKey(client, id), now)
  {
  }

  // ----- Background cleanup and other clients -----

  function Only(es: seq<Event>, client: Bytes, id: PacketID): seq<Event> {
    if es == [] then []
    else
      var e := es[|es| - 1];
      Only(es[..|es| - 1], client, id) + if About(e, client, id) then [e] else []
  }

  lemma {:induction false} OnlyMonotone(es: seq<Event>, client: Bytes, id: PacketID, now: int)
    requires Monotone(es) && forall i :: 0 <= i < |es| ==> es[i].now <= now
    ensures Monotone(Only(es, client, id))
    ensures forall i :: 0 <= i < |Only(es, client, id)| ==> Only(es, client, id)[i].now <= now
    decreases |es|
  {
    if es != [] {
      var n := |es| - 1;
      OnlyMonotone(es[..n], client, id, es[n].now);
    }
  }

  lemma {:induction false} LastMarkOnly(es: seq<Event>, client: Bytes, id: PacketID)
    ensures LastMark(es, client, id) == LastMark(Only(es, client, id), client, id)
    decreases |es|
  {
    if es != [] {
      var n := |es| - 1;
      LastMarkOnly(es[..n], client, id);
      if About(es[n], client, id) {
        var kept := Only(es[..n], client, id) + [es[n]];
        assert kept[..|kept| - 1] == Only(es[..n], client, id);
      } else {
        assert Only(es, client, id) == Only(es[..n], client, id);
      }
    }
  }

  /** Sweeps at any points, other packet ids and other clients never change an
      answer: the gate behaves as if only this client and id had ever been seen. */
  lemma OthersIrrelevant(ttl: int, es: seq<Event>, client: Bytes, id: PacketID, now: int)
    requires Monotone(es) && forall i :: 0 <= i < |es| ==> es[i].now <= now
    ensures var key := DedupKey(client, id);
            IsDuplicate(Run(ttl, es), key, now) == IsDuplicate(Run(ttl, Only(es, client, id)), key, now)
  {
    GateExact(ttl, es, client, id, now);
    OnlyMonotone(es, client, id, now);
    GateExact(ttl, Only(es, client, id), client, id, now);
    assert Remembers(ttl, es, client, id, now) && Remembers(ttl, Only(es, client, id), client, id, now);
    LastMarkOnly(es, client, id);
  }

  // ----- As the source runs -----

  lemma {:induction false} RunJoins(ttl: int, entries: Entries, es: seq<Event>, later: seq<Event>)
    ensures RunFrom(ttl, entries, es + later) == RunFrom(ttl, RunFrom(ttl, entries, es), later)
    decreases |later|
  {
    if later == [] {
      assert es + later == es;
    } else {
      var n := |later| - 1;
      assert (es + later)[..|es| + n] == es + later[..n];
      RunJoins(ttl, entries, es, later[..n]);
    }
  }

  class DedupStore {
    var entries: Entries
    const ttl: int

    constructor (ttl: int)
      ensures this.ttl == ttl && entries == Run(ttl, [])
    {
      this.ttl := ttl;
      entries := map[];
    }

    /** Also forgets the entry it finds expired, which no later answer can tell. */
    method Check(client: Bytes, id: PacketID, now: int) returns (duplicate: bool)
      modifies this
      ensures duplicate == IsDuplicate(old(entries), DedupKey(client, id), now)
      ensures entries == Step(ttl, old(entries), Event.Check(client, id, now))
    {
      var key := DedupKey(client, id);
      if key !in entries {
        assert entries - {key} == entries;
        return false;
      }
      if now > entries[key] {
        entries := entries - {key};
        return false;
      }
      return true;
    }

    method MarkReceived(client: Bytes, id: PacketID, now: int)
      modifies this
      ensures entries == Step(ttl, old(entries), Mark(client, id, now))
    {
      entries := entries[DedupKey(client, id) := now + ttl];
    }

    method Remove(client: Bytes, id: PacketID)
      modifies this
      ensures forall now :: entries == Step(ttl, old(entries), Pubrel(client, id, now))
    {
      entries := entries - {DedupKey(client, id)};
    }

    /** The sweep: visit every key, delete the expired ones. */
    method Cleanup(now: int)
      modifies this
      ensures entries == Step(ttl, old(entries), Event.Cleanup(now))
    {
      var todo := entries.Keys;
      while todo != {}
        invariant todo <= entries.Keys <= old(entries).Keys
        invariant forall k :: k in entries ==> entries[k] == old(entries)[k]
        invariant forall k :: k in old(entries) && k !in todo ==> (k in entries <==> now <= old(entries)[k])
        decreases |todo|
      {
        var key :| key in todo;
        todo := todo - {key};
        if now > entries[key] {
          entries := entries - {key};
        }
      }
    }

    /** Calls of other connections and of the sweep. */
    method Interleave(es: seq<Event>)
      modifies this
      ensures entries == RunFrom(ttl, old(entries), es)
    {
      for i := 0 to |es|
        invariant entries == RunFrom(ttl, old(entries), es[..i])
      {
        assert es[..i + 1][..i] == es[..i];
        match es[i] {
          case Check(c, id, now) => var _ := Check(c, id, now);
          case Mark(c, id, now) => MarkReceived(c, id, now);
          case Pubrel(c, id, now) => Remove(c, id);
          case Cleanup(now) => Cleanup(now);
        }
      }
      assert es[..|es|] == es;
    }

    /** The QoS 2 branch of `handlePublish`, with whatever `between` happens after its
        test: is the message to be routed? */
    method HandlePublish(client: Bytes, id: PacketID, now: int, between: seq<Event>, marked: int) returns (routed: bool)
      modifies this
      ensures routed == !IsDuplicate(old(entries), DedupKey(client, id), now)
      ensures entries == RunFrom(ttl, old(entries),
                [Event.Check(client, id, now)] + if routed then between + [Mark(client, id, marked)] else [])
    {
      ghost var es := [Event.Check(client, id, now)];
      assert es[..0] == [];
      var duplicate := Check(client, id, now);
      assert entries == RunFrom(ttl, old(entries), es);
      if duplicate {
        assert es + [] == es;
        return false;
      }
      Interleave(between);
      RunJoins(ttl, old(entries), es, between);
      MarkReceived(client, id, marked);
      ghost var all := es + (between + [Mark(client, id, marked)]);
      assert all[..|all| - 1] == es + between;
      return true;
    }
  }
}
