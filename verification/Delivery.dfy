/** Outbound packet ids and the in-flight table
    (internal/broker/packet_id.go, inflight.go and deliverMessage in client.go). */
module Delivery {
  import opened ByteStrings

  const PERIOD: nat := 65535

  // ----- Packet ids -----

  /** A uint16 increment that skips 0. */
  function NextID(counter: PacketID): (id: PacketID) {
    var c := (counter + 1) % 0x1_0000;
    if c == 0 then 1 else c
  }

  /** The allocator's counter after `k` allocations. */
  function CounterAfter(k: nat): PacketID { if k == 0 then 0 else NextID(CounterAfter(k - 1)) }

  lemma {:induction false} AllocatedID(k: nat)
    requires k >= 1
    ensures CounterAfter(k) == (k - 1) % PERIOD + 1
    decreases k
  {
    hide CounterAfter;
    CounterStep(k - 1);
    if k > 1 {
      AllocatedID(k - 1);
      ModStep(k - 2);
    }
  }

  lemma CounterStep(k: nat)
    ensures CounterAfter(k + 1) == NextID(CounterAfter(k)) && CounterAfter(0) == 0
  {
  }

  lemma ModStep(n: nat)
    ensures (n + 1) % PERIOD == if n % PERIOD == PERIOD - 1 then 0 else n % PERIOD + 1
  {
  }

  /** A whole number of periods. */
  predicate WholePeriods(n: int) { n % PERIOD == 0 }

  /** Two allocations share an id exactly when they are a multiple of 65535 apart,
      so any 65535 consecutive ids are distinct; none is 0. */
  lemma IDsRepeat(j: nat, k: nat)
    requires 1 <= j <= k
    ensures CounterAfter(j) == CounterAfter(k) <==> WholePeriods(k - j)
    ensures j < k < j + PERIOD ==> CounterAfter(j) != CounterAfter(k)
    ensures CounterAfter(j) != 0
  {
    hide CounterAfter;
    AllocatedID(j);
    AllocatedID(k);
    SameRemainder(j - 1, k - 1);
  }

  lemma SameRemainder(a: nat, b: nat)
    requires a <= b
    ensures a % PERIOD == b % PERIOD <==> (b - a) % PERIOD == 0
  {
    var qa, qb := a / PERIOD, b / PERIOD;
    if (b - a) % PERIOD == 0 {
      var q := (b - a) / PERIOD;
      assert b == (qa + q) * PERIOD + a % PERIOD;
    }
    if a % PERIOD == b % PERIOD {
      assert b - a == (qb - qa) * PERIOD;
    }
  }

  // ----- The in-flight table -----

  /** `born` is the allocation that produced the message's id. */
  datatype Message = Message(topic: Bytes, payload: Bytes, born: nat)

  /** A connection: allocations so far, those whose message is not in the table yet, the
      table, and how many messages were handed to the connection and acknowledged. */
  datatype Conn = Conn(issued: nat, taken: set<nat>, inflight: map<PacketID, Message>, sent: nat, acked: nat)

  /** Taking an id and adding the message under it are separately locked, and several
      publishers deliver to one client. PUBACK and PUBREC remove an id. */
  datatype Event = Take | Add(k: nat, topic: Bytes, payload: Bytes) | Acknowledge(id: PacketID)

  const FRESH: Conn := Conn(0, {}, map[], 0, 0)

  /** Adding drops the message if the table is full. */
  function Step(limit: nat, s: Conn, e: Event): Conn {
    match e
    case Take => s.(issued := s.issued + 1, taken := s.taken + {s.issued + 1})
    case Add(k, t, p) =>
      if k !in s.taken then s
      else if |s.inflight| >= limit then s.(taken := s.taken - {k})
      else s.(taken := s.taken - {k}, inflight := s.inflight[CounterAfter(k) := Message(t, p, k)], sent := s.sent + 1)
    case Acknowledge(id) =>
      s.(inflight := s.inflight - {id}, acked := s.acked + if id in s.inflight then 1 else 0)
  }

  function RunFrom(limit: nat, s: Conn, es: seq<Event>): Conn {
    if es == [] then s else Step(limit, RunFrom(limit, s, es[..|es| - 1]), es[|es| - 1])
  }

  function Run(limit: nat, es: seq<Event>): Conn { RunFrom(limit, FRESH, es) }

  ghost predicate Valid(limit: nat, s: Conn) {
    && |s.inflight| <= limit
    && (forall k :: k in s.taken ==> 1 <= k <= s.issued)
    && forall id :: id in s.inflight ==> Placed(s, id, s.inflight[id].born)
  }

  predicate Placed(s: Conn, id: PacketID, born: nat) {
    1 <= born <= s.issued && born !in s.taken && id == CounterAfter(born)
  }

  lemma AddSize<V>(m: map<PacketID, V>, id: PacketID, v: V)
    ensures |m[id := v]| == |m| + if id in m then 0 else 1
  {
    assert m[id := v].Keys == m.Keys + {id};
  }

  lemma RemoveSize<V>(m: map<PacketID, V>, id: PacketID)
    ensures |m - {id}| == |m| - if id in m then 1 else 0
  {
    assert (m - {id}).Keys == m.Keys - {id};
  }

  lemma StepValid(limit: nat, s: Conn, e: Event)
    requires Valid(limit, s)
    ensures Valid(limit, Step(limit, s, e))
  {
    hide CounterAfter;
    match e
    case Take => TakeValid(limit, s);
    case Add(k, t, p) => if k in s.taken && |s.inflight| < limit { AddValid(limit, s, k, Message(t, p, k)); }
    case Acknowledge(id) => RemoveSize(s.inflight, id);
  }

  lemma TakeValid(limit: nat, s: Conn)
    requires Valid(limit, s)
    ensures Valid(limit, Step(limit, s, Take))
  {
    hide CounterAfter;
  }

  lemma AddValid(limit: nat, s: Conn, k: nat, m: Message)
    requires Valid(limit, s) && k in s.taken && |s.inflight| < limit && m.born == k
    ensures Valid(limit, s.(taken := s.taken - {k}, inflight := s.inflight[CounterAfter(k) := m], sent := s.sent + 1))
  {
    hide CounterAfter;
    AddSize(s.inflight, CounterAfter(k), m);
  }

  /** At most the limit is ever outstanding, and every entry sits under the id of
      its own allocation. */
  lemma {:induction false} TableBounded(limit: nat, es: seq<Event>)
    ensures Valid(limit, Run(limit, es))
    decreases |es|
  {
    hide Step;
    if es != [] {
      TableBounded(limit, es[..|es| - 1]);
      StepValid(limit, Run(limit, es[..|es| - 1]), es[|es| - 1]);
    }
  }

  /** Adding replaces the entry of an unacknowledged message. */
  ghost predicate Overwrites(limit: nat, s: Conn, k: nat, t: Bytes, p: Bytes) {
    exists id :: id in s.inflight && Step(limit, s, Add(k, t, p)).inflight[id] != s.inflight[id]
  }

  lemma SameID(j: nat, k: nat)
    requires j >= 1 && k >= 1
    ensures CounterAfter(j) == CounterAfter(k) <==> WholePeriods(k - j)
  {
    hide CounterAfter;
    if j <= k {
      IDsRepeat(j, k);
    } else {
      IDsRepeat(k, j);
      assert WholePeriods(j - k) <==> WholePeriods(k - j);
    }
  }

  /** Exactly when: the table has room and some unacknowledged message is a multiple of
      65535 allocations away from the one that is added. */
  lemma OverwriteExact(limit: nat, es: seq<Event>, k: nat, t: Bytes, p: Bytes)
    requires k in Run(limit, es).taken
    ensures var s := Run(limit, es);
            Overwrites(limit, s, k, t, p) <==>
            |s.inflight| < limit && exists id :: id in s.inflight && WholePeriods(k - s.inflight[id].born)
    ensures Overwrites(limit, Run(limit, es), k, t, p) <==>
            |Run(limit, es).inflight| < limit && CounterAfter(k) in Run(limit, es).inflight
  {
    hide CounterAfter, WholePeriods, Run;
    var s := Run(limit, es);
    TableBounded(limit, es);
    forall id | id in s.inflight ensures id == CounterAfter(k) <==> WholePeriods(k - s.inflight[id].born) {
      SameID(s.inflight[id].born, k);
    }
    if |s.inflight| < limit && CounterAfter(k) in s.inflight {
      assert Step(limit, s, Add(k, t, p)).inflight[CounterAfter(k)] != s.inflight[CounterAfter(k)];
    }
  }

  predicate Near(j: nat, k: nat) { j - k < PERIOD && k - j < PERIOD }

  /** At every point, unacknowledged messages and messages about to be added are less
      than 65535 allocations apart. */
  ghost predicate Prompt(limit: nat, es: seq<Event>) {
    forall n, id, k :: 0 <= n <= |es| && id in Run(limit, es[..n]).inflight && k in Run(limit, es[..n]).taken ==>
      Near(k, Run(limit, es[..n]).inflight[id].born)
  }

  lemma PromptPrefix(limit: nat, es: seq<Event>, n: nat)
    requires Prompt(limit, es) && n <= |es|
    ensures Prompt(limit, es[..n])
  {
    hide Run;
    forall m, id, k | 0 <= m <= n && id in Run(limit, es[..n][..m]).inflight && k in Run(limit, es[..n][..m]).taken
      ensures Near(k, Run(limit, es[..n][..m]).inflight[id].born)
    {
      assert es[..n][..m] == es[..m];
    }
  }

  lemma PromptNeverOverwrites(limit: nat, es: seq<Event>, k: nat, t: Bytes, p: Bytes)
    requires Prompt(limit, es) && k in Run(limit, es).taken
    ensures !Overwrites(limit, Run(limit, es), k, t, p)
  {
    hide CounterAfter, Run;
    var s := Run(limit, es);
    assert es[..|es|] == es;
    OverwriteExact(limit, es, k, t, p);
    TableBounded(limit, es);
    forall id | id in s.inflight ensures !WholePeriods(k - s.inflight[id].born) {
      assert id in Run(limit, es[..|es|]).inflight && k in Run(limit, es[..|es|]).taken;
    }
  }

  /** How many additions of a run overwrote a message. */
  ghost function Overwritten(limit: nat, es: seq<Event>): nat {
    if es == [] then 0
    else
      var front, e := es[..|es| - 1], es[|es| - 1];
      Overwritten(limit, front) +
      if e.Add? && e.k in Run(limit, front).taken && Overwrites(limit, Run(limit, front), e.k, e.topic, e.payload) then 1 else 0
  }

  lemma StepConserves(limit: nat, s: Conn, e: Event)
    ensures var s' := Step(limit, s, e);
            var over := if e.Add? && e.k in s.taken && |s.inflight| < limit && CounterAfter(e.k) in s.inflight then 1 else 0;
            s'.sent - s.sent == |s'.inflight| - |s.inflight| + (s'.acked - s.acked) + over
  {
    hide CounterAfter;
    match e
    case Take =>
    case Add(k, t, p) => AddSize(s.inflight, CounterAfter(k), Message(t, p, k));
    case Acknowledge(id) => RemoveSize(s.inflight, id);
  }

  /** Conservation: what was handed to the connection is outstanding, acknowledged or
      overwritten. */
  lemma {:induction false} SentConserved(limit: nat, es: seq<Event>)
    ensures var s := Run(limit, es); s.sent == |s.inflight| + s.acked + Overwritten(limit, es)
    decreases |es|
  {
    hide CounterAfter, Overwrites, Step;
    if es != [] {
      var n := |es| - 1;
      SentConserved(limit, es[..n]);
      StepConserves(limit, Run(limit, es[..n]), es[n]);
      if es[n].Add? && es[n].k in Run(limit, es[..n]).taken {
        OverwriteExact(limit, es[..n], es[n].k, es[n].topic, es[n].payload);
      }
    }
  }

  /** Then nothing is lost but by its own acknowledgement. */
  lemma {:induction false} PromptConserves(limit: nat, es: seq<Event>)
    requires Prompt(limit, es)
    ensures Overwritten(limit, es) == 0
    ensures var s := Run(limit, es); s.sent == |s.inflight| + s.acked
    decreases |es|
  {
    hide CounterAfter, Overwrites, Run;
    SentConserved(limit, es);
    if es != [] {
      var n := |es| - 1;
      PromptPrefix(limit, es, n);
      PromptConserves(limit, es[..n]);
      if es[n].Add? && es[n].k in Run(limit, es[..n]).taken {
        PromptNeverOverwrites(limit, es[..n], es[n].k, es[n].topic, es[n].payload);
      }
    }
  }

  // ----- As the source runs -----

  class PacketIDAllocator {
    var counter: PacketID
    ghost var allocations: nat

    ghost predicate Valid()
      reads this
    {
      counter == CounterAfter(allocations)
    }

    constructor ()
      ensures Valid() && allocations == 0
    {
      counter, allocations := 0, 0;
    }

    method Next() returns (id: PacketID)
      requires Valid()
      modifies this
      ensures Valid() && allocations == old(allocations) + 1
      ensures id == old(allocations) % PERIOD + 1
    {
      counter := (counter + 1) % 0x1_0000;
      if counter == 0 {
        counter := 1;
      }
      allocations := allocations + 1;
      AllocatedID(allocations);
      return counter;
    }
  }

  lemma {:induction false} RunJoins(limit: nat, s: Conn, es: seq<Event>, later: seq<Event>)
    ensures RunFrom(limit, s, es + later) == RunFrom(limit, RunFrom(limit, s, es), later)
    decreases |later|
  {
    if later == [] {
      assert es + later == es;
    } else {
      var n := |later| - 1;
      assert (es + later)[..|es| + n] == es + later[..n];
      RunJoins(limit, s, es, later[..n]);
    }
  }

  /** A delivery as a run: take an id, whatever others do meanwhile, add. */
  function Delivery(s: Conn, between: seq<Event>, topic: Bytes, payload: Bytes): seq<Event> {
    [Take] + (between + [Add(s.issued + 1, topic, payload)])
  }

  /** Nobody adds under an id it did not take. */
  ghost predicate Legit(limit: nat, s: Conn, es: seq<Event>) {
    forall i :: 0 <= i < |es| && es[i].Add? ==> es[i].k in RunFrom(limit, s, es[..i]).taken
  }

  lemma OneStep(limit: nat, s: Conn, e: Event)
    ensures RunFrom(limit, s, [e]) == Step(limit, s, e)
  {
    assert [e][..0] == [];
  }

  lemma LastStep(limit: nat, s: Conn, es: seq<Event>, e: Event)
    ensures RunFrom(limit, s, es + [e]) == Step(limit, RunFrom(limit, s, es), e)
  {
    hide Step;
    assert (es + [e])[..|es|] == es;
  }

  lemma {:induction false} StaysTaken(limit: nat, s: Conn, es: seq<Event>, k: nat)
    requires k in s.taken && forall i :: 0 <= i < |es| && es[i].Add? ==> es[i].k != k
    ensures k in RunFrom(limit, s, es).taken
    decreases |es|
  {
    hide CounterAfter;
    if es != [] { StaysTaken(limit, s, es[..|es| - 1], k); }
  }

  class Connection {
    const packetIDs: PacketIDAllocator
    var messages: map<PacketID, (Bytes, Bytes)>
    const limit: nat

    ghost predicate Tracks(s: Conn)
      reads this, packetIDs
    {
      && packetIDs.Valid() && packetIDs.allocations == s.issued
      && messages.Keys == s.inflight.Keys
      && forall id :: id in messages ==> messages[id] == (s.inflight[id].topic, s.inflight[id].payload)
    }

    constructor (limit: nat)
      ensures Tracks(FRESH) && this.limit == limit && fresh(packetIDs)
    {
      this.packetIDs := new PacketIDAllocator();
      this.messages, this.limit := map[], limit;
    }

    method TakeID(ghost s: Conn) returns (id: PacketID)
      requires Tracks(s)
      modifies packetIDs
      ensures Tracks(Step(limit, s, Take)) && id == CounterAfter(s.issued + 1) && s.issued + 1 in Step(limit, s, Take).taken
    {
      id := packetIDs.Next();
      AllocatedID(s.issued + 1);
    }

    /** `InflightStore.Add` under the id of the k-th allocation. */
    method AddMessage(id: PacketID, topic: Bytes, payload: Bytes, ghost s: Conn, ghost k: nat) returns (added: bool)
      requires Tracks(s) && k in s.taken && id == CounterAfter(k)
      modifies this
      ensures Tracks(Step(limit, s, Add(k, topic, payload)))
      ensures added <==> Step(limit, s, Add(k, topic, payload)).sent == s.sent + 1
    {
      if |messages| >= limit {
        return false;
      }
      messages := messages[id := (topic, payload)];
      return true;
    }

    method Acknowledge(id: PacketID, ghost s: Conn)
      requires Tracks(s)
      modifies this
      ensures Tracks(Step(limit, s, Event.Acknowledge(id)))
    {
      messages := messages - {id};
    }

    /** What other goroutines do to the same connection. */
    method Interleave(es: seq<Event>, ghost s: Conn)
      requires Tracks(s) && Legit(limit, s, es)
      modifies this, packetIDs
      ensures Tracks(RunFrom(limit, s, es))
    {
      hide CounterAfter;
      for i := 0 to |es|
        invariant Tracks(RunFrom(limit, s, es[..i]))
      {
        assert es[..i + 1][..i] == es[..i];
        ghost var t := RunFrom(limit, s, es[..i]);
        match es[i] {
          case Take => var _ := packetIDs.Next();
          case Add(k, topic, payload) => var _ := AddMessage(CounterAfter(k), topic, payload, t, k);
          case Acknowledge(id) => Acknowledge(id, t);
        }
      }
      assert es[..|es|] == es;
    }

    /** `deliverMessage`, with what others do between its two locked calls and with whether
        the send buffer has room: is the packet queued for writing? One that finds no room
        is dropped but stays in the table. */
    method Deliver(topic: Bytes, payload: Bytes, between: seq<Event>, room: bool, ghost s: Conn) returns (queued: bool)
      requires Tracks(s) && Legit(limit, Step(limit, s, Take), between)
      requires forall i :: 0 <= i < |between| && between[i].Add? ==> between[i].k != s.issued + 1
      modifies this, packetIDs
      ensures Tracks(RunFrom(limit, s, Delivery(s, between, topic, payload)))
      ensures var before := RunFrom(limit, s, [Take] + between);
              queued <==> room && Step(limit, before, Add(s.issued + 1, topic, payload)).sent == before.sent + 1
    {
      hide CounterAfter, Step, RunFrom;
      ghost var taken := Step(limit, s, Take);
      ghost var k := s.issued + 1;
      OneStep(limit, s, Take);
      var id := TakeID(s);
      Interleave(between, taken);
      ghost var before := RunFrom(limit, taken, between);
      RunJoins(limit, s, [Take], between);
      StaysTaken(limit, taken, between, k);
      var added := AddMessage(id, topic, payload, before, k);
      ghost var all := Delivery(s, between, topic, payload);
      LastStep(limit, s, [Take] + between, Add(k, topic, payload));
      assert all == [Take] + between + [Add(k, topic, payload)];
      return added && room;
    }
  }
}
