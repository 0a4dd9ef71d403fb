/** How a node's own subscription changes reach another node's index: broadcasts queued
    per filter, a newer one replacing an older one, and packets that may be lost,
    repeated and overtaken (internal/cluster/gossip_broadcast.go, cluster.go; the calls in
    internal/broker/client.go, broker.go and session_reaper.go). */
module Gossip {
  import opened ByteStrings
  import opened BestMatch
  import opened Subscriptions
  import RemoteSubs
  import opened Routing

  datatype Msg = Announce(qos: Byte) | Withdraw

  /** The node's subscriptions, its broadcast queue, the packets that were sent, and the
      other node's index. */
  datatype State = State(local: Relation, pending: map<Bytes, Msg>, wire: set<(Bytes, Msg)>, remote: Relation)

  datatype Event =
    | Subscribe(client: Bytes, filter: Bytes, qos: Byte)
    | Unsubscribe(client: Bytes, filter: Bytes)
    | Disconnect(client: Bytes) // session ends with the connection: one broadcast per filter
    | Expire(client: Bytes) // the session reaper, which broadcasts nothing
    | Restore(client: Bytes, filter: Bytes, qos: Byte) // startup and migration import, silent as well
    | Broadcast(filter: Bytes, msg: Msg) // queued apart from its index change, by a thread that was overtaken
    | Rebroadcast // a node joined: every filter again, at QoS 2
    | Transmit(filter: Bytes)
    | Receive(filter: Bytes, msg: Msg)
    | Retire(filter: Bytes) // the queue gives up a broadcast it sent often enough
    | Forget // the other node removes this one from its index

  const INITIAL := State(map[], map[], {}, map[])

  function Heard(node: Bytes, remote: Relation, f: Bytes, m: Msg): Relation {
    match m
    case Announce(q) => RemoteSubs.Step(remote, RemoteSubs.Sub(node, f, q))
    case Withdraw => RemoteSubs.Step(remote, RemoteSubs.Unsub(node, f))
  }

  function FiltersOf(local: Relation, c: Bytes): set<Bytes> { set p | p in local && p.0 == c :: p.1 }

  function AllFilters(local: Relation): set<Bytes> { set p | p in local :: p.1 }

  /** Queue one message for each of the filters, replacing what was queued for them. */
  function Queued(pending: map<Bytes, Msg>, fs: set<Bytes>, m: Msg): map<Bytes, Msg> {
    pending + map f | f in fs :: m
  }

  function Step(node: Bytes, s: State, e: Event): State {
    match e
    case Subscribe(c, f, q) => s.(local := s.local[(c, f) := q], pending := s.pending[f := Announce(q)])
    case Unsubscribe(c, f) => s.(local := s.local - {(c, f)}, pending := s.pending[f := Withdraw])
    case Disconnect(c) => s.(local := Without(s.local, c), pending := Queued(s.pending, FiltersOf(s.local, c), Withdraw))
    case Expire(c) => s.(local := Without(s.local, c))
    case Restore(c, f, q) => s.(local := s.local[(c, f) := q])
    case Broadcast(f, m) => s.(pending := s.pending[f := m])
    case Rebroadcast => s.(pending := Queued(s.pending, AllFilters(s.local), Announce(2)))
    case Transmit(f) => if f in s.pending then s.(wire := s.wire + {(f, s.pending[f])}) else s
    case Receive(f, m) => if (f, m) in s.wire then s.(remote := Heard(node, s.remote, f, m)) else s
    case Retire(f) => s.(pending := s.pending - {f})
    case Forget => s.(remote := RemoteSubs.Step(s.remote, RemoteSubs.NodeLeft(node)))
  }

  function Run(node: Bytes, s: State, es: seq<Event>): State {
    if es == [] then s else Step(node, Run(node, s, es[..|es| - 1]), es[|es| - 1])
  }

  // ----- When the index is right -----

  function Entry(node: Bytes, remote: Relation, f: Bytes): Option<Byte> {
    if (node, f) in remote then Some(remote[(node, f)]) else None
  }

  predicate Covers(entry: Option<Byte>, q: Byte) { entry.Some? && q <= entry.value }

  /** The entry once the queued broadcast, if any, has arrived. */
  function Expected(node: Bytes, s: State, f: Bytes): Option<Byte> {
    Entry(node, if f in s.pending then Heard(node, s.remote, f, s.pending[f]) else s.remote, f)
  }

  /** Once gossip has caught up, the index bounds the local grants. */
  ghost predicate Promised(node: Bytes, s: State) {
    forall p :: p in s.local ==> Covers(Expected(node, s, p.1), s.local[p])
  }

  /** With an empty queue that is the bound itself. */
  lemma CaughtUp(node: Bytes, s: State)
    requires s.pending == map[]
    ensures Promised(node, s) <==> Bounds(s.remote, node, s.local)
  {
    assert Promised(node, s) ==> forall p :: p in s.local ==> Covers(Expected(node, s, p.1), s.local[p]);
  }

  /** What is expected is what sending the queue out leads to. */
  lemma {:induction false} Settles(node: Bytes, s: State) returns (es: seq<Event>)
    ensures forall e :: e in es ==> e.Transmit? || e.Receive? || e.Retire?
    ensures var s' := Run(node, s, es);
            s'.local == s.local && s'.pending == map[] && forall f :: Entry(node, s'.remote, f) == Expected(node, s, f)
    decreases |s.pending|
  {
    hide Step, Run, Heard, Expected;
    if s.pending == map[] {
      es := [];
      NothingQueued(node, s);
    } else {
      var f :| f in s.pending;
      var m := s.pending[f];
      var rest := Delivered(node, s, f);
      DeliveredExpected(node, s, f);
      var later := Settles(node, rest);
      var first := [Transmit(f), Receive(f, m), Retire(f)];
      RunThree(node, s, first[0], first[1], first[2]);
      RunJoins(node, s, first, later);
      es := first + later;
    }
  }

  function Delivered(node: Bytes, s: State, f: Bytes): (r: State)
    requires f in s.pending
    ensures |r.pending| < |s.pending|
  {
    SmallerQueue(s.pending, f);
    State(s.local, s.pending - {f}, s.wire + {(f, s.pending[f])}, Heard(node, s.remote, f, s.pending[f]))
  }

  lemma NothingQueued(node: Bytes, s: State)
    requires s.pending == map[]
    ensures Run(node, s, []) == s && forall f :: Entry(node, s.remote, f) == Expected(node, s, f)
  {
  }

  lemma DeliveredExpected(node: Bytes, s: State, f: Bytes)
    requires f in s.pending
    ensures Delivered(node, s, f) ==
            Step(node, Step(node, Step(node, s, Transmit(f)), Receive(f, s.pending[f])), Retire(f))
    ensures forall g :: Expected(node, Delivered(node, s, f), g) == Expected(node, s, g)
  {
    var rest := Delivered(node, s, f);
    forall g ensures Expected(node, rest, g) == Expected(node, s, g) {
      if g != f {
        assert Entry(node, rest.remote, g) == Entry(node, s.remote, g);
      }
    }
  }

  lemma SmallerQueue(pending: map<Bytes, Msg>, f: Bytes)
    requires f in pending
    ensures |pending - {f}| < |pending|
  {
    assert (pending - {f}).Keys == pending.Keys - {f};
  }

  lemma RunOne(node: Bytes, s: State, a: Event)
    ensures Run(node, s, [a]) == Step(node, s, a)
  {
    assert [a][..0] == [];
  }

  lemma RunTwo(node: Bytes, s: State, a: Event, b: Event)
    ensures Run(node, s, [a, b]) == Step(node, Step(node, s, a), b)
  {
    hide Step;
    assert [a, b][..1] == [a];
    RunOne(node, s, a);
  }

  lemma RunThree(node: Bytes, s: State, a: Event, b: Event, c: Event)
    ensures Run(node, s, [a, b, c]) == Step(node, Step(node, Step(node, s, a), b), c)
  {
    hide Step;
    assert [a, b, c][..2] == [a, b];
    RunTwo(node, s, a, b);
  }

  lemma {:induction false} RunJoins(node: Bytes, s: State, es: seq<Event>, later: seq<Event>)
    ensures Run(node, s, es + later) == Run(node, Run(node, s, es), later)
    decreases |later|
  {
    if later == [] {
      assert es + later == es;
    } else {
      var n := |later| - 1;
      assert (es + later)[..|es| + n] == es + later[..n];
      RunJoins(node, s, es, later[..n]);
    }
  }

  // ----- Exactly which steps keep it -----

  /** What the other clients of a filter hold is at most `q` or already in the index. */
  ghost predicate OthersCovered(node: Bytes, s: State, c: Bytes, f: Bytes, q: Byte) {
    forall d :: (d, f) in s.local && d != c ==> s.local[(d, f)] <= q || Covers(Entry(node, s.remote, f), s.local[(d, f)])
  }

  ghost predicate AllCovered(node: Bytes, s: State, f: Bytes, q: Byte) {
    forall d :: (d, f) in s.local ==> s.local[(d, f)] <= q || Covers(Entry(node, s.remote, f), s.local[(d, f)])
  }

  /** Every client of a filter is covered by the announcement queued for it. */
  ghost predicate AnnouncedAgain(s: State, f: Bytes) {
    forall d :: (d, f) in s.local ==>
      f in s.pending && s.pending[f].Announce? && s.local[(d, f)] <= s.pending[f].qos
  }

  ghost predicate Keeps(node: Bytes, s: State, e: Event) {
    match e
    case Subscribe(c, f, q) => OthersCovered(node, s, c, f, q)
    case Unsubscribe(c, f) => forall d :: (d, f) in s.local ==> d == c
    case Disconnect(c) => forall p :: p in s.local && (c, p.1) in s.local ==> p.0 == c
    case Expire(c) => true
    case Restore(c, f, q) => Covers(Expected(node, s, f), q)
    case Broadcast(f, m) => if m.Announce? then AllCovered(node, s, f, m.qos) else forall d :: (d, f) !in s.local
    case Rebroadcast => forall p :: p in s.local ==> s.local[p] <= 2 || Covers(Entry(node, s.remote, p.1), s.local[p])
    case Transmit(f) => true
    case Receive(f, m) => (f, m) in s.wire && m.Withdraw? ==> AnnouncedAgain(s, f)
    case Retire(f) => forall d :: (d, f) in s.local ==> Covers(Entry(node, s.remote, f), s.local[(d, f)])
    case Forget => forall p :: p in s.local ==> AnnouncedAgain(s, p.1)
  }

  /** After a step a filter's expected entry, as the condition needs it. */
  lemma SubscribeKeeps(node: Bytes, s: State, c: Bytes, f: Bytes, q: Byte)
    requires Promised(node, s)
    ensures Promised(node, Step(node, s, Subscribe(c, f, q))) <==> OthersCovered(node, s, c, f, q)
  {
    var s' := Step(node, s, Subscribe(c, f, q));
    forall p | p in s.local && p.1 != f ensures Covers(Expected(node, s', p.1), s'.local[p]) {
      assert Expected(node, s', p.1) == Expected(node, s, p.1);
    }
    forall d | (d, f) in s.local && d != c
      ensures Covers(Expected(node, s', f), s'.local[(d, f)]) <==>
              s.local[(d, f)] <= q || Covers(Entry(node, s.remote, f), s.local[(d, f)])
    {
    }
    if Promised(node, s') {
      forall d | (d, f) in s.local && d != c ensures Covers(Expected(node, s', f), s'.local[(d, f)]) {
        assert (d, f) in s'.local;
      }
    }
  }

  lemma WithdrawKeeps(node: Bytes, s: State, c: Bytes, fs: set<Bytes>, local: Relation)
    requires Promised(node, s)
    requires forall p :: p in local <==> p in s.local && !(p.0 == c && p.1 in fs)
    requires forall p :: p in local ==> local[p] == s.local[p]
    ensures Promised(node, s.(local := local, pending := Queued(s.pending, fs, Withdraw))) <==>
            forall p :: p in s.local && p.1 in fs ==> p.0 == c
  {
    var s' := s.(local := local, pending := Queued(s.pending, fs, Withdraw));
    forall f | f !in fs ensures Expected(node, s', f) == Expected(node, s, f) { }
    forall f | f in fs ensures Expected(node, s', f) == None { }
    if p :| p in s.local && p.1 in fs && p.0 != c {
      assert p in local;
    }
  }

  lemma BroadcastKeeps(node: Bytes, s: State, f: Bytes, m: Msg)
    requires Promised(node, s)
    ensures Promised(node, Step(node, s, Broadcast(f, m))) <==> Keeps(node, s, Broadcast(f, m))
  {
    var s' := Step(node, s, Broadcast(f, m));
    forall g | g != f ensures Expected(node, s', g) == Expected(node, s, g) { }
    forall d | (d, f) in s.local
      ensures Covers(Expected(node, s', f), s.local[(d, f)]) <==>
              m.Announce? && (s.local[(d, f)] <= m.qos || Covers(Entry(node, s.remote, f), s.local[(d, f)]))
    {
    }
    if Promised(node, s') {
      forall d | (d, f) in s.local ensures Covers(Expected(node, s', f), s.local[(d, f)]) {
        assert Covers(Expected(node, s', (d, f).1), s.local[(d, f)]);
      }
    }
  }

  lemma RebroadcastKeeps(node: Bytes, s: State)
    requires Promised(node, s)
    ensures Promised(node, Step(node, s, Rebroadcast)) <==> Keeps(node, s, Rebroadcast)
  {
    var s' := Step(node, s, Rebroadcast);
    forall p | p in s.local
      ensures Covers(Expected(node, s', p.1), s.local[p]) <==> s.local[p] <= 2 || Covers(Entry(node, s.remote, p.1), s.local[p])
    {
      assert p.1 in AllFilters(s.local);
    }
  }

  lemma ReceiveKeeps(node: Bytes, s: State, f: Bytes, m: Msg)
    requires Promised(node, s) && (f, m) in s.wire
    ensures Promised(node, Step(node, s, Receive(f, m))) <==> Keeps(node, s, Receive(f, m))
  {
    var s' := Step(node, s, Receive(f, m));
    forall g | g != f ensures Expected(node, s', g) == Expected(node, s, g) { }
    if m.Withdraw? {
      forall d | (d, f) in s.local
        ensures Covers(Expected(node, s', f), s.local[(d, f)]) <==>
                f in s.pending && s.pending[f].Announce? && s.local[(d, f)] <= s.pending[f].qos
      {
      }
    } else {
      forall d | (d, f) in s.local ensures Covers(Expected(node, s', f), s.local[(d, f)]) {
        assert Covers(Expected(node, s, f), s.local[(d, f)]);
      }
    }
  }

  lemma RetireKeeps(node: Bytes, s: State, f: Bytes)
    requires Promised(node, s)
    ensures Promised(node, Step(node, s, Retire(f))) <==> Keeps(node, s, Retire(f))
  {
    var s' := Step(node, s, Retire(f));
    forall g | g != f ensures Expected(node, s', g) == Expected(node, s, g) { }
    assert Expected(node, s', f) == Entry(node, s.remote, f);
  }

  lemma ForgetKeeps(node: Bytes, s: State)
    requires Promised(node, s)
    ensures Promised(node, Step(node, s, Forget)) <==> Keeps(node, s, Forget)
  {
    var s' := Step(node, s, Forget);
    forall p | p in s.local
      ensures Covers(Expected(node, s', p.1), s.local[p]) <==>
              p.1 in s.pending && s.pending[p.1].Announce? && s.local[p] <= s.pending[p.1].qos
    {
    }
    if Promised(node, s') {
      forall p, d | p in s.local && (d, p.1) in s.local
        ensures p.1 in s.pending && s.pending[p.1].Announce? && s.local[(d, p.1)] <= s.pending[p.1].qos
      {
        assert Covers(Expected(node, s', (d, p.1).1), s.local[(d, p.1)]);
      }
    }
  }

  /** For every event: the caught-up index stays right if and only if the event's own
      condition holds. */
  lemma KeptExactly(node: Bytes, s: State, e: Event)
    requires Promised(node, s)
    ensures Promised(node, Step(node, s, e)) <==> Keeps(node, s, e)
  {
    match e
    case Subscribe(c, f, q) => SubscribeKeeps(node, s, c, f, q);
    case Unsubscribe(c, f) =>
      WithdrawKeeps(node, s, c, {f}, s.local - {(c, f)});
      assert Queued(s.pending, {f}, Withdraw) == s.pending[f := Withdraw];
    case Disconnect(c) =>
      WithdrawKeeps(node, s, c, FiltersOf(s.local, c), Without(s.local, c));
      assert forall f :: f in FiltersOf(s.local, c) <==> (c, f) in s.local;
    case Expire(c) => ExpireKeeps(node, s, c);
    case Restore(c, f, q) => RestoreKeeps(node, s, c, f, q);
    case Broadcast(f, m) => BroadcastKeeps(node, s, f, m);
    case Rebroadcast => RebroadcastKeeps(node, s);
    case Transmit(f) => TransmitKeeps(node, s, f);
    case Receive(f, m) => if (f, m) in s.wire { ReceiveKeeps(node, s, f, m); }
    case Retire(f) => RetireKeeps(node, s, f);
    case Forget => ForgetKeeps(node, s);
  }

  lemma ExpireKeeps(node: Bytes, s: State, c: Bytes)
    requires Promised(node, s)
    ensures Promised(node, Step(node, s, Expire(c)))
  {
    var s' := Step(node, s, Expire(c));
    forall f ensures Expected(node, s', f) == Expected(node, s, f) { }
  }

  lemma RestoreKeeps(node: Bytes, s: State, c: Bytes, f: Bytes, q: Byte)
    requires Promised(node, s)
    ensures Promised(node, Step(node, s, Restore(c, f, q))) <==> Covers(Expected(node, s, f), q)
  {
    var s' := Step(node, s, Restore(c, f, q));
    forall g ensures Expected(node, s', g) == Expected(node, s, g) { }
    assert (c, f) in s'.local;
  }

  lemma TransmitKeeps(node: Bytes, s: State, f: Bytes)
    requires Promised(node, s)
    ensures Promised(node, Step(node, s, Transmit(f)))
  {
    var s' := Step(node, s, Transmit(f));
    forall g ensures Expected(node, s', g) == Expected(node, s, g) { }
  }

  // ----- Over whole runs -----

  ghost predicate AllKeep(node: Bytes, s: State, es: seq<Event>) {
    forall i :: 0 <= i < |es| ==> Keeps(node, Run(node, s, es[..i]), es[i])
  }

  ghost predicate AlwaysPromised(node: Bytes, s: State, es: seq<Event>) {
    forall n :: 0 <= n <= |es| ==> Promised(node, Run(node, s, es[..n]))
  }

  /** A run has the index right, once caught up, at every point if and only if each of
      its events met its condition. */
  lemma {:induction false} RunKeptExactly(node: Bytes, s: State, es: seq<Event>)
    requires Promised(node, s)
    ensures AlwaysPromised(node, s, es) <==> AllKeep(node, s, es)
    decreases |es|
  {
    hide Promised, Keeps, Step, Run;
    if es == [] {
      RunEmpty(node, s);
      assert es[..0] == [];
    } else {
      var n := |es| - 1;
      var front := es[..n];
      RunKeptExactly(node, s, front);
      assert forall i :: 0 <= i <= n ==> front[..i] == es[..i];
      assert es[..|es|] == es;
      assert AlwaysPromised(node, s, es) <==> AlwaysPromised(node, s, front) && Promised(node, Run(node, s, es));
      assert AllKeep(node, s, es) <==> AllKeep(node, s, front) && Keeps(node, Run(node, s, front), es[n]);
      if AlwaysPromised(node, s, front) {
        assert front[..n] == front;
        RunSnoc(node, s, es);
        KeptExactly(node, Run(node, s, front), es[n]);
      }
    }
  }

  lemma RunEmpty(node: Bytes, s: State)
    ensures Run(node, s, []) == s
  {
  }

  lemma RunSnoc(node: Bytes, s: State, es: seq<Event>)
    requires es != []
    ensures Run(node, s, es) == Step(node, Run(node, s, es[..|es| - 1]), es[|es| - 1])
  {
  }

  /** In such a run, from the start or from any point where the index is right, whenever
      the queue is empty a publish at the other node gives each subscriber here exactly
      the QoS of direct delivery. */
  lemma TwoHopInEveryRun(node: Bytes, s: State, es: seq<Event>, topic: Bytes, client: Bytes, best: Byte, qos: Byte)
    requires (s == INITIAL || Promised(node, s)) && AllKeep(node, s, es)
    requires Run(node, s, es).pending == map[] && IsBest(Run(node, s, es).local, topic, client, best)
    ensures exists r :: IsBest(Run(node, s, es).remote, topic, node, r) && Min(Min(qos, r), best) == Min(qos, best)
  {
    RunKeptExactly(node, s, es);
    assert es[..|es|] == es;
    var end := Run(node, s, es);
    CaughtUp(node, end);
    TwoHopEqualsDirect(end.remote, node, end.local, topic, client, best, qos);
  }

  // ----- Runs that fail -----

  /** One of two clients leaves: both ways of leaving withdraw the other's filter too. */
  lemma LeavingTakesOthers(node: Bytes, a: Bytes, b: Bytes, f: Bytes, q: Byte)
    requires a != b
    ensures !Promised(node, Run(node, INITIAL, [Subscribe(a, f, q), Subscribe(b, f, q), Unsubscribe(a, f)]))
    ensures !Promised(node, Run(node, INITIAL, [Subscribe(a, f, q), Subscribe(b, f, q), Disconnect(a)]))
  {
    RunThree(node, INITIAL, Subscribe(a, f, q), Subscribe(b, f, q), Unsubscribe(a, f));
    RunThree(node, INITIAL, Subscribe(a, f, q), Subscribe(b, f, q), Disconnect(a));
    var s := Step(node, Step(node, INITIAL, Subscribe(a, f, q)), Subscribe(b, f, q));
    assert (a, f) in s.local && (b, f) in s.local;
    assert f in FiltersOf(s.local, a);
    var u, d := Step(node, s, Unsubscribe(a, f)), Step(node, s, Disconnect(a));
    assert (b, f) in u.local && Expected(node, u, f) == None;
    assert (b, f) in d.local && Expected(node, d, f) == None;
  }

  /** A lower grant queued behind a higher one replaces its announcement. */
  lemma LowerReplacesHigher(node: Bytes, a: Bytes, b: Bytes, f: Bytes, high: Byte, low: Byte)
    requires a != b && low < high
    ensures !Promised(node, Run(node, INITIAL, [Subscribe(a, f, high), Subscribe(b, f, low)]))
  {
    RunTwo(node, INITIAL, Subscribe(a, f, high), Subscribe(b, f, low));
    var s := Step(node, Step(node, INITIAL, Subscribe(a, f, high)), Subscribe(b, f, low));
    assert (a, f) in s.local && s.local[(a, f)] == high && Expected(node, s, f) == Some(low);
  }

  /** A restored subscription is never announced. */
  lemma RestoredUnheard(node: Bytes, c: Bytes, f: Bytes, q: Byte)
    ensures !Promised(node, Run(node, INITIAL, [Restore(c, f, q)]))
  {
    RunOne(node, INITIAL, Restore(c, f, q));
    var s := Step(node, INITIAL, Restore(c, f, q));
    assert (c, f) in s.local && Expected(node, s, f) == None;
  }

  /** A withdrawal overtaken by the announcement that replaced it removes the entry. */
  lemma OvertakenWithdrawal(node: Bytes, c: Bytes, f: Bytes, q: Byte)
    ensures var es := [Subscribe(c, f, q), Unsubscribe(c, f), Transmit(f)] +
                      [Subscribe(c, f, q), Transmit(f), Receive(f, Announce(q))];
            Promised(node, Run(node, INITIAL, es)) &&
            !Promised(node, Run(node, Run(node, INITIAL, es), [Retire(f), Receive(f, Withdraw)]))
  {
    hide Run;
    RunJoins(node, INITIAL, [Subscribe(c, f, q), Unsubscribe(c, f), Transmit(f)], [Subscribe(c, f, q), Transmit(f), Receive(f, Announce(q))]);
    RunThree(node, INITIAL, Subscribe(c, f, q), Unsubscribe(c, f), Transmit(f));
    var s := Step(node, Step(node, Step(node, INITIAL, Subscribe(c, f, q)), Unsubscribe(c, f)), Transmit(f));
    RunThree(node, s, Subscribe(c, f, q), Transmit(f), Receive(f, Announce(q)));
    assert s.local == map[] && s.wire == {(f, Withdraw)} && s.remote == map[];
    var t := Step(node, Step(node, Step(node, s, Subscribe(c, f, q)), Transmit(f)), Receive(f, Announce(q)));
    assert t.local == map[(c, f) := q] && Entry(node, t.remote, f) == Some(q);
    RunTwo(node, t, Retire(f), Receive(f, Withdraw));
    var u := Step(node, Step(node, t, Retire(f)), Receive(f, Withdraw));
    assert (c, f) in u.local && Expected(node, u, f) == None;
  }
}
