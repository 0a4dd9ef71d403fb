/** What a batched shard migration with retries does to its devices and their data
    (internal/cluster/migration_executor.go; GetOfflineMessages, GetSessionData and
    ImportMigrateData in internal/broker/broker.go). */
module Migration {
  import opened ByteStrings
  import opened OfflineQueue
  import opened OfflineStorage
  import opened OfflineCalls

  /** Which sends the target acknowledged, by listed position and retry. */
  type Acks = (nat, nat) -> bool

  // ----- What a run does -----

  /** The retry loop's verdict on one position. A negative retry limit skips the loop,
      which leaves no error and so counts as success. */
  predicate Succeeds(acks: Acks, maxRetries: int, i: nat) {
    maxRetries < 0 || exists r: nat :: r <= maxRetries && acks(i, r)
  }

  function CountMigrated(acks: Acks, maxRetries: int, n: nat): nat {
    if n == 0 then 0 else CountMigrated(acks, maxRetries, n - 1) + if Succeeds(acks, maxRetries, n - 1) then 1 else 0
  }

  /** The devices whose source copy is deleted, among the first `n` positions. */
  function Deleted(acks: Acks, maxRetries: int, devices: seq<Bytes>, n: nat): set<Bytes>
    requires n <= |devices|
  {
    if n == 0 then {}
    else Deleted(acks, maxRetries, devices, n - 1) + if Succeeds(acks, maxRetries, n - 1) then {devices[n - 1]} else {}
  }

  lemma {:induction false} DeletedExactly(acks: Acks, maxRetries: int, devices: seq<Bytes>, n: nat, d: Bytes)
    requires n <= |devices|
    ensures d in Deleted(acks, maxRetries, devices, n) <==>
            exists i: nat :: i < n && devices[i] == d && Succeeds(acks, maxRetries, i)
    decreases n
  {
    if n > 0 {
      DeletedExactly(acks, maxRetries, devices, n - 1, d);
      if devices[n - 1] == d && Succeeds(acks, maxRetries, n - 1) {
        assert n - 1 < n;
      }
    }
  }

  /** No device counted as failed exactly if every position succeeded. */
  lemma {:induction false} NoneFailed(acks: Acks, maxRetries: int, n: nat)
    ensures CountMigrated(acks, maxRetries, n) <= n
    ensures CountMigrated(acks, maxRetries, n) == n <==> forall i: nat :: i < n ==> Succeeds(acks, maxRetries, i)
    decreases n
  {
    if n > 0 { NoneFailed(acks, maxRetries, n - 1); }
  }

  /** Was some send for this device acknowledged? */
  ghost predicate Acknowledged(acks: Acks, maxRetries: int, devices: seq<Bytes>, d: Bytes) {
    exists i: nat, r: nat :: i < |devices| && devices[i] == d && r <= maxRetries && acks(i, r)
  }

  /** Conservation: whatever the pattern of send failures, a device's source copy is
      deleted exactly if a send for it was acknowledged. */
  lemma DeletedIffAcknowledged(acks: Acks, maxRetries: int, devices: seq<Bytes>, d: Bytes)
    requires maxRetries >= 0
    ensures d in Deleted(acks, maxRetries, devices, |devices|) <==> Acknowledged(acks, maxRetries, devices, d)
  {
    DeletedExactly(acks, maxRetries, devices, |devices|, d);
    if Acknowledged(acks, maxRetries, devices, d) {
      var i: nat, r: nat :| i < |devices| && devices[i] == d && r <= maxRetries && acks(i, r);
      assert Succeeds(acks, maxRetries, i);
    }
    if i: nat :| i < |devices| && devices[i] == d && Succeeds(acks, maxRetries, i) {
      var r: nat :| r <= maxRetries && acks(i, r);
    }
  }

  /** Distinct devices: a position's outcome decides its device alone. */
  lemma DistinctDevices(acks: Acks, maxRetries: int, devices: seq<Bytes>, i: nat)
    requires i < |devices| && forall j, k :: 0 <= j < k < |devices| ==> devices[j] != devices[k]
    ensures devices[i] in Deleted(acks, maxRetries, devices, |devices|) <==> Succeeds(acks, maxRetries, i)
  {
    DeletedExactly(acks, maxRetries, devices, |devices|, devices[i]);
  }

  /** A position deletes its device only after the target acknowledged it. */
  ghost predicate AcknowledgesFirst(maxRetries: int) {
    forall acks: Acks, devices: seq<Bytes>, d ::
      d in Deleted(acks, maxRetries, devices, |devices|) ==> Acknowledged(acks, maxRetries, devices, d)
  }

  /** Whatever happens on the network, no device is deleted unacknowledged if and only if
      the retry limit is not negative: below zero every listed device is deleted without a
      single send. What other callers queue between gathering and deletion is another
      matter, see `LostExactly`. */
  lemma AcknowledgesFirstExactly(maxRetries: int)
    ensures AcknowledgesFirst(maxRetries) <==> maxRetries >= 0
  {
    if maxRetries >= 0 {
      forall acks: Acks, devices: seq<Bytes>, d | d in Deleted(acks, maxRetries, devices, |devices|)
        ensures Acknowledged(acks, maxRetries, devices, d)
      {
        DeletedIffAcknowledged(acks, maxRetries, devices, d);
      }
    } else {
      var acks: Acks := (i, r) => false;
      var devices: seq<Bytes> := [[100]];
      DeletedExactly(acks, maxRetries, devices, |devices|, [100]);
      assert devices[0] == [100] && Succeeds(acks, maxRetries, 0);
      assert !Acknowledged(acks, maxRetries, devices, [100]);
    }
  }

  // ----- What is sent -----

  /** The fields of a queued message that travel. */
  datatype Carried = Carried(topic: Bytes, payload: Bytes, qos: Byte)

  function Carry(m: OfflineMessage): Carried { Carried(m.topic, m.payload, m.qos) }

  function CarryAll(ms: seq<OfflineMessage>): seq<Carried> {
    if ms == [] then [] else CarryAll(ms[..|ms| - 1]) + [Carry(ms[|ms| - 1])]
  }

  lemma {:induction false} CarryEach(ms: seq<OfflineMessage>)
    ensures |CarryAll(ms)| == |ms| && forall i :: 0 <= i < |ms| ==> CarryAll(ms)[i] == Carry(ms[i])
  {
    if ms != [] { CarryEach(ms[..|ms| - 1]); }
  }

  datatype Session = Session(
    cleanStart: bool, expiryInterval: nat, subscriptions: map<Bytes, Byte>,
    disconnectedAt: int, epoch: nat, connectTimestamp: int, node: Bytes)

  datatype CarriedSession = CarriedSession(cleanStart: bool, expiryInterval: nat, subscriptions: map<Bytes, Byte>)

  function CarrySession(sessions: map<Bytes, Session>, d: Bytes): Option<CarriedSession> {
    if d in sessions then
      Some(CarriedSession(sessions[d].cleanStart, sessions[d].expiryInterval, sessions[d].subscriptions))
    else None
  }

  datatype Parcel = Parcel(messages: seq<Carried>, session: Option<CarriedSession>)

  /** What the target queues for a carried message: highest priority, a new age. */
  function Import(cfg: Config, c: Carried, now: int): OfflineMessage {
    Stamp(cfg, OfflineMessage(c.topic, c.payload, c.qos, 0, 0, 0), now)
  }

  /** Priority, creation and expiry are lost: carrying and importing gives a message
      back if and only if its priority is the highest and its times are those of a
      message made on arrival. */
  lemma ImportRestoresExactly(cfg: Config, m: OfflineMessage, now: int)
    requires now != 0
    ensures Import(cfg, Carry(m), now) == m <==>
            m.priority == 0 && m.createdAt == now &&
            m.expiresAt == (if cfg.tiers.Some? then now + cfg.tiers.value.highTTL
                            else if cfg.defaultTTL > 0 then now + cfg.defaultTTL else 0)
  {
  }

  // ----- What happens to the data -----

  datatype Source = Source(offline: State, sessions: map<Bytes, Session>, connected: set<Bytes>)

  /** What other goroutines do to the source while a migration runs. Nothing stops them:
      no lock is held over a position, and the migrating flag is read nowhere. */
  datatype Other =
    | Offline(call: Call)
    | SetSession(client: Bytes, session: Session)
    | DropSession(client: Bytes)
    | Connect(client: Bytes)
    | Disconnect(client: Bytes)

  function OtherStep(cfg: Config, s: Source, o: Other): Source {
    match o
    case Offline(c) => s.(offline := CallStep(cfg, s.offline, c))
    case SetSession(d, x) => s.(sessions := s.sessions[d := x])
    case DropSession(d) => s.(sessions := s.sessions - {d})
    case Connect(d) => s.(connected := s.connected + {d})
    case Disconnect(d) => s.(connected := s.connected - {d})
  }

  function RunOthers(cfg: Config, s: Source, os: seq<Other>): Source {
    if os == [] then s else OtherStep(cfg, RunOthers(cfg, s, os[..|os| - 1]), os[|os| - 1])
  }

  function Calls(os: seq<Other>): seq<Call> {
    if os == [] then [] else Calls(os[..|os| - 1]) + if os[|os| - 1].Offline? then [os[|os| - 1].call] else []
  }

  lemma {:induction false} OthersOffline(cfg: Config, s: Source, os: seq<Other>)
    ensures RunOthers(cfg, s, os).offline == RunCalls(cfg, s.offline, Calls(os))
    decreases |os|
  {
    hide CallStep;
    if os != [] {
      var n := |os| - 1;
      OthersOffline(cfg, s, os[..n]);
      if os[n].Offline? {
        RunLast(cfg, s.offline, Calls(os[..n]), os[n].call);
      } else {
        assert Calls(os) == Calls(os[..n]);
      }
    }
  }

  /** What happens around the executor's own calls for one device: after the disconnect,
      during the gathering, before the session is read, while the send is awaited, between
      the two deletions, and afterwards. */
  datatype Visit = Visit(
    opening: seq<Other>, peek: Peeking, reading: seq<Other>, sending: seq<Other>, dropping: seq<Other>, closing: seq<Other>)

  /** After the disconnect. */
  function Opened(cfg: Config, s: Source, d: Bytes, v: Visit): Source {
    RunOthers(cfg, s.(connected := s.connected - {d}), v.opening)
  }

  /** What is drained of the queue for sending, and left by that. */
  function Gathered(cfg: Config, s: Source, d: Bytes, v: Visit): Drained { Draining(cfg, Opened(cfg, s, d, v).offline, d, v.peek) }

  /** When the session is read. */
  function Reading(cfg: Config, s: Source, d: Bytes, v: Visit): Source {
    var begun := Opened(cfg, s, d, v);
    RunOthers(cfg, begun.(offline := PeekRun(cfg, begun.offline, d, v.peek).0), v.reading)
  }

  function Packed(cfg: Config, s: Source, d: Bytes, v: Visit): Parcel {
    Parcel(CarryAll(PeekRun(cfg, Opened(cfg, s, d, v).offline, d, v.peek).1), CarrySession(Reading(cfg, s, d, v).sessions, d))
  }

  /** When the send has been answered. */
  function Answered(cfg: Config, s: Source, d: Bytes, v: Visit): Source { RunOthers(cfg, Reading(cfg, s, d, v), v.sending) }

  /** Both deletions. */
  function Emptied(cfg: Config, s: Source, d: Bytes, v: Visit): Source {
    var answered := Answered(cfg, s, d, v);
    var dropped := RunOthers(cfg, answered.(offline := RemoveAllStep(answered.offline, d)), v.dropping);
    dropped.(sessions := dropped.sessions - {d})
  }

  /** The source and, in order, what the target acknowledged. */
  datatype World = World(source: Source, received: seq<(Bytes, Parcel)>)

  /** One position. */
  function MigrateOne(cfg: Config, w: World, d: Bytes, v: Visit, acked: bool, ok: bool): World {
    var s := w.source;
    World(RunOthers(cfg, if ok then Emptied(cfg, s, d, v) else Answered(cfg, s, d, v), v.closing),
          if acked then w.received + [(d, Packed(cfg, s, d, v))] else w.received)
  }

  /** A run: what to move, which sends succeed, and what others do at each position. */
  datatype Job = Job(cfg: Config, devices: seq<Bytes>, maxRetries: int, acks: Acks, visits: nat -> Visit)

  predicate Ok(j: Job, i: nat) { Succeeds(j.acks, j.maxRetries, i) }

  predicate Acked(j: Job, i: nat) { j.maxRetries >= 0 && Ok(j, i) }

  function Migrated(j: Job, w: World, n: nat): World
    requires n <= |j.devices|
  {
    if n == 0 then w
    else MigrateOne(j.cfg, Migrated(j, w, n - 1), j.devices[n - 1], j.visits(n - 1), Acked(j, n - 1), Ok(j, n - 1))
  }

  function Queue(s: Source, d: Bytes): seq<OfflineMessage> { QueueOf(s.offline.queues, d) }

  // ----- One position, whatever others do -----

  /** The calls about the device from the drain until the send is answered. */
  function Meanwhile(cfg: Config, s: Source, d: Bytes, v: Visit): seq<Call> {
    Own(Refills(d, Gathered(cfg, s, d, v).result, v.peek) + Calls(v.reading) + Calls(v.sending), d)
  }

  /** Where the device's messages are when the send is answered. */
  function Outcome(cfg: Config, s: Source, d: Bytes, v: Visit): Track {
    TrackRun(cfg, Begun(Gathered(cfg, s, d, v)), Meanwhile(cfg, s, d, v))
  }

  lemma OutcomeQueue(cfg: Config, s: Source, d: Bytes, v: Visit)
    ensures PeekRun(cfg, Opened(cfg, s, d, v).offline, d, v.peek).1 == Gathered(cfg, s, d, v).result
    ensures Queue(Answered(cfg, s, d, v), d) == Outcome(cfg, s, d, v).queue
  {
    hide RunCalls, Refills, TrackRun, Drain, Own, RunOthers, QueueOf;
    var s1, g := Opened(cfg, s, d, v), Gathered(cfg, s, d, v);
    var counted := RunCalls(cfg, s1.offline, v.peek.counting);
    DequeueQueue(counted, d, |QueueOf(s1.offline.queues, d)|, v.peek.start);
    var drained := DequeueStep(counted, d, |QueueOf(s1.offline.queues, d)|, v.peek.start).0;
    var refills := Refills(d, g.result, v.peek);
    OthersOffline(cfg, s1.(offline := PeekRun(cfg, s1.offline, d, v.peek).0), v.reading);
    OthersOffline(cfg, Reading(cfg, s, d, v), v.sending);
    RunJoins(cfg, drained, refills, Calls(v.reading));
    RunJoins(cfg, drained, refills + Calls(v.reading), Calls(v.sending));
    QueueTracked(cfg, drained, refills + Calls(v.reading) + Calls(v.sending), d, Begun(g));
  }

  /** Nobody else puts messages back for the device, and the clock does not run
      backwards. */
  ghost predicate Orderly(cfg: Config, s: Source, d: Bytes, v: Visit, now: int) {
    && Undisturbed(v.peek, d) && Backs(Own(Calls(v.reading), d)) == [] && Backs(Own(Calls(v.sending), d)) == []
    && Timely(Meanwhile(cfg, s, d, v), v.peek.start) && Ends(Meanwhile(cfg, s, d, v), v.peek.start) <= now
  }

  lemma MeanwhileBacks(cfg: Config, s: Source, d: Bytes, v: Visit, now: int)
    requires Orderly(cfg, s, d, v, now)
    ensures Backs(Meanwhile(cfg, s, d, v)) == Gathered(cfg, s, d, v).result
  {
    hide Refills, Own, Backs, Gathered, Timely, Calls;
    var ms := Gathered(cfg, s, d, v).result;
    var a, b, c := Refills(d, ms, v.peek), Calls(v.reading), Calls(v.sending);
    RefillsPutBack(d, ms, v.peek);
    OwnJoins(a + b, c, d);
    OwnJoins(a, b, d);
    BacksJoin(Own(a, d) + Own(b, d), Own(c, d));
    BacksJoin(Own(a, d), Own(b, d));
    assert ms + [] + [] == ms;
  }

  /** What is accepted for the device between drain and answer. */
  function Arrived(cfg: Config, s: Source, d: Bytes, v: Visit): seq<OfflineMessage> {
    Newcomers(cfg, Begun(Gathered(cfg, s, d, v)), Meanwhile(cfg, s, d, v))
  }

  /** At every point between drain and answer nothing of the device is lost if and only if
      every call finds its condition; in that case its queue and what others took out are
      what was gathered, what the drain left and what arrived. */
  lemma PositionExactly(cfg: Config, s: Source, d: Bytes, v: Visit, now: int)
    requires Orderly(cfg, s, d, v, now)
    ensures var g, cs, end := Gathered(cfg, s, d, v), Meanwhile(cfg, s, d, v), Outcome(cfg, s, d, v);
            && Queue(Answered(cfg, s, d, v), d) == end.queue
            && (AlwaysBalanced(cfg, Begun(g), cs) <==> AllFit(cfg, Begun(g), cs))
            && (AllFit(cfg, Begun(g), cs) ==>
                  multiset(Live(end.queue, now)) + multiset(Live(end.out, now)) ==
                  multiset(Live(g.result, now)) + multiset(Live(g.rest, now)) + multiset(Live(Arrived(cfg, s, d, v), now)))
  {
    hide Gathered, Meanwhile, TrackRun, AllFit, AlwaysBalanced, Balanced, Live, Answered, Newcomers;
    var g, cs, end := Gathered(cfg, s, d, v), Meanwhile(cfg, s, d, v), Outcome(cfg, s, d, v);
    OutcomeQueue(cfg, s, d, v);
    StartBalanced(g, v.peek.start);
    RunFitsExactly(cfg, Begun(g), cs, v.peek.start);
    if AllFit(cfg, Begun(g), cs) {
      BalancedLater(end, Ends(cs, v.peek.start), now);
      KeptParts(cfg, Begun(g), cs);
      MeanwhileBacks(cfg, s, d, v, now);
      KeptLive(end, g.rest, g.result, Arrived(cfg, s, d, v), now);
    }
  }

  /** The live messages a deletion destroys that were not sent. */
  ghost function Lost(cfg: Config, s: Source, d: Bytes, v: Visit, acked: bool, now: int): multiset<OfflineMessage> {
    multiset(Live(Queue(Answered(cfg, s, d, v), d), now)) - if acked then multiset(Gathered(cfg, s, d, v).result) else multiset{}
  }

  /** A successful position loses exactly the messages that the drain left or that arrived
      afterwards, still live at the deletion, and not taken out by others. */
  lemma LostExactly(cfg: Config, s: Source, d: Bytes, v: Visit, now: int)
    requires Orderly(cfg, s, d, v, now) && AllFit(cfg, Begun(Gathered(cfg, s, d, v)), Meanwhile(cfg, s, d, v))
    ensures Lost(cfg, s, d, v, true, now) ==
            multiset(Live(Gathered(cfg, s, d, v).rest + Arrived(cfg, s, d, v), now)) - multiset(Live(Outcome(cfg, s, d, v).out, now))
    ensures Lost(cfg, s, d, v, true, now) == multiset{} <==>
            multiset(Live(Gathered(cfg, s, d, v).rest + Arrived(cfg, s, d, v), now)) <= multiset(Live(Outcome(cfg, s, d, v).out, now))
  {
    hide Gathered, Meanwhile, Outcome, Arrived, Answered, Live, AllFit, Orderly;
    PositionExactly(cfg, s, d, v, now);
    var g, end, arrived := Gathered(cfg, s, d, v), Outcome(cfg, s, d, v), Arrived(cfg, s, d, v);
    LiveJoins(g.rest, arrived, now);
    var queue, out := multiset(Live(end.queue, now)), multiset(Live(end.out, now));
    var left := multiset(Live(g.rest, now)) + multiset(Live(arrived, now));
    assert multiset(Live(g.rest + arrived, now)) == left;
    forall m ensures (queue - multiset(g.result))[m] == (left - out)[m] {
      LiveCount(g.result, now, m);
      LiveCount(end.queue, now, m);
      LiveCount(g.rest, now, m);
      LiveCount(arrived, now, m);
      assert (queue + out)[m] == queue[m] + out[m];
      assert queue[m] + out[m] == multiset(Live(g.result, now))[m] + left[m];
    }
    assert queue - multiset(g.result) == left - out;
    Difference(left, out);
  }

  lemma Difference(a: multiset<OfflineMessage>, b: multiset<OfflineMessage>)
    ensures a - b == multiset{} <==> a <= b
  {
    if a - b == multiset{} {
      forall m ensures a[m] <= b[m] { assert (a - b)[m] == 0; }
    } else {
      var m :| m in a - b;
    }
  }

  /** Without an acknowledged send, which a negative retry limit allows, everything that is
      live is lost. */
  lemma UnsentAllLost(cfg: Config, s: Source, d: Bytes, v: Visit, now: int)
    ensures Lost(cfg, s, d, v, false, now) == multiset(Live(Queue(Answered(cfg, s, d, v), d), now))
  {
  }

  lemma OthersNothing(cfg: Config, s: Source)
    ensures RunOthers(cfg, s, []) == s
  {
  }

  lemma OthersOne(cfg: Config, s: Source, o: Other)
    ensures RunOthers(cfg, s, [o]) == OtherStep(cfg, s, o)
  {
    hide OtherStep;
    var os := [o];
    assert os[..0] == [];
    OthersNothing(cfg, s);
  }

  /** Nothing queued and nobody else at work: nothing is gathered. */
  lemma NothingGathered(cfg: Config, s: Source, d: Bytes, v: Visit)
    requires s.offline.queues == map[] && s.connected == {} && v.opening == [] && v.peek.counting == [] && v.reading == []
    ensures Gathered(cfg, s, d, v) == Drained([], []) && Reading(cfg, s, d, v) == s
  {
    hide RunOthers, RunCalls, Drain, TrackRun;
    OthersNothing(cfg, s);
    assert s.(connected := s.connected - {d}) == s;
    RunNothing(cfg, s.offline);
    DrainNothing(0, v.peek.start);
    assert Refills(d, [], v.peek) == [];
  }

  lemma PutFirst(cfg: Config, d: Bytes, m: OfflineMessage, now: int)
    requires cfg.maxPerClient >= 1
    ensures CallStep(cfg, State(map[], map[], None), Put(d, m, now)) == State(map[d := [Stamp(cfg, m, now)]], map[], None)
  {
    hide Stamp;
    LiveNothing(now);
    assert [] + [Stamp(cfg, m, now)] == [Stamp(cfg, m, now)];
  }

  /** A message published for the device while its send is awaited is accepted, deleted
      and not sent, at any retry limit. */
  lemma PublishWhileSending(cfg: Config, d: Bytes, m: OfflineMessage, p: Peeking, now: int)
    requires cfg.maxPerClient >= 1 && !Expired(Stamp(cfg, m, now), now) && p.counting == []
    ensures var v := Visit([], p, [], [Offline(Put(d, m, now))], [], []);
            var s := Source(State(map[], map[], None), map[], {});
            && Gathered(cfg, s, d, v).result == [] && Queue(Answered(cfg, s, d, v), d) == [Stamp(cfg, m, now)]
            && Lost(cfg, s, d, v, true, now) == multiset{Stamp(cfg, m, now)}
            && Queue(Emptied(cfg, s, d, v), d) == []
  {
    hide Stamp, Expired, RunOthers, Gathered, Reading, CallStep, Live, Rewritten;
    var v := Visit([], p, [], [Offline(Put(d, m, now))], [], []);
    var s := Source(State(map[], map[], None), map[], {});
    NothingGathered(cfg, s, d, v);
    OthersOne(cfg, s, v.sending[0]);
    PutFirst(cfg, d, m, now);
    LiveOne(Stamp(cfg, m, now), now);
    var answered := Answered(cfg, s, d, v);
    OthersNothing(cfg, answered.(offline := RemoveAllStep(answered.offline, d)));
    assert multiset([Stamp(cfg, m, now)]) - multiset([]) == multiset{Stamp(cfg, m, now)};
  }

  /** After its deletions a device has no queue and no session at that moment; what the
      target acknowledged is the session as read and everything gathered, in order. */
  lemma DeletedThen(cfg: Config, s: Source, d: Bytes, v: Visit)
    ensures QueueOf(RemoveAllStep(Answered(cfg, s, d, v).offline, d).queues, d) == []
    ensures d !in Emptied(cfg, s, d, v).sessions
    ensures var sent, ms := Packed(cfg, s, d, v).messages, Gathered(cfg, s, d, v).result;
            |sent| == |ms| && forall k :: 0 <= k < |ms| ==> sent[k] == Carry(ms[k])
  {
    hide Answered, Gathered, Opened, CarryAll, Rewritten, RunOthers, PeekRun;
    OutcomeQueue(cfg, s, d, v);
    CarryEach(Gathered(cfg, s, d, v).result);
  }

  /** What is gathered is the front of the priority and creation order of the live messages
      at the drain, all of them unless the queue grew after it was counted. */
  lemma ParcelComplete(cfg: Config, s: Source, d: Bytes, v: Visit)
    ensures var begun := Opened(cfg, s, d, v); var g := Gathered(cfg, s, d, v);
            var q := QueueOf(RunCalls(cfg, begun.offline, v.peek.counting).queues, d);
            && Sorted(g.result + g.rest) && StablePermutation(g.result + g.rest, Live(q, v.peek.start))
            && (g.rest == [] <==> |Live(q, v.peek.start)| <= |Queue(begun, d)|)
  {
    hide Opened, RunCalls, Live, StableSort, Sorted, StablePermutation;
    var begun := Opened(cfg, s, d, v);
    var q := QueueOf(RunCalls(cfg, begun.offline, v.peek.counting).queues, d);
    DrainConserves(q, |Queue(begun, d)|, v.peek.start);
  }

  // ----- Whole runs -----

  /** Received messages stay received. */
  lemma {:induction false} ReceivedStays(j: Job, w: World, k: nat, n: nat)
    requires k <= n <= |j.devices|
    ensures Migrated(j, w, k).received <= Migrated(j, w, n).received
    decreases n
  {
    hide Packed, Emptied, Answered, RunOthers, Ok;
    if k < n {
      ReceivedStays(j, w, k, n - 1);
    }
  }

  /** Every position of the run is orderly, and every call finds its condition. */
  ghost predicate AllOrderly(j: Job, w: World, now: nat -> int) {
    forall i :: 0 <= i < |j.devices| ==>
      var s, d, v := Migrated(j, w, i).source, j.devices[i], j.visits(i);
      Orderly(j.cfg, s, d, v, now(i)) && AllFit(j.cfg, Begun(Gathered(j.cfg, s, d, v)), Meanwhile(j.cfg, s, d, v))
  }

  ghost predicate LosesAt(j: Job, w: World, i: nat, now: int)
    requires i < |j.devices|
  {
    Ok(j, i) && Lost(j.cfg, Migrated(j, w, i).source, j.devices[i], j.visits(i), Acked(j, i), now) != multiset{}
  }

  /** What a position would leave behind: what was not sent, still live, and not taken out
      by others. */
  ghost predicate LeavesNothing(j: Job, w: World, i: nat, now: int)
    requires i < |j.devices|
  {
    var s, d, v := Migrated(j, w, i).source, j.devices[i], j.visits(i);
    if Acked(j, i) then
      multiset(Live(Gathered(j.cfg, s, d, v).rest + Arrived(j.cfg, s, d, v), now)) <= multiset(Live(Outcome(j.cfg, s, d, v).out, now))
    else Live(Queue(Answered(j.cfg, s, d, v), d), now) == []
  }

  /** A whole run, with others at work, loses no message if and only if no successful
      position leaves one behind. */
  lemma RunLosesNothing(j: Job, w: World, now: nat -> int)
    requires AllOrderly(j, w, now)
    ensures (forall i :: 0 <= i < |j.devices| ==> !LosesAt(j, w, i, now(i))) <==>
            (forall i :: 0 <= i < |j.devices| && Ok(j, i) ==> LeavesNothing(j, w, i, now(i)))
  {
    hide Migrated, Gathered, Meanwhile, Outcome, Arrived, Answered, Live, AllFit, Orderly, Ok, Lost;
    forall i | 0 <= i < |j.devices| && Ok(j, i) ensures !LosesAt(j, w, i, now(i)) <==> LeavesNothing(j, w, i, now(i)) {
      var s, d, v := Migrated(j, w, i).source, j.devices[i], j.visits(i);
      if Acked(j, i) {
        LostExactly(j.cfg, s, d, v, now(i));
      } else {
        UnsentAllLost(j.cfg, s, d, v, now(i));
        NoneIn(Live(Queue(Answered(j.cfg, s, d, v), d), now(i)));
      }
    }
  }

  lemma NoneIn(q: seq<OfflineMessage>)
    ensures multiset(q) == multiset{} <==> q == []
  {
    if q != [] { assert q[0] in multiset(q); }
  }

  /** No event of others is about the device. */
  ghost predicate NoneAbout(os: seq<Other>, e: Bytes) {
    forall i :: 0 <= i < |os| ==> (if os[i].Offline? then os[i].call.client else os[i].client) != e
  }

  lemma {:induction false} OthersElsewhere(cfg: Config, s: Source, os: seq<Other>, e: Bytes)
    requires NoneAbout(os, e)
    ensures Same(s, RunOthers(cfg, s, os), e)
    decreases |os|
  {
    hide CallStep, QueueOf;
    if os != [] {
      var n := |os| - 1;
      OthersElsewhere(cfg, s, os[..n], e);
      var before := RunOthers(cfg, s, os[..n]);
      if os[n].Offline? { CallQueue(cfg, before.offline, os[n].call, e, Track(Queue(before, e), [], [])); }
    }
  }

  /** Queue and session of a device are the same in both. */
  predicate Same(s: Source, s': Source, e: Bytes) {
    && Queue(s', e) == Queue(s, e)
    && (e in s'.sessions <==> e in s.sessions) && (e in s.sessions ==> s'.sessions[e] == s.sessions[e])
  }

  ghost predicate Calm(v: Visit, e: Bytes) {
    && NoneAbout(v.opening, e) && NoneAbout(v.reading, e) && NoneAbout(v.sending, e)
    && NoneAbout(v.dropping, e) && NoneAbout(v.closing, e)
    && Own(v.peek.counting, e) == [] && forall i: nat :: Own(v.peek.gaps(i), e) == []
  }

  lemma {:induction false} RefillsElsewhere(d: Bytes, ms: seq<OfflineMessage>, p: Peeking, e: Bytes)
    requires e != d && forall i: nat :: Own(p.gaps(i), e) == []
    ensures Own(Refills(d, ms, p), e) == []
    decreases |ms|
  {
    if ms == [] {
    } else {
      var n := |ms| - 1;
      var front, last := Refills(d, ms[..n], p), [PutBack(d, ms[n], p.clock(n))];
      RefillsElsewhere(d, ms[..n], p, e);
      OwnJoins(front + p.gaps(n), last, e);
      OwnJoins(front, p.gaps(n), e);
      assert last[..0] == [] && Own(last, e) == [];
    }
  }

  lemma PeekElsewhere(cfg: Config, s: State, d: Bytes, p: Peeking, e: Bytes)
    requires e != d && Own(p.counting, e) == [] && forall i: nat :: Own(p.gaps(i), e) == []
    ensures QueueOf(PeekRun(cfg, s, d, p).0.queues, e) == QueueOf(s.queues, e)
  {
    hide RunCalls, Refills, Own, Drain, Rewritten;
    var counted := RunCalls(cfg, s, p.counting);
    var t := Track(QueueOf(s.queues, e), [], []);
    QueueTracked(cfg, s, p.counting, e, t);
    TrackNothing(cfg, t);
    var (drained, ms) := DequeueStep(counted, d, |QueueOf(s.queues, d)|, p.start);
    RefillsElsewhere(d, ms, p, e);
    QueueTracked(cfg, drained, Refills(d, ms, p), e, t);
  }

  /** A position of another device, with nobody about this one, leaves it alone. */
  lemma PositionElsewhere(cfg: Config, w: World, d: Bytes, v: Visit, acked: bool, ok: bool, e: Bytes)
    requires e != d && Calm(v, e)
    ensures Same(w.source, MigrateOne(cfg, w, d, v, acked, ok).source, e)
  {
    AnsweredElsewhere(cfg, w.source, d, v, e);
    hide Answered, RunOthers, QueueOf, Rewritten;
    var answered := Answered(cfg, w.source, d, v);
    if ok {
      var removed := answered.(offline := RemoveAllStep(answered.offline, d));
      assert Same(answered, removed, e) by { RemovedElsewhere(answered.offline, d, e); }
      OthersElsewhere(cfg, removed, v.dropping, e);
      OthersElsewhere(cfg, Emptied(cfg, w.source, d, v), v.closing, e);
    } else {
      OthersElsewhere(cfg, answered, v.closing, e);
    }
  }

  lemma RemovedElsewhere(s: State, d: Bytes, e: Bytes)
    requires e != d
    ensures QueueOf(RemoveAllStep(s, d).queues, e) == QueueOf(s.queues, e)
  {
    hide Rewritten;
  }

  lemma AnsweredElsewhere(cfg: Config, s: Source, d: Bytes, v: Visit, e: Bytes)
    requires e != d && Calm(v, e)
    ensures Same(s, Answered(cfg, s, d, v), e)
  {
    hide RunOthers, PeekRun, QueueOf;
    var s0 := s.(connected := s.connected - {d});
    OthersElsewhere(cfg, s0, v.opening, e);
    var begun := Opened(cfg, s, d, v);
    PeekElsewhere(cfg, begun.offline, d, v.peek, e);
    OthersElsewhere(cfg, begun.(offline := PeekRun(cfg, begun.offline, d, v.peek).0), v.reading, e);
    OthersElsewhere(cfg, Reading(cfg, s, d, v), v.sending, e);
  }

  /** A device that is not listed, and that nobody else touches, is untouched. */
  lemma {:induction false} NotListedKept(j: Job, w: World, k: nat, n: nat, e: Bytes)
    requires k <= n <= |j.devices| && forall i :: k <= i < n ==> j.devices[i] != e && Calm(j.visits(i), e)
    ensures Same(Migrated(j, w, k).source, Migrated(j, w, n).source, e)
    decreases n
  {
    hide MigrateOne, Ok, Acked, Calm, QueueOf;
    if k < n {
      NotListedKept(j, w, k, n - 1, e);
      PositionElsewhere(j.cfg, Migrated(j, w, n - 1), j.devices[n - 1], j.visits(n - 1), Acked(j, n - 1), Ok(j, n - 1), e);
    }
  }

  ghost predicate Distinct(devices: seq<Bytes>) {
    forall i, k :: 0 <= i < k < |devices| ==> devices[i] != devices[k]
  }

  /** With distinct devices, one of which nobody else touches, for every pattern of
      failures: if its send succeeded it is gone from the source and the target has
      acknowledged its session and all its live messages in drain order; otherwise it
      keeps its session and the queue that gathering left. */
  lemma DeviceOutcome(j: Job, w: World, i: nat)
    requires Distinct(j.devices) && i < |j.devices|
    requires forall k :: 0 <= k < |j.devices| ==> Calm(j.visits(k), j.devices[i])
    ensures var d, v := j.devices[i], j.visits(i); var end := Migrated(j, w, |j.devices|).source;
            var g := Drain(Queue(w.source, d), |Queue(w.source, d)|, v.peek.start);
            && (Ok(j, i) ==> Queue(end, d) == [] && d !in end.sessions)
            && (Acked(j, i) ==>
                  (d, Parcel(CarryAll(g.result), CarrySession(w.source.sessions, d))) in Migrated(j, w, |j.devices|).received)
            && (!Ok(j, i) ==>
                  && Queue(end, d) == TrackRun(j.cfg, Begun(g), Own(Refills(d, g.result, v.peek), d)).queue
                  && (d in end.sessions <==> d in w.source.sessions)
                  && (d in w.source.sessions ==> end.sessions[d] == w.source.sessions[d]))
  {
    hide MigrateOne, Calm, QueueOf, Ok, CarryAll, TrackRun, Own, Refills, Drain;
    var d, v := j.devices[i], j.visits(i);
    var before := Migrated(j, w, i);
    NotListedKept(j, w, 0, i, d);
    NotListedKept(j, w, i + 1, |j.devices|, d);
    CalmPosition(j.cfg, before, d, v, Acked(j, i), Ok(j, i));
    ReceivedStays(j, w, i + 1, |j.devices|);
    var next, end := Migrated(j, w, i + 1), Migrated(j, w, |j.devices|);
    if Acked(j, i) {
      assert next.received[|next.received| - 1] == end.received[|next.received| - 1];
    }
  }

  /** One position whose device nobody else touches. */
  lemma CalmPosition(cfg: Config, w: World, d: Bytes, v: Visit, acked: bool, ok: bool)
    requires Calm(v, d)
    ensures var w' := MigrateOne(cfg, w, d, v, acked, ok);
            var g := Drain(Queue(w.source, d), |Queue(w.source, d)|, v.peek.start);
            && (ok ==> Queue(w'.source, d) == [] && d !in w'.source.sessions)
            && (acked ==> w'.received == w.received + [(d, Parcel(CarryAll(g.result), CarrySession(w.source.sessions, d)))])
            && (!ok ==>
                  && Queue(w'.source, d) == TrackRun(cfg, Begun(g), Own(Refills(d, g.result, v.peek), d)).queue
                  && (d in w'.source.sessions <==> d in w.source.sessions)
                  && (d in w.source.sessions ==> w'.source.sessions[d] == w.source.sessions[d]))
  {
    hide RunOthers, PeekRun, QueueOf, CarryAll, TrackRun, Own, Refills, Drain;
    var s := w.source;
    var s0 := s.(connected := s.connected - {d});
    OthersElsewhere(cfg, s0, v.opening, d);
    var begun := Opened(cfg, s, d, v);
    CalmCounting(cfg, begun.offline, d, v.peek);
    CalmPeek(cfg, begun.offline, d, v.peek);
    var peeked := begun.(offline := PeekRun(cfg, begun.offline, d, v.peek).0);
    OthersElsewhere(cfg, peeked, v.reading, d);
    OthersElsewhere(cfg, Reading(cfg, s, d, v), v.sending, d);
    var answered := Answered(cfg, s, d, v);
    if ok {
      var removed := answered.(offline := RemoveAllStep(answered.offline, d));
      assert Queue(removed, d) == [] by { Removed(answered.offline, d); }
      OthersElsewhere(cfg, removed, v.dropping, d);
      OthersElsewhere(cfg, Emptied(cfg, s, d, v), v.closing, d);
    } else {
      OthersElsewhere(cfg, answered, v.closing, d);
    }
  }

  lemma Removed(s: State, d: Bytes)
    ensures QueueOf(RemoveAllStep(s, d).queues, d) == []
  {
    hide Rewritten;
  }

  lemma CalmCounting(cfg: Config, s: State, d: Bytes, p: Peeking)
    requires Own(p.counting, d) == []
    ensures QueueOf(RunCalls(cfg, s, p.counting).queues, d) == QueueOf(s.queues, d)
  {
    hide RunCalls, Own;
    var t := Track(QueueOf(s.queues, d), [], []);
    QueueTracked(cfg, s, p.counting, d, t);
    TrackNothing(cfg, t);
  }

  lemma CalmPeek(cfg: Config, s: State, d: Bytes, p: Peeking)
    requires Own(p.counting, d) == []
    ensures var g := Drain(QueueOf(s.queues, d), |QueueOf(s.queues, d)|, p.start); var (s', ms) := PeekRun(cfg, s, d, p);
            ms == g.result && QueueOf(s'.queues, d) == TrackRun(cfg, Begun(g), Own(Refills(d, g.result, p), d)).queue
  {
    hide RunCalls, Own, Refills, Drain, TrackRun;
    CalmCounting(cfg, s, d, p);
    var counted := RunCalls(cfg, s, p.counting);
    DequeueQueue(counted, d, |QueueOf(s.queues, d)|, p.start);
    var (drained, ms) := DequeueStep(counted, d, |QueueOf(s.queues, d)|, p.start);
    var g := Drain(QueueOf(s.queues, d), |QueueOf(s.queues, d)|, p.start);
    QueueTracked(cfg, drained, Refills(d, ms, p), d, Begun(g));
  }

  /** Gone exactly if deleted: a device listed any number of times, that nobody else
      touches, has lost its session if and only if some position of it succeeded, and then
      its queue is empty. */
  lemma {:induction false} GoneExactly(j: Job, w: World, n: nat, e: Bytes)
    requires n <= |j.devices| && forall k :: 0 <= k < n ==> Calm(j.visits(k), e)
    ensures var end := Migrated(j, w, n).source;
            && (e in Deleted(j.acks, j.maxRetries, j.devices, n) ==> Queue(end, e) == [] && e !in end.sessions)
            && (e !in Deleted(j.acks, j.maxRetries, j.devices, n) ==>
                  (e in end.sessions <==> e in w.source.sessions)
                  && (e in w.source.sessions ==> end.sessions[e] == w.source.sessions[e]))
    decreases n
  {
    hide MigrateOne, QueueOf, Succeeds, Calm, TrackRun, Own, Refills, Drain, CarryAll;
    if n > 0 {
      GoneExactly(j, w, n - 1, e);
      var before, d, v := Migrated(j, w, n - 1), j.devices[n - 1], j.visits(n - 1);
      if d == e {
        CalmPosition(j.cfg, before, d, v, Acked(j, n - 1), Ok(j, n - 1));
        NothingBack(j.cfg, d, v.peek);
      } else {
        PositionElsewhere(j.cfg, before, d, v, Acked(j, n - 1), Ok(j, n - 1), e);
      }
    }
  }

  lemma NothingBack(cfg: Config, d: Bytes, p: Peeking)
    ensures var g := Drain([], 0, p.start); TrackRun(cfg, Begun(g), Own(Refills(d, g.result, p), d)).queue == []
  {
    DrainNothing(0, p.start);
    assert Refills(d, [], p) == [] && Own([], d) == [];
    TrackNothing(cfg, Track([], [], []));
  }

  /** With distinct devices, one that nobody else touches and whose sends failed keeps all
      its live messages through every refill if and only if each refill finds its
      condition, and then has them at the end. */
  lemma FailedKeepsExactly(j: Job, w: World, i: nat, now: int)
    requires Distinct(j.devices) && i < |j.devices| && !Ok(j, i)
    requires forall k :: 0 <= k < |j.devices| ==> Calm(j.visits(k), j.devices[i])
    requires var d, p := j.devices[i], j.visits(i).peek;
             var g := Drain(Queue(w.source, d), |Queue(w.source, d)|, p.start); var cs := Own(Refills(d, g.result, p), d);
             Timely(cs, p.start) && Ends(cs, p.start) <= now
    ensures var d, p := j.devices[i], j.visits(i).peek;
            var g := Drain(Queue(w.source, d), |Queue(w.source, d)|, p.start); var cs := Own(Refills(d, g.result, p), d);
            && (AlwaysBalanced(j.cfg, Begun(g), cs) <==> AllFit(j.cfg, Begun(g), cs))
            && (AllFit(j.cfg, Begun(g), cs) ==>
                  multiset(Live(Queue(Migrated(j, w, |j.devices|).source, d), now)) == multiset(Live(Queue(w.source, d), now)))
  {
    hide Migrated, Ok, QueueOf, Drain, Own, Refills, TrackRun, AllFit, AlwaysBalanced, Balanced, Live, Calm, Distinct, Acked, CarryAll;
    var d, p := j.devices[i], j.visits(i).peek;
    var q := Queue(w.source, d);
    var g := Drain(q, |q|, p.start);
    DeviceOutcome(j, w, i);
    CalmRefills(j.cfg, d, q, p, g, now) by { CalmGaps(j.visits(i), d); }
  }

  lemma CalmGaps(v: Visit, d: Bytes)
    requires Calm(v, d)
    ensures forall k: nat :: Own(v.peek.gaps(k), d) == []
  {
  }

  lemma CalmRefills(cfg: Config, d: Bytes, q: seq<OfflineMessage>, p: Peeking, g: Drained, now: int)
    requires g == Drain(q, |q|, p.start) && forall k: nat :: Own(p.gaps(k), d) == []
    requires var cs := Own(Refills(d, g.result, p), d); Timely(cs, p.start) && Ends(cs, p.start) <= now
    ensures var cs := Own(Refills(d, g.result, p), d);
            && (AlwaysBalanced(cfg, Begun(g), cs) <==> AllFit(cfg, Begun(g), cs))
            && (AllFit(cfg, Begun(g), cs) ==>
                  multiset(Live(TrackRun(cfg, Begun(g), cs).queue, now)) == multiset(Live(q, now)))
  {
    hide Drain, Own, Refills, TrackRun, AllFit, AlwaysBalanced, Balanced, Live, StableSort, Newcomers;
    var cs := Own(Refills(d, g.result, p), d);
    DrainAll(q, p.start);
    StartBalanced(g, p.start);
    RunFitsExactly(cfg, Begun(g), cs, p.start);
    if AllFit(cfg, Begun(g), cs) {
      var end := TrackRun(cfg, Begun(g), cs);
      BalancedLater(end, Ends(cs, p.start), now);
      KeptParts(cfg, Begun(g), cs);
      assert Undisturbed(p, d) by { NoBacks(d); QuietUndisturbed(p, d); }
      RefillsPutBack(d, g.result, p);
      OnlyBacks(d, g.result, p);
      BacksOnly(cfg, Begun(g), cs);
      assert multiset(end.kept) == multiset(g.rest) + multiset(g.result) + multiset([]);
      KeptLive(end, g.rest, g.result, [], now);
      SameLater(g.result, q, p.start, now);
      NothingElse(end, g, now);
    }
  }

  lemma NothingElse(end: Track, g: Drained, now: int)
    requires g.rest == [] && end.out == []
    requires multiset(Live(end.queue, now)) + multiset(Live(end.out, now)) ==
             multiset(Live(g.result, now)) + multiset(Live(g.rest, now)) + multiset(Live([], now))
    ensures multiset(Live(end.queue, now)) == multiset(Live(g.result, now))
  {
    hide Live;
    LiveNothing(now);
    assert multiset(Live(end.queue, now)) + multiset{} == multiset(Live(end.queue, now));
    assert multiset(Live(g.result, now)) + multiset{} + multiset{} == multiset(Live(g.result, now));
  }

  lemma QuietUndisturbed(p: Peeking, d: Bytes)
    requires forall k: nat :: Own(p.gaps(k), d) == []
    ensures Undisturbed(p, d)
  {
  }

  lemma {:induction false} OnlyBacks(d: Bytes, ms: seq<OfflineMessage>, p: Peeking)
    requires forall k: nat :: Own(p.gaps(k), d) == []
    ensures forall c :: c in Own(Refills(d, ms, p), d) ==> c.PutBack?
    decreases |ms|
  {
    hide Own;
    if ms == [] {
      assert Own([], d) == [] by { OwnNothing(d); }
    } else {
      var n := |ms| - 1;
      var front, last := Refills(d, ms[..n], p), PutBack(d, ms[n], p.clock(n));
      OnlyBacks(d, ms[..n], p);
      OwnJoins(front + p.gaps(n), [last], d);
      OwnJoins(front, p.gaps(n), d);
      OneBack(last);
    }
  }

  lemma OwnNothing(d: Bytes)
    ensures Own([], d) == []
  {
  }

  /** Putting back neither lets newcomers in nor takes anything out. */
  lemma {:induction false} BacksOnly(cfg: Config, t: Track, cs: seq<Call>)
    requires forall c :: c in cs ==> c.PutBack?
    ensures Newcomers(cfg, t, cs) == [] && TrackRun(cfg, t, cs).out == t.out
    decreases |cs|
  {
    hide Admit;
    if cs != [] {
      assert cs[|cs| - 1] in cs && forall c :: c in cs[..|cs| - 1] ==> c in cs;
      BacksOnly(cfg, t, cs[..|cs| - 1]);
    }
  }
}
