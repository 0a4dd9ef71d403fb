/** Reliable forwarding between nodes: message ids, acknowledgement waiters, retries
    (internal/cluster/peer_transport.go). Every call of SendReliable, the reader of
    acknowledgements and the stale-waiter sweep interleave freely; the network may lose
    and delay frames but does not forge them. */
module Forwarding {
  /** Two minutes in nanoseconds: the age past which the sweep closes a waiter. */
  const MAX_AGE := 120_000_000_000

  // ----- The waiter table -----

  /** A waiter's channel is named by the message id and the attempt that made it. */
  datatype Waiter = Waiter(attempt: nat, createdAt: int)

  datatype Table = Table(waiters: map<nat, Waiter>, closed: set<(nat, nat)>)

  function Register(t: Table, id: nat, attempt: nat, now: int): Table {
    t.(waiters := t.waiters[id := Waiter(attempt, now)])
  }

  function Unregister(t: Table, id: nat): Table {
    t.(waiters := t.waiters - {id})
  }

  function Close(t: Table, id: nat): Table {
    if id !in t.waiters then t
    else Table(t.waiters - {id}, t.closed + {(id, t.waiters[id].attempt)})
  }

  predicate Stale(t: Table, now: int, id: nat) {
    id in t.waiters && now - t.waiters[id].createdAt > MAX_AGE
  }

  function Sweep(t: Table, now: int): Table {
    Table(map id | id in t.waiters && !Stale(t, now, id) :: t.waiters[id],
          t.closed + set id | id in t.waiters && Stale(t, now, id) :: (id, t.waiters[id].attempt))
  }

  predicate ClosedBySweep(t: Table, now: int, p: (nat, nat)) {
    Stale(t, now, p.0) && p.1 == t.waiters[p.0].attempt
  }

  // ----- The protocol as steps -----

  /** `lag` bounds how much longer than the timeout one attempt may take: the send
      itself and the lateness of the timer. `keys` are the hashed keys under which
      migration acknowledgements arrive at the same table. */
  datatype Config = Config(maxRetries: int, timeout: nat, lag: nat, keys: set<nat>)

  datatype Outcome = Success | CircuitOpen | SendFailed | TimedOut | ShuttingDown

  datatype Phase = Sending | Waiting(since: int) | Returned(outcome: Outcome)

  /** One call of SendReliable: when it began, its current attempt, when that started and
      whether its frame has left, and how many copies have left so far. */
  datatype Call = Call(begun: int, attempt: nat, started: int, left: bool, copies: nat, phase: Phase)

  datatype State = State(clock: int, lastID: nat, calls: map<nat, Call>, table: Table, sent: set<nat>, decoded: set<nat>)

  datatype Event =
    | Begin(open: bool)
    | Leaves(id: nat) // the frame is on its way, before Send returns
    | Sent(id: nat)
    | SendError(id: nat, open: bool) // possible before and after the frame left
    | Decode(id: nat)
    | AckArrives(id: nat)
    | MigrateAck(key: nat)
    | Wake(id: nat)
    | Expire(id: nat)
    | Shutdown(id: nat)
    | Clean
    | Tick(dt: nat)

  const INITIAL := State(0, 0, map[], Table(map[], {}), {}, {})

  predicate InPhase(s: State, id: nat, waiting: bool) {
    id in s.calls && if waiting then s.calls[id].phase.Waiting? else s.calls[id].phase.Sending?
  }

  predicate Enabled(cfg: Config, s: State, e: Event) {
    match e
    case Begin(_) => true
    case Leaves(id) => InPhase(s, id, false) && !s.calls[id].left
    case Sent(id) => InPhase(s, id, false) && s.calls[id].left
    case SendError(id, _) => InPhase(s, id, false)
    case Decode(id) => id in s.sent
    case AckArrives(id) => id in s.decoded
    case MigrateAck(key) => key in cfg.keys
    case Wake(id) => InPhase(s, id, true) && (id, s.calls[id].attempt) in s.table.closed
    case Expire(id) => InPhase(s, id, true) && s.clock >= s.calls[id].phase.since + cfg.timeout
    case Shutdown(id) => InPhase(s, id, true)
    case Clean => true
    case Tick(dt) =>
      forall id :: id in s.calls && !s.calls[id].phase.Returned? ==>
        s.clock + dt <= s.calls[id].started + cfg.timeout + cfg.lag
  }

  function Put(s: State, id: nat, c: Call): State {
    s.(calls := s.calls[id := c])
  }

  /** After an attempt failed: the next one, or the given result. */
  function Retry(cfg: Config, s: State, id: nat, otherwise: Outcome): State
    requires id in s.calls
  {
    var c := s.calls[id];
    if c.attempt < cfg.maxRetries then
      Put(s, id, c.(attempt := c.attempt + 1, started := s.clock, left := false, phase := Sending))
        .(table := Register(Unregister(s.table, id), id, c.attempt + 1, s.clock))
    else
      Put(s, id, c.(phase := Returned(otherwise))).(table := Unregister(s.table, id))
  }

  function Step(cfg: Config, s: State, e: Event): State
    requires Enabled(cfg, s, e)
  {
    match e
    case Begin(open) =>
      var id := s.lastID + 1;
      var next := s.(lastID := id);
      if open then Put(next, id, Call(s.clock, 0, s.clock, false, 0, Returned(CircuitOpen)))
      else if cfg.maxRetries < 0 then Put(next, id, Call(s.clock, 0, s.clock, false, 0, Returned(Success)))
      else Put(next, id, Call(s.clock, 0, s.clock, false, 0, Sending)).(table := Register(s.table, id, 0, s.clock))
    case Leaves(id) =>
      var c := s.calls[id];
      Put(s, id, c.(left := true, copies := c.copies + 1)).(sent := s.sent + {id})
    case Sent(id) => Put(s, id, s.calls[id].(phase := Waiting(s.clock)))
    case SendError(id, open) =>
      if open then Put(s, id, s.calls[id].(phase := Returned(CircuitOpen))).(table := Unregister(s.table, id))
      else Retry(cfg, s, id, SendFailed)
    case Decode(id) => s.(decoded := s.decoded + {id})
    case AckArrives(id) => s.(table := Close(s.table, id))
    case MigrateAck(key) => s.(table := Close(s.table, key))
    case Wake(id) => Put(s, id, s.calls[id].(phase := Returned(Success)))
    case Expire(id) => Retry(cfg, s, id, TimedOut)
    case Shutdown(id) => Put(s, id, s.calls[id].(phase := Returned(ShuttingDown)))
    case Clean => s.(table := Sweep(s.table, s.clock))
    case Tick(dt) => s.(clock := s.clock + dt)
  }

  /** The runs in which every event is enabled, and the state each ends in. */
  ghost predicate Possible(cfg: Config, es: seq<Event>) {
    es == [] || (Possible(cfg, es[..|es| - 1]) && Enabled(cfg, Run(cfg, es[..|es| - 1]), es[|es| - 1]))
  }

  ghost function Run(cfg: Config, es: seq<Event>): State {
    if es == [] then INITIAL
    else
      var s := Run(cfg, es[..|es| - 1]);
      if Enabled(cfg, s, es[|es| - 1]) then Step(cfg, s, es[|es| - 1]) else s
  }

  // ----- What every step keeps -----

  /** The most copies one call may send, and the time one attempt may take. */
  function Copies(cfg: Config): nat {
    if cfg.maxRetries < 0 then 0 else cfg.maxRetries + 1
  }

  function Span(cfg: Config): nat { cfg.timeout + cfg.lag }

  /** A call's own bookkeeping. */
  ghost predicate Counted(cfg: Config, clock: int, c: Call) {
    && c.copies <= c.attempt + (if c.left then 1 else 0)
    && c.copies <= Copies(cfg)
    && (!c.phase.Returned? ==> c.attempt <= cfg.maxRetries && clock <= c.started + Span(cfg))
    && c.started <= c.begun + c.attempt * Span(cfg)
  }

  /** A waiter belongs to the attempt in progress, or to a call stopped by shutdown. */
  ghost predicate Owned(s: State, id: nat) {
    id in s.table.waiters ==>
      && id in s.calls
      && (s.calls[id].phase.Returned? ==> s.calls[id].phase.outcome == ShuttingDown)
      && s.table.waiters[id] == Waiter(s.calls[id].attempt, s.calls[id].started)
  }

  /** A closed channel belongs to some attempt so far and is not in the table any more. */
  ghost predicate Detached(s: State, p: (nat, nat)) {
    p.0 in s.calls && p.1 <= s.calls[p.0].attempt && (p.0 in s.table.waiters ==> p.1 < s.table.waiters[p.0].attempt)
  }

  ghost predicate Inv(cfg: Config, s: State) {
    && (forall id :: id in s.calls ==> id <= s.lastID && Counted(cfg, s.clock, s.calls[id]))
    && (forall id :: id in s.table.waiters ==> Owned(s, id))
    && (forall p :: p in s.table.closed ==> Detached(s, p))
    && (forall id :: id in s.sent ==> id in s.calls)
    && s.decoded <= s.sent
  }

  /** A closed channel means a decoded message, and so does success. */
  ghost predicate Genuine(cfg: Config, s: State) {
    && (forall p :: p in s.table.closed && p.0 !in cfg.keys ==>
          p.0 in s.calls && (p.0 in s.decoded || s.calls[p.0].phase == Returned(ShuttingDown)))
    && (forall id :: id in s.calls && id !in cfg.keys && s.calls[id].phase == Returned(Success) ==> id in s.decoded)
  }

  lemma RetryCounted(cfg: Config, s: State, id: nat, otherwise: Outcome)
    requires id in s.calls && !s.calls[id].phase.Returned? && Counted(cfg, s.clock, s.calls[id])
    ensures id in Retry(cfg, s, id, otherwise).calls
    ensures Counted(cfg, s.clock, Retry(cfg, s, id, otherwise).calls[id])
  {
    var c := s.calls[id];
    assert (c.attempt + 1) * Span(cfg) == c.attempt * Span(cfg) + Span(cfg);
  }

  lemma RetryInv(cfg: Config, s: State, id: nat, otherwise: Outcome)
    requires Inv(cfg, s) && id in s.calls && !s.calls[id].phase.Returned?
    ensures Inv(cfg, Retry(cfg, s, id, otherwise))
  {
    RetryCounted(cfg, s, id, otherwise);
    hide Counted;
  }

  lemma BeginInv(cfg: Config, s: State, open: bool)
    requires Inv(cfg, s)
    ensures Inv(cfg, Step(cfg, s, Begin(open)))
  {
    var s' := Step(cfg, s, Begin(open));
    assert Counted(cfg, s.clock, s'.calls[s.lastID + 1]);
    hide Counted;
  }

  lemma LeavesInv(cfg: Config, s: State, id: nat)
    requires Inv(cfg, s) && Enabled(cfg, s, Leaves(id))
    ensures Inv(cfg, Step(cfg, s, Leaves(id)))
  {
    assert Counted(cfg, s.clock, Step(cfg, s, Leaves(id)).calls[id]);
    hide Counted;
  }

  lemma SentInv(cfg: Config, s: State, id: nat)
    requires Inv(cfg, s) && Enabled(cfg, s, Sent(id))
    ensures Inv(cfg, Step(cfg, s, Sent(id)))
  {
    assert Counted(cfg, s.clock, Step(cfg, s, Sent(id)).calls[id]);
    hide Counted;
  }

  lemma TickInv(cfg: Config, s: State, dt: nat)
    requires Inv(cfg, s) && Enabled(cfg, s, Tick(dt))
    ensures Inv(cfg, Step(cfg, s, Tick(dt)))
  {
    forall id | id in s.calls ensures Counted(cfg, s.clock + dt, s.calls[id]) { }
    hide Counted;
  }

  /** A call that returns keeps its counters. */
  lemma ReturnInv(cfg: Config, s: State, id: nat, outcome: Outcome)
    requires Inv(cfg, s) && id in s.calls && !s.calls[id].phase.Returned?
    requires outcome == ShuttingDown || id !in s.table.waiters
    ensures Inv(cfg, Put(s, id, s.calls[id].(phase := Returned(outcome))))
  {
    assert Counted(cfg, s.clock, s.calls[id].(phase := Returned(outcome)));
    hide Counted;
  }

  lemma TableInv(cfg: Config, s: State, t: Table)
    requires Inv(cfg, s)
    requires forall id :: id in t.waiters ==> id in s.table.waiters && t.waiters[id] == s.table.waiters[id]
    requires forall p :: p in t.closed - s.table.closed ==>
               p.0 in s.table.waiters && p.1 == s.table.waiters[p.0].attempt && p.0 !in t.waiters
    ensures Inv(cfg, s.(table := t))
  {
    hide Counted;
    forall id | id in t.waiters ensures Owned(s.(table := t), id) {
      assert Owned(s, id);
    }
    forall p | p in t.closed ensures Detached(s.(table := t), p) {
      if p in s.table.closed { assert Detached(s, p); } else { assert Owned(s, p.0); }
    }
  }

  lemma WokenDetached(cfg: Config, s: State, id: nat)
    requires Inv(cfg, s) && id in s.calls && (id, s.calls[id].attempt) in s.table.closed
    ensures id !in s.table.waiters
  {
    hide Counted;
    assert Detached(s, (id, s.calls[id].attempt));
    assert id in s.table.waiters ==> Owned(s, id);
  }

  lemma StepInv(cfg: Config, s: State, e: Event)
    requires Inv(cfg, s) && Enabled(cfg, s, e)
    ensures Inv(cfg, Step(cfg, s, e))
  {
    hide Inv, Counted, Owned;
    match e
    case Begin(open) => BeginInv(cfg, s, open);
    case Leaves(id) => LeavesInv(cfg, s, id);
    case Sent(id) => SentInv(cfg, s, id);
    case SendError(id, open) =>
      if open {
        TableInv(cfg, s, Unregister(s.table, id));
        ReturnInv(cfg, s.(table := Unregister(s.table, id)), id, CircuitOpen);
      } else {
        RetryInv(cfg, s, id, SendFailed);
      }
    case Decode(id) => DecodeInv(cfg, s, id);
    case AckArrives(id) => TableInv(cfg, s, Close(s.table, id));
    case MigrateAck(key) => TableInv(cfg, s, Close(s.table, key));
    case Wake(id) =>
      WokenDetached(cfg, s, id);
      ReturnInv(cfg, s, id, Success);
    case Expire(id) => RetryInv(cfg, s, id, TimedOut);
    case Shutdown(id) => ReturnInv(cfg, s, id, ShuttingDown);
    case Clean => TableInv(cfg, s, Sweep(s.table, s.clock));
    case Tick(dt) => TickInv(cfg, s, dt);
  }

  lemma DecodeInv(cfg: Config, s: State, id: nat)
    requires Inv(cfg, s) && id in s.sent
    ensures Inv(cfg, s.(decoded := s.decoded + {id}))
  {
    hide Counted;
    forall k | k in s.table.waiters ensures Owned(s.(decoded := s.decoded + {id}), k) {
      assert Owned(s, k);
    }
  }

  /** The configurations under which success is a receipt. */
  predicate Sound(cfg: Config) {
    cfg.maxRetries >= 0 && cfg.timeout + cfg.lag <= MAX_AGE
  }

  /** A stale waiter's call was stopped by shutdown: a live one is never that old. */
  lemma StaleStopped(cfg: Config, s: State, id: nat)
    requires Inv(cfg, s) && Sound(cfg) && Stale(s.table, s.clock, id)
    ensures id in s.calls && s.calls[id].phase == Returned(ShuttingDown)
  {
    assert Owned(s, id);
  }

  lemma SweepGenuine(cfg: Config, s: State)
    requires Inv(cfg, s) && Genuine(cfg, s) && Sound(cfg)
    ensures Genuine(cfg, s.(table := Sweep(s.table, s.clock)))
  {
    forall id | Stale(s.table, s.clock, id) ensures id in s.calls && s.calls[id].phase == Returned(ShuttingDown) {
      StaleStopped(cfg, s, id);
    }
  }

  lemma StepGenuine(cfg: Config, s: State, e: Event)
    requires Inv(cfg, s) && Genuine(cfg, s) && Sound(cfg) && Enabled(cfg, s, e)
    ensures Genuine(cfg, Step(cfg, s, e))
  {
    if e.Clean? { SweepGenuine(cfg, s); }
  }

  lemma {:induction false} RunInv(cfg: Config, es: seq<Event>)
    requires Possible(cfg, es)
    ensures Inv(cfg, Run(cfg, es))
    ensures Sound(cfg) ==> Genuine(cfg, Run(cfg, es))
    decreases |es|
  {
    hide Inv, Genuine, Enabled, Step;
    if es == [] {
      InitialInv(cfg);
    } else {
      var front, e := es[..|es| - 1], es[|es| - 1];
      RunInv(cfg, front);
      StepInv(cfg, Run(cfg, front), e);
      if Sound(cfg) { StepGenuine(cfg, Run(cfg, front), e); }
    }
  }

  lemma InitialInv(cfg: Config)
    ensures Inv(cfg, INITIAL) && Genuine(cfg, INITIAL)
  {
  }

  // ----- Main results -----

  /** Whatever the timing, a call sends at most maxRetries + 1 copies, has returned once
      that many attempts' time has passed, and leaves no waiter unless it was stopped by
      shutdown. */
  lemma CallsBounded(cfg: Config, es: seq<Event>, id: nat)
    requires Possible(cfg, es) && id in Run(cfg, es).calls
    ensures var s := Run(cfg, es); var c := s.calls[id];
            && c.copies <= Copies(cfg)
            && (c.phase.Returned? && c.phase.outcome != ShuttingDown ==> id !in s.table.waiters)
            && (!c.phase.Returned? ==> s.clock <= c.begun + Copies(cfg) * Span(cfg))
  {
    RunInv(cfg, es);
    var s := Run(cfg, es);
    var c := s.calls[id];
    assert Counted(cfg, s.clock, c);
    if !c.phase.Returned? {
      Monotone(c.attempt + 1, Copies(cfg), Span(cfg));
      assert (c.attempt + 1) * Span(cfg) == c.attempt * Span(cfg) + Span(cfg);
    }
  }

  lemma Monotone(a: nat, b: nat, k: nat)
    requires a <= b
    ensures a * k <= b * k
  {
    assert b * k == a * k + (b - a) * k;
  }

  /** Success is reported only for messages the receiver decoded, apart from ids that
      happen to be migration keys. */
  ghost predicate SuccessIsReceipt(cfg: Config) {
    forall es, id :: Possible(cfg, es) && Succeeded(Run(cfg, es), id) && id !in cfg.keys ==> id in Run(cfg, es).decoded
  }

  predicate Succeeded(s: State, id: nat) { id in s.calls && s.calls[id].phase == Returned(Success) }

  lemma StartRun(cfg: Config)
    ensures Possible(cfg, []) && Run(cfg, []) == INITIAL
  {
  }

  lemma RunSnoc(cfg: Config, es: seq<Event>, e: Event)
    requires Possible(cfg, es) && Enabled(cfg, Run(cfg, es), e)
    ensures Possible(cfg, es + [e]) && Run(cfg, es + [e]) == Step(cfg, Run(cfg, es), e)
  {
    assert (es + [e])[..|es|] == es;
  }

  /** Nothing has happened but calls refused by an open circuit. */
  ghost predicate Quiet(s: State, n: nat) {
    && s.clock == 0 && s.lastID == n && s.table == Table(map[], {}) && s.sent == s.decoded == {}
    && forall id :: id in s.calls ==> s.calls[id].phase == Returned(CircuitOpen)
  }

  /** Any id can come up next. */
  lemma {:induction false} Refusals(cfg: Config, n: nat) returns (es: seq<Event>)
    ensures Possible(cfg, es) && Quiet(Run(cfg, es), n)
    decreases n
  {
    if n == 0 {
      StartRun(cfg);
      es := [];
    } else {
      var front := Refusals(cfg, n - 1);
      RunSnoc(cfg, front, Begin(true));
      es := front + [Begin(true)];
    }
  }

  /** A negative retry limit reports success without sending. */
  lemma NegativeRetries(cfg: Config, id: nat) returns (es: seq<Event>)
    requires cfg.maxRetries < 0 && id >= 1
    ensures Possible(cfg, es) && Succeeded(Run(cfg, es), id)
    ensures Run(cfg, es).sent == {} && id !in Run(cfg, es).decoded
  {
    hide Possible, Run;
    var quiet := Refusals(cfg, id - 1);
    RunSnoc(cfg, quiet, Begin(false));
    es := quiet + [Begin(false)];
  }

  /** A waiter that outlives the stale limit is closed as if acknowledged. */
  lemma SweptWaiter(cfg: Config, id: nat) returns (es: seq<Event>)
    requires cfg.maxRetries >= 0 && cfg.timeout + cfg.lag > MAX_AGE && id >= 1
    ensures Possible(cfg, es) && Succeeded(Run(cfg, es), id) && id !in Run(cfg, es).decoded
  {
    hide Possible, Run;
    es := WaitingCall(cfg, id);
    var s := Run(cfg, es);
    RunSnoc(cfg, es, Tick(MAX_AGE + 1));
    es := es + [Tick(MAX_AGE + 1)];
    RunSnoc(cfg, es, Clean);
    es := es + [Clean];
    var swept := Run(cfg, es);
    assert Stale(s.table, MAX_AGE + 1, id);
    assert (id, 0) in swept.table.closed;
    RunSnoc(cfg, es, Wake(id));
    es := es + [Wake(id)];
  }

  /** A call with one copy sent and nothing decoded. */
  lemma WaitingCall(cfg: Config, id: nat) returns (es: seq<Event>)
    requires cfg.maxRetries >= 0 && id >= 1
    ensures Possible(cfg, es)
    ensures var s := Run(cfg, es);
            && s.clock == 0 && s.decoded == {} && s.table == Table(map[id := Waiter(0, 0)], {})
            && id in s.calls && s.calls[id] == Call(0, 0, 0, true, 1, Waiting(0))
            && forall k :: k in s.calls && k != id ==> s.calls[k].phase.Returned?
  {
    hide Possible, Run;
    es := Refusals(cfg, id - 1);
    RunSnoc(cfg, es, Begin(false));
    es := es + [Begin(false)];
    RunSnoc(cfg, es, Leaves(id));
    es := es + [Leaves(id)];
    RunSnoc(cfg, es, Sent(id));
    es := es + [Sent(id)];
  }

  /** The exception for migration keys is needed: a colliding key forges a receipt. */
  lemma CollidingKey(cfg: Config, id: nat) returns (es: seq<Event>)
    requires cfg.maxRetries >= 0 && id >= 1 && id in cfg.keys
    ensures Possible(cfg, es) && Succeeded(Run(cfg, es), id) && id !in Run(cfg, es).decoded
  {
    hide Possible, Run;
    es := WaitingCall(cfg, id);
    RunSnoc(cfg, es, MigrateAck(id));
    es := es + [MigrateAck(id)];
    RunSnoc(cfg, es, Wake(id));
    es := es + [Wake(id)];
  }

  /** There is an id outside every finite set of keys. */
  lemma {:induction false} Unused(keys: set<nat>) returns (id: nat)
    ensures id >= 1 && forall k :: k in keys ==> k < id
    decreases |keys|
  {
    if keys == {} {
      id := 1;
    } else {
      var k :| k in keys;
      var above := Unused(keys - {k});
      id := if k < above then above else k + 1;
      assert forall j :: j in keys ==> j == k || j in keys - {k};
    }
  }

  /** Success is a receipt in every run if and only if the retry limit is not negative
      and no attempt can outlast the stale limit. */
  lemma ReceiptExactly(cfg: Config)
    ensures SuccessIsReceipt(cfg) <==> Sound(cfg)
  {
    hide Possible, Run;
    if Sound(cfg) {
      forall es, id | Possible(cfg, es) && Succeeded(Run(cfg, es), id) && id !in cfg.keys
        ensures id in Run(cfg, es).decoded
      {
        RunInv(cfg, es);
      }
    } else {
      var id := Unused(cfg.keys);
      var es: seq<Event>;
      if cfg.maxRetries < 0 {
        es := NegativeRetries(cfg, id);
      } else {
        es := SweptWaiter(cfg, id);
      }
      assert id !in cfg.keys && Succeeded(Run(cfg, es), id);
    }
  }

  /** The cluster forwards with three retries of five seconds each. */
  lemma ClusterReceipts(lag: nat, keys: set<nat>)
    ensures SuccessIsReceipt(Config(3, 5_000_000_000, lag, keys)) <==> lag <= MAX_AGE - 5_000_000_000
  {
    ReceiptExactly(Config(3, 5_000_000_000, lag, keys));
  }

  // ----- As the source runs -----

  /** How one attempt ends: the send fails, before or after the frame left, the
      acknowledgement arrives, the timer fires first, or the transport stops. */
  datatype Try = Refused(open: bool, left: bool) | Acknowledged | Silent | Stopped

  predicate Final(t: Try) { t.Acknowledged? || t.Stopped? || (t.Refused? && t.open) }

  /** The attempt that ends the call: the first final one, or the last allowed. */
  ghost predicate Decides(tries: nat -> Try, maxRetries: int, k: nat) {
    && k <= maxRetries
    && (forall i: nat :: i < k ==> !Final(tries(i)))
    && (k == maxRetries || Final(tries(k)))
  }

  function Verdict(t: Try): Outcome {
    match t
    case Refused(open, _) => if open then CircuitOpen else SendFailed
    case Acknowledged => Success
    case Silent => TimedOut
    case Stopped => ShuttingDown
  }

  /** Copies that left in the first `n` attempts. */
  function Written(tries: nat -> Try, n: nat): nat {
    if n == 0 then 0 else Written(tries, n - 1) + Left(tries(n - 1))
  }

  lemma WrittenNext(tries: nat -> Try, n: nat)
    ensures Written(tries, 0) == 0 && Written(tries, n + 1) == Written(tries, n) + Left(tries(n))
  {
  }

  function Left(t: Try): nat { if t.Refused? && !t.left then 0 else 1 }

  /** The only call so far is about to send its `k`-th retry. */
  ghost predicate Trying(s: State, k: nat, copies: nat) {
    && s.calls.Keys == {1} && s.calls[1].phase == Sending && s.calls[1].started == s.clock
    && s.calls[1].attempt == k && s.calls[1].copies == copies && !s.calls[1].left
    && s.table == Table(map[1 := Waiter(k, s.clock)], {})
  }

  /** An attempt that does not end the call leads to the next one. */
  lemma NextAttempt(cfg: Config, es: seq<Event>, t: Try, k: nat, copies: nat) returns (next: seq<Event>)
    requires Possible(cfg, es) && Trying(Run(cfg, es), k, copies) && !Final(t) && k < cfg.maxRetries
    ensures Possible(cfg, next) && Trying(Run(cfg, next), k + 1, copies + Left(t))
  {
    hide Possible, Run;
    if t.Refused? {
      next := Failing(cfg, es, t, k, copies);
      RunSnoc(cfg, next, SendError(1, false));
      next := next + [SendError(1, false)];
    } else {
      next := Overdue(cfg, es, k, copies);
      RunSnoc(cfg, next, Expire(1));
      next := next + [Expire(1)];
    }
  }

  /** The frame has left or not, and Send is about to fail. */
  lemma Failing(cfg: Config, es: seq<Event>, t: Try, k: nat, copies: nat) returns (next: seq<Event>)
    requires Possible(cfg, es) && Trying(Run(cfg, es), k, copies) && t.Refused?
    ensures Possible(cfg, next)
    ensures var s := Run(cfg, next);
            && s.calls.Keys == {1} && s.calls[1].phase == Sending && s.calls[1].attempt == k
            && s.calls[1].copies == copies + Left(t) && s.table == Run(cfg, es).table && s.clock == Run(cfg, es).clock
  {
    hide Possible, Run;
    next := es;
    if t.left {
      RunSnoc(cfg, es, Leaves(1));
      next := es + [Leaves(1)];
    }
  }

  /** The frame left, Send has returned. */
  lemma Dispatched(cfg: Config, es: seq<Event>, k: nat, copies: nat) returns (next: seq<Event>)
    requires Possible(cfg, es) && Trying(Run(cfg, es), k, copies)
    ensures Possible(cfg, next)
    ensures var s, before := Run(cfg, next), Run(cfg, es);
            && s.calls.Keys == {1} && s.calls[1].phase == Waiting(s.clock) && s.calls[1].attempt == k
            && s.calls[1].copies == copies + 1 && s.calls[1].started == s.clock
            && s.table == before.table && s.clock == before.clock && 1 in s.sent
  {
    hide Possible, Run;
    RunSnoc(cfg, es, Leaves(1));
    next := es + [Leaves(1)];
    RunSnoc(cfg, next, Sent(1));
    next := next + [Sent(1)];
  }

  /** The copy is sent and the timer has fired. */
  lemma Overdue(cfg: Config, es: seq<Event>, k: nat, copies: nat) returns (next: seq<Event>)
    requires Possible(cfg, es) && Trying(Run(cfg, es), k, copies)
    ensures Possible(cfg, next) && Enabled(cfg, Run(cfg, next), Expire(1))
    ensures var s := Run(cfg, next);
            s.calls.Keys == {1} && s.calls[1].attempt == k && s.calls[1].copies == copies + 1 && s.table.closed == {}
    ensures Run(cfg, next).table.waiters.Keys == {1}
  {
    hide Possible, Run;
    next := Dispatched(cfg, es, k, copies);
    RunSnoc(cfg, next, Tick(cfg.timeout));
    next := next + [Tick(cfg.timeout)];
  }

  lemma {:induction false} Attempts(cfg: Config, tries: nat -> Try, k: nat) returns (es: seq<Event>)
    requires k <= cfg.maxRetries && forall i: nat :: i < k ==> !Final(tries(i))
    ensures Possible(cfg, es) && Trying(Run(cfg, es), k, Written(tries, k))
    decreases k
  {
    hide Possible, Run;
    if k == 0 {
      StartRun(cfg);
      RunSnoc(cfg, [], Begin(false));
      es := [] + [Begin(false)];
    } else {
      es := Attempts(cfg, tries, k - 1);
      es := NextAttempt(cfg, es, tries(k - 1), k - 1, Written(tries, k - 1));
    }
  }

  /** However the retry loop ends, some run of the protocol ends the call with the same
      result after the same number of copies. */
  lemma LoopIsRun(cfg: Config, tries: nat -> Try, k: nat) returns (es: seq<Event>)
    requires Decides(tries, cfg.maxRetries, k)
    ensures Possible(cfg, es) && 1 in Run(cfg, es).calls
    ensures Run(cfg, es).calls[1].phase == Returned(Verdict(tries(k)))
    ensures Run(cfg, es).calls[1].copies == Written(tries, k + 1)
  {
    hide Possible, Run;
    var start := Attempts(cfg, tries, k);
    match tries(k)
    case Refused(open, left) =>
      es := Failing(cfg, start, tries(k), k, Written(tries, k));
      RunSnoc(cfg, es, SendError(1, open));
      es := es + [SendError(1, open)];
    case Acknowledged =>
      es := Answered(cfg, start, k, Written(tries, k));
    case Silent =>
      es := Overdue(cfg, start, k, Written(tries, k));
      RunSnoc(cfg, es, Expire(1));
      es := es + [Expire(1)];
    case Stopped =>
      es := Dispatched(cfg, start, k, Written(tries, k));
      RunSnoc(cfg, es, Shutdown(1));
      es := es + [Shutdown(1)];
  }

  lemma Answered(cfg: Config, start: seq<Event>, k: nat, copies: nat) returns (es: seq<Event>)
    requires Possible(cfg, start) && Trying(Run(cfg, start), k, copies)
    ensures Possible(cfg, es) && 1 in Run(cfg, es).calls
    ensures Run(cfg, es).calls[1].phase == Returned(Success) && Run(cfg, es).calls[1].copies == copies + 1
  {
    hide Possible, Run;
    es := Dispatched(cfg, start, k, copies);
    RunSnoc(cfg, es, Decode(1));
    es := es + [Decode(1)];
    RunSnoc(cfg, es, AckArrives(1));
    es := es + [AckArrives(1)];
    RunSnoc(cfg, es, Wake(1));
    es := es + [Wake(1)];
  }

  class PeerTransport {
    var ackWaiters: map<nat, Waiter>
    var closed: set<(nat, nat)>
    var lastID: nat

    constructor ()
      ensures Contents() == Table(map[], {}) && lastID == 0
    {
      ackWaiters, closed, lastID := map[], {}, 0;
    }

    function Contents(): Table
      reads this
    {
      Table(ackWaiters, closed)
    }

    method NextID() returns (id: nat)
      modifies this`lastID
      ensures id == lastID == old(lastID) + 1
    {
      lastID := lastID + 1;
      id := lastID;
    }

    /** An acknowledgement frame for `id` came in. */
    method HandleAck(id: nat)
      modifies this`ackWaiters, this`closed
      ensures Contents() == Close(old(Contents()), id)
    {
      if id in ackWaiters {
        closed := closed + {(id, ackWaiters[id].attempt)};
        ackWaiters := ackWaiters - {id};
      }
    }

    /** One pass of the stale-waiter sweep. */
    method CleanupStale(now: int)
      modifies this`ackWaiters, this`closed
      ensures Contents() == Sweep(old(Contents()), now)
    {
      var todo := ackWaiters.Keys;
      while todo != {}
        invariant todo <= ackWaiters.Keys
        invariant forall id :: id in ackWaiters <==> id in old(ackWaiters) && (id in todo || !Stale(old(Contents()), now, id))
        invariant forall id :: id in ackWaiters ==> ackWaiters[id] == old(ackWaiters)[id]
        invariant forall p :: p in closed <==> p in old(closed) || (p.0 !in todo && ClosedBySweep(old(Contents()), now, p))
        decreases |todo|
      {
        var id :| id in todo;
        todo := todo - {id};
        if now - ackWaiters[id].createdAt > MAX_AGE {
          closed := closed + {(id, ackWaiters[id].attempt)};
          ackWaiters := ackWaiters - {id};
        }
      }
      ghost var swept := Sweep(old(Contents()), now);
      assert ackWaiters == swept.waiters;
      assert closed == swept.closed;
    }

    /** The retry loop of one call, with the events of each attempt given by `tries` and
        its start by `clock`. */
    method SendReliable(id: nat, maxRetries: int, open: bool, tries: nat -> Try, clock: nat -> int)
      returns (outcome: Outcome, copies: nat, ghost last: nat)
      modifies this`ackWaiters, this`closed
      ensures open ==> outcome == CircuitOpen
      ensures !open && maxRetries < 0 ==> outcome == Success
      ensures open || maxRetries < 0 ==> copies == 0 && Contents() == old(Contents())
      ensures !open && maxRetries >= 0 ==>
                && Decides(tries, maxRetries, last)
                && outcome == Verdict(tries(last))
                && copies == Written(tries, last + 1) <= maxRetries + 1
                && ackWaiters == (if outcome == ShuttingDown then old(ackWaiters)[id := Waiter(last, clock(last))]
                                  else old(ackWaiters) - {id})
                && closed == old(closed) + if outcome == Success then {(id, last)} else {}
    {
      hide Written;
      WrittenNext(tries, 0);
      copies, last := 0, 0;
      if open {
        return CircuitOpen, 0, 0;
      }
      var attempt := 0;
      while attempt <= maxRetries
        invariant 0 <= attempt && (attempt > 0 ==> attempt <= maxRetries)
        invariant forall i: nat :: i < attempt ==> !Final(tries(i))
        invariant copies == Written(tries, attempt) <= attempt
        invariant closed == old(closed)
        invariant ackWaiters == if attempt == 0 then old(ackWaiters) else old(ackWaiters) - {id}
        decreases maxRetries - attempt
      {
        last := attempt;
        WrittenNext(tries, attempt);
        ackWaiters := ackWaiters[id := Waiter(attempt, clock(attempt))];
        match tries(attempt) {
          case Refused(circuit, left) =>
            if left {
              copies := copies + 1;
            }
            ackWaiters := ackWaiters - {id};
            if circuit {
              return CircuitOpen, copies, last;
            }
            if attempt == maxRetries {
              return SendFailed, copies, last;
            }
          case Acknowledged =>
            copies := copies + 1;
            HandleAck(id);
            return Success, copies, last;
          case Silent =>
            copies := copies + 1;
            ackWaiters := ackWaiters - {id};
            if attempt == maxRetries {
              return TimedOut, copies, last;
            }
          case Stopped =>
            copies := copies + 1;
            return ShuttingDown, copies, last;
        }
        attempt := attempt + 1;
      }
      return Success, 0, 0;
    }
  }
}
