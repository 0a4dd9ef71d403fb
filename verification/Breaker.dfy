/** The circuit breaker over whole runs (internal/circuitbreaker/breaker.go). */
module Breaker {

  datatype Phase = Closed | Open | HalfOpen

  /** `rate` is the quotient of failures and total as the source computes it, with
      whatever rounding: nothing here depends on its values. */
  datatype Config = Config(
    errorThreshold: real, windowSize: int, openDuration: int, halfOpenMax: int, minRequests: int, rate: (nat, nat) -> real)

  datatype State = State(
    phase: Phase, fails: nat, successes: nat, total: nat, halfOpenSucc: nat, openedAt: int)

  datatype Op = Allow | Success | Failure | Observe | Reset

  datatype Event = Event(op: Op, now: int)

  const INITIAL: State := State(Closed, 0, 0, 0, 0, 0)

  function Trip(now: int): State { State(Open, 0, 0, 0, 0, now) }

  function Cleared(s: State): State { State(Closed, 0, 0, 0, 0, s.openedAt) }

  /** The open period is over. */
  predicate Elapsed(cfg: Config, s: State, now: int) { s.phase.Open? && now - s.openedAt > cfg.openDuration }

  /** `Allow` and `State` both move an elapsed open breaker to half-open. */
  function Probe(cfg: Config, s: State, now: int): State {
    if Elapsed(cfg, s, now) then s.(phase := HalfOpen, halfOpenSucc := 0) else s
  }

  /** Enough requests since the last reset, and too many of them failed. */
  predicate Unhealthy(cfg: Config, fails: nat, total: nat) {
    total >= cfg.minRequests && total > 0 && cfg.rate(fails, total) >= cfg.errorThreshold
  }

  function Step(cfg: Config, s: State, e: Event): State {
    match e.op
    case Allow => Probe(cfg, s, e.now)
    case Observe => Probe(cfg, s, e.now)
    case Success =>
      var s' := s.(successes := s.successes + 1, total := s.total + 1);
      if !s.phase.HalfOpen? then s'
      else if s.halfOpenSucc + 1 >= cfg.halfOpenMax then Cleared(s')
      else s'.(halfOpenSucc := s.halfOpenSucc + 1)
    case Failure =>
      var s' := s.(fails := s.fails + 1, total := s.total + 1);
      if s.phase.HalfOpen? || (s.phase.Closed? && Unhealthy(cfg, s'.fails, s'.total)) then Trip(e.now) else s'
    case Reset => Cleared(s)
  }

  /** What `Allow` answers, given the state it leaves behind. */
  predicate Allowed(s: State) { !s.phase.Open? }

  function Run(cfg: Config, s: State, es: seq<Event>): State {
    if es == [] then s else Step(cfg, Run(cfg, s, es[..|es| - 1]), es[|es| - 1])
  }

  // ----- Counters -----

  ghost predicate Consistent(s: State) {
    s.total == s.fails + s.successes && (!s.phase.HalfOpen? ==> s.halfOpenSucc == 0)
  }

  /** In every reachable state totals are failures plus successes. */
  lemma {:induction false} TotalsAddUp(cfg: Config, es: seq<Event>)
    ensures Consistent(Run(cfg, INITIAL, es))
    decreases |es|
  {
    if es != [] { TotalsAddUp(cfg, es[..|es| - 1]); }
  }

  /** The event opens or closes the breaker or resets it, which clears the counters. */
  predicate Clears(cfg: Config, s: State, e: Event) {
    || e.op == Reset
    || (e.op == Success && s.phase.HalfOpen? && s.halfOpenSucc + 1 >= cfg.halfOpenMax)
    || (e.op == Failure && (s.phase.HalfOpen? || (s.phase.Closed? && Unhealthy(cfg, s.fails + 1, s.total + 1))))
  }

  /** Where the history since the last clearing event starts. */
  ghost function Since(cfg: Config, es: seq<Event>): (k: nat)
    ensures k <= |es|
  {
    if es == [] then 0
    else if Clears(cfg, Run(cfg, INITIAL, es[..|es| - 1]), es[|es| - 1]) then |es|
    else Since(cfg, es[..|es| - 1])
  }

  /** How many events of a kind there were from position `k` on, not before `from`. */
  function Count(es: seq<Event>, k: nat, op: Op, from: int): nat {
    if |es| <= k then 0
    else
      var e := es[|es| - 1];
      Count(es[..|es| - 1], k, op, from) + if e.op == op && e.now >= from then 1 else 0
  }

  /** The counters are all the failures and successes since the breaker last opened,
      closed or was reset, however long ago. */
  lemma {:induction false} CountersExact(cfg: Config, es: seq<Event>, from: int)
    requires forall i :: 0 <= i < |es| ==> from <= es[i].now
    ensures var s, k := Run(cfg, INITIAL, es), Since(cfg, es);
            s.fails == Count(es, k, Failure, from) && s.successes == Count(es, k, Success, from)
    decreases |es|
  {
    hide Step, Clears;
    if es != [] {
      var n := |es| - 1;
      CountersExact(cfg, es[..n], from);
      StepCounts(cfg, Run(cfg, INITIAL, es[..n]), es[n]);
    }
  }

  lemma StepCounts(cfg: Config, s: State, e: Event)
    ensures var s' := Step(cfg, s, e);
            if Clears(cfg, s, e) then s'.fails == s'.successes == 0
            else s'.fails == s.fails + (if e.op == Failure then 1 else 0)
                 && s'.successes == s.successes + (if e.op == Success then 1 else 0)
  {
    hide Unhealthy;
  }

  /** A count over a window is the whole count exactly if no such event is older. */
  lemma {:induction false} WindowExact(es: seq<Event>, k: nat, op: Op, whole: int, from: int)
    requires whole <= from && forall i :: 0 <= i < |es| ==> whole <= es[i].now
    ensures Count(es, k, op, from) <= Count(es, k, op, whole)
    ensures Count(es, k, op, from) == Count(es, k, op, whole) <==>
            forall i :: k <= i < |es| && es[i].op == op ==> es[i].now >= from
    decreases |es|
  {
    if |es| > k { WindowExact(es[..|es| - 1], k, op, whole, from); }
  }

  /** So the counters are those of the configured window ending now if and only if no
      failure or success since the last clearing event is older than the window. */
  lemma WindowIgnored(cfg: Config, es: seq<Event>, whole: int, now: int)
    requires whole <= now - cfg.windowSize && forall i :: 0 <= i < |es| ==> whole <= es[i].now
    ensures var s, k, from := Run(cfg, INITIAL, es), Since(cfg, es), now - cfg.windowSize;
            s.fails == Count(es, k, Failure, from) && s.successes == Count(es, k, Success, from) <==>
            forall i :: k <= i < |es| && es[i].op in {Failure, Success} ==> es[i].now >= from
  {
    hide Run, Since, Count;
    CountersExact(cfg, es, whole);
    WindowExact(es, Since(cfg, es), Failure, whole, now - cfg.windowSize);
    WindowExact(es, Since(cfg, es), Success, whole, now - cfg.windowSize);
  }

  // ----- After a trip -----

  /** After a trip, without a reset, the breaker stays open and rejects every request
      until more than the open duration has passed; the first probe after that is let
      through. */
  lemma {:induction false} TripHolds(cfg: Config, s: State, t: int, es: seq<Event>)
    requires s.phase.Open? && s.openedAt == t
    requires forall i :: 0 <= i < |es| ==> es[i].op != Reset && es[i].now <= t + cfg.openDuration
    ensures var s' := Run(cfg, s, es);
            && s'.phase.Open? && s'.openedAt == t && !Allowed(s')
            && forall now :: now > t + cfg.openDuration ==> Step(cfg, s', Event(Allow, now)).phase.HalfOpen?
    decreases |es|
  {
    if es != [] { TripHolds(cfg, s, t, es[..|es| - 1]); }
  }

  /** Over any run, the breaker opens on a failure only: in half-open always, in closed
      exactly when the error rate over all events since the last clearing one has reached
      the threshold. */
  lemma TripExact(cfg: Config, es: seq<Event>, e: Event, from: int)
    requires !Run(cfg, INITIAL, es).phase.Open? && forall i :: 0 <= i < |es| ==> from <= es[i].now
    ensures var s, s', k := Run(cfg, INITIAL, es), Run(cfg, INITIAL, es + [e]), Since(cfg, es);
            var fails, successes := Count(es, k, Failure, from), Count(es, k, Success, from);
            && (s'.phase.Open? <==>
                e.op == Failure && (s.phase.HalfOpen? || Unhealthy(cfg, fails + 1, fails + successes + 1)))
            && (s'.phase.Open? ==> s'.openedAt == e.now)
  {
    hide Count, Since, Unhealthy, Step, Run;
    RunSnoc(cfg, es, e);
    CountersExact(cfg, es, from);
    TotalsAddUp(cfg, es);
    StepTrips(cfg, Run(cfg, INITIAL, es), e);
  }

  lemma RunSnoc(cfg: Config, es: seq<Event>, e: Event)
    ensures Run(cfg, INITIAL, es + [e]) == Step(cfg, Run(cfg, INITIAL, es), e)
  {
    hide Step;
    assert (es + [e])[..|es|] == es;
  }

  lemma StepTrips(cfg: Config, s: State, e: Event)
    requires !s.phase.Open?
    ensures Step(cfg, s, e).phase.Open? <==>
            e.op == Failure && (s.phase.HalfOpen? || Unhealthy(cfg, s.fails + 1, s.total + 1))
    ensures Step(cfg, s, e).phase.Open? ==> Step(cfg, s, e).openedAt == e.now
  {
    hide Unhealthy;
  }

  /** Two failures further apart than the window trip a breaker that asks for two
      requests. */
  lemma SpreadFailuresTrip(cfg: Config, now: int)
    requires cfg.minRequests == 2 && cfg.rate(2, 2) >= cfg.errorThreshold
    ensures Run(cfg, INITIAL, [Event(Failure, now), Event(Failure, now + cfg.windowSize + 1)]).phase.Open?
  {
    var es := [Event(Failure, now), Event(Failure, now + cfg.windowSize + 1)];
    assert es[..1] == [es[0]] && es[..1][..0] == [];
    assert Run(cfg, INITIAL, es[..1]) == Step(cfg, Run(cfg, INITIAL, es[..1][..0]), es[0]);
  }

  // ----- Closing -----

  /** Successes recorded from position `i` on. */
  function SuccessesFrom(es: seq<Event>, i: nat): nat {
    if |es| <= i then 0
    else SuccessesFrom(es[..|es| - 1], i) + if es[|es| - 1].op == Success then 1 else 0
  }

  /** The state before the k-th event. */
  ghost function At(cfg: Config, es: seq<Event>, k: nat): State
    requires k <= |es|
  {
    Run(cfg, INITIAL, es[..k])
  }

  /** From position `i` on the history is one half-open spell: it starts with the
      probe that ended an open period, stays half-open throughout, records no failure
      and no reset, and its successes are the ones counted. */
  ghost predicate SpellFrom(cfg: Config, es: seq<Event>, i: nat) {
    && i < |es| && es[i].op in {Allow, Observe} && Elapsed(cfg, At(cfg, es, i), es[i].now)
    && (forall k :: i <= k < |es| ==> es[k].op != Failure && es[k].op != Reset)
    && (forall k :: i < k <= |es| ==> At(cfg, es, k).phase.HalfOpen?)
    && SuccessesFrom(es, i) == At(cfg, es, |es|).halfOpenSucc
  }

  /** Half-open means: inside one spell. */
  lemma {:induction false} HalfOpenSpell(cfg: Config, es: seq<Event>)
    requires Run(cfg, INITIAL, es).phase.HalfOpen?
    ensures exists i: nat :: SpellFrom(cfg, es, i)
    decreases |es|
  {
    var n := |es| - 1;
    var front := es[..n];
    assert es[..|es|] == es;
    if Run(cfg, INITIAL, front).phase.HalfOpen? {
      HalfOpenSpell(cfg, front);
      var i: nat :| SpellFrom(cfg, front, i);
      ExtendSpell(cfg, es, i);
    } else {
      assert SuccessesFrom(front, n) == 0;
      assert SpellFrom(cfg, es, n);
    }
  }

  lemma ExtendSpell(cfg: Config, es: seq<Event>, i: nat)
    requires es != [] && SpellFrom(cfg, es[..|es| - 1], i) && Run(cfg, INITIAL, es).phase.HalfOpen?
    ensures SpellFrom(cfg, es, i)
  {
    var n := |es| - 1;
    var front := es[..n];
    assert es[..|es|] == es && front[..n] == front;
    assert At(cfg, front, n).phase.HalfOpen?;
    forall k | i < k <= |es| ensures At(cfg, es, k).phase.HalfOpen? {
      if k <= n {
        assert front[..k] == es[..k];
        assert At(cfg, front, k).phase.HalfOpen?;
      }
    }
    assert front[..i] == es[..i];
    assert forall k :: i <= k < n ==> es[k] == front[k];
  }

  /** Closing without a reset needs one half-open spell with `halfOpenMax` successes
      (at least one) and no failure recorded anywhere in it. */
  lemma ClosingNeedsSpell(cfg: Config, es: seq<Event>, e: Event)
    requires !Run(cfg, INITIAL, es).phase.Closed? && Run(cfg, INITIAL, es + [e]).phase.Closed?
    requires e.op != Reset
    ensures e.op == Success
    ensures exists i: nat :: SpellFrom(cfg, es, i)
              && SuccessesFrom(es, i) + 1 == if cfg.halfOpenMax <= 1 then 1 else cfg.halfOpenMax
  {
    assert (es + [e])[..|es|] == es && es[..|es|] == es;
    HalfOpenSpell(cfg, es);
    var i: nat :| SpellFrom(cfg, es, i);
    BelowMax(cfg, es);
  }

  lemma {:induction false} BelowMax(cfg: Config, es: seq<Event>)
    ensures var s := Run(cfg, INITIAL, es); s.halfOpenSucc > 0 ==> s.halfOpenSucc < cfg.halfOpenMax
    decreases |es|
  {
    if es != [] { BelowMax(cfg, es[..|es| - 1]); }
  }

  // ----- As the source runs -----

  class CircuitBreaker {
    const config: Config
    var state: Phase
    var failCount: nat
    var successCount: nat
    var totalCount: nat
    var halfOpenSucc: nat
    var openedAt: int

    function Abstract(): State
      reads this
    {
      State(state, failCount, successCount, totalCount, halfOpenSucc, openedAt)
    }

    constructor (cfg: Config)
      ensures config == cfg && Abstract() == INITIAL
    {
      config := cfg;
      state, failCount, successCount, totalCount, halfOpenSucc, openedAt := Closed, 0, 0, 0, 0, 0;
    }

    method Allow(now: int) returns (ok: bool)
      modifies this
      ensures Abstract() == Step(config, old(Abstract()), Event(Op.Allow, now)) && ok == Allowed(Abstract())
    {
      match state
      case Closed => return true;
      case Open =>
        if now - openedAt > config.openDuration {
          state, halfOpenSucc := HalfOpen, 0;
          return true;
        }
        return false;
      case HalfOpen => return true;
    }

    method RecordSuccess(now: int)
      modifies this
      ensures Abstract() == Step(config, old(Abstract()), Event(Success, now))
    {
      successCount := successCount + 1;
      totalCount := totalCount + 1;
      if state == HalfOpen {
        halfOpenSucc := halfOpenSucc + 1;
        if halfOpenSucc >= config.halfOpenMax {
          Reset();
        }
      }
    }

    method RecordFailure(now: int)
      modifies this
      ensures Abstract() == Step(config, old(Abstract()), Event(Failure, now))
    {
      failCount := failCount + 1;
      totalCount := totalCount + 1;
      match state
      case Closed =>
        if totalCount >= config.minRequests {
          var errorRate := config.rate(failCount, totalCount);
          if errorRate >= config.errorThreshold {
            TripAt(now);
          }
        }
      case HalfOpen => TripAt(now);
      case Open =>
    }

    method Observe(now: int) returns (phase: Phase)
      modifies this
      ensures Abstract() == Step(config, old(Abstract()), Event(Op.Observe, now)) && phase == state
    {
      if state == Open && now - openedAt > config.openDuration {
        state, halfOpenSucc := HalfOpen, 0;
      }
      return state;
    }

    method TripAt(now: int)
      modifies this
      ensures Abstract() == Trip(now)
    {
      state, openedAt := Open, now;
      failCount, successCount, totalCount, halfOpenSucc := 0, 0, 0, 0;
    }

    method Reset()
      modifies this
      ensures Abstract() == Cleared(old(Abstract()))
    {
      state := Closed;
      failCount, successCount, totalCount, halfOpenSucc := 0, 0, 0, 0;
    }
  }
}
