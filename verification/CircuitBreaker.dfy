/** The per-skill circuit breaker: three states, driven by admission questions and by
    success and failure reports. `Manager` is the mutable object of the program; the
    functions above it are its atomic, lock-protected steps as values. */
module CircuitBreaker {

  datatype CBState = Closed | Open | HalfOpen

  datatype Config = Config(failureThreshold: int, recoveryTimeout: int)

  datatype Breaker = Breaker(state: CBState, failures: int, lastFailureAt: int, probing: bool)

  const FRESH := Breaker(Closed, 0, 0, false)

  // ----- The three critical sections -----

  predicate Admits(cfg: Config, b: Breaker, now: int) {
    match b.state
    case Closed => true
    case Open => now - b.lastFailureAt >= cfg.recoveryTimeout
    case HalfOpen => !b.probing
  }

  function AfterAsk(cfg: Config, b: Breaker, now: int): Breaker {
    if b.state.Closed? || !Admits(cfg, b, now) then b
    else b.(state := HalfOpen, probing := true)
  }

  function AfterSuccess(b: Breaker): Breaker {
    b.(state := Closed, failures := 0, probing := false)
  }

  function AfterFailure(cfg: Config, b: Breaker, now: int): Breaker {
    var b1 := b.(probing := false);
    match b.state
    case Closed =>
      var b2 := b1.(failures := b.failures + 1);
      if b2.failures >= cfg.failureThreshold then b2.(state := Open, lastFailureAt := now) else b2
    case HalfOpen => b1.(state := Open, lastFailureAt := now)
    case Open => b1
  }

  // ----- Histories -----

  datatype Event = Ask(now: int) | Success | Failure(now: int)

  function Apply(cfg: Config, b: Breaker, e: Event): Breaker {
    match e
    case Ask(now) => AfterAsk(cfg, b, now)
    case Success => AfterSuccess(b)
    case Failure(now) => AfterFailure(cfg, b, now)
  }

  /** The breaker after a whole history, oldest event first. */
  function Run(cfg: Config, es: seq<Event>): Breaker {
    if es == [] then FRESH else Apply(cfg, Run(cfg, es[..|es| - 1]), es[|es| - 1])
  }

  /** How many failures were reported since the last success: what the breaker is meant to count,
      read off the history alone. */
  function FailuresSinceSuccess(es: seq<Event>): nat {
    if es == [] then 0
    else match es[|es| - 1]
      case Success => 0
      case Failure(_) => FailuresSinceSuccess(es[..|es| - 1]) + 1
      case Ask(_) => FailuresSinceSuccess(es[..|es| - 1])
  }

  /** The failure count that opens a breaker: a configured threshold below one acts as one. */
  function OpeningCount(cfg: Config): int {
    if cfg.failureThreshold < 1 then 1 else cfg.failureThreshold
  }

  /** The state is decided by the history, for every configuration and every history. */
  lemma {:induction false} HistoryDecidesState(cfg: Config, es: seq<Event>)
    ensures Run(cfg, es).state.Closed? <==> FailuresSinceSuccess(es) < OpeningCount(cfg)
    ensures Run(cfg, es).probing <==> Run(cfg, es).state.HalfOpen?
    ensures Run(cfg, es).state.Closed? ==> Run(cfg, es).failures == FailuresSinceSuccess(es)
  {
    if es != [] {
      HistoryDecidesState(cfg, es[..|es| - 1]);
    }
  }

  /** Read with the configured number itself, the rule holds for all histories exactly when
      that number is at least one. */
  lemma {:induction false} ConfiguredThresholdIsExact(cfg: Config)
    ensures (forall es: seq<Event> :: Run(cfg, es).state.Closed? <==> FailuresSinceSuccess(es) < cfg.failureThreshold)
       <==> cfg.failureThreshold >= 1
  {
    if cfg.failureThreshold >= 1 {
      forall es: seq<Event>
        ensures Run(cfg, es).state.Closed? <==> FailuresSinceSuccess(es) < cfg.failureThreshold
      {
        HistoryDecidesState(cfg, es);
      }
    } else {
      var none: seq<Event> := [];
      assert Run(cfg, none).state.Closed? && FailuresSinceSuccess(none) == 0;
    }
  }

  /** While the threshold is not reached every caller is let through, at any time. */
  lemma {:induction false} FewFailuresAdmit(cfg: Config, es: seq<Event>, now: int)
    requires FailuresSinceSuccess(es) < OpeningCount(cfg)
    ensures Admits(cfg, Run(cfg, es), now)
  {
    HistoryDecidesState(cfg, es);
  }

  // ----- Half-open episodes -----

  predicate Admitted(cfg: Config, es: seq<Event>, i: nat)
    requires i < |es|
  {
    es[i].Ask? && Admits(cfg, Run(cfg, es[..i]), es[i].now)
  }

  /** Event i is the admitted question that opened an episode, and everything since is a refused question. */
  ghost predicate SoleProbe(cfg: Config, es: seq<Event>, i: nat)
    requires i < |es|
  {
    && Run(cfg, es[..i]).state.Open?
    && Admitted(cfg, es, i)
    && forall j | i < j < |es| :: es[j].Ask? && !Admitted(cfg, es, j)
  }

  /** Whenever the breaker is half-open, exactly one caller was admitted since the episode began. */
  lemma {:induction false} HalfOpenHasOneProbe(cfg: Config, es: seq<Event>)
    requires Run(cfg, es).state.HalfOpen?
    ensures exists i | 0 <= i < |es| :: SoleProbe(cfg, es, i)
  {
    var n := |es| - 1;
    var front := es[..n];
    HistoryDecidesState(cfg, front);
    if Run(cfg, front).state.HalfOpen? {
      HalfOpenHasOneProbe(cfg, front);
      var i :| 0 <= i < n && SoleProbe(cfg, front, i);
      assert front[..i] == es[..i];
      assert !Admitted(cfg, es, n);
      forall j | i < j < |es| ensures es[j].Ask? && !Admitted(cfg, es, j) {
        if j < n {
          assert front[..j] == es[..j];
          assert front[j].Ask? && !Admitted(cfg, front, j);
        }
      }
      assert SoleProbe(cfg, es, i);
    } else {
      assert SoleProbe(cfg, es, n);
    }
  }

  /** A caller let through by a breaker that is not closed is alone: until something is reported nobody else is. */
  lemma {:induction false} ProbeIsExclusive(cfg: Config, es: seq<Event>, i: nat, j: nat)
    requires i < j < |es| && Admitted(cfg, es, i) && !Run(cfg, es[..i]).state.Closed?
    requires forall k | i < k < j :: es[k].Ask?
    ensures Run(cfg, es[..j]).state.HalfOpen? && !Admitted(cfg, es, j)
    decreases j
  {
    HistoryDecidesState(cfg, es[..j]);
    assert es[..j][..j - 1] == es[..j - 1];
    if i < j - 1 {
      ProbeIsExclusive(cfg, es, i, j - 1);
    }
  }

  // ----- The recovery timeout -----

  /** Timestamps never go back, as with the monotone clock the program reads. */
  predicate Monotone(es: seq<Event>) {
    forall i, j | 0 <= i < j < |es| && !es[i].Success? && !es[j].Success? :: es[i].now <= es[j].now
  }

  predicate Opens(cfg: Config, es: seq<Event>, i: nat)
    requires i < |es|
  {
    es[i].Failure? && !Run(cfg, es[..i]).state.Open? && Run(cfg, es[..i + 1]).state.Open?
  }

  /** From an opening on, while no success is reported the breaker never closes again and
      `lastFailureAt` never falls behind the opening. */
  lemma {:induction false} StaysTripped(cfg: Config, es: seq<Event>, i: nat, j: nat)
    requires i < j <= |es|
    requires Monotone(es)
    requires Opens(cfg, es, i)
    requires forall k | i < k < j :: !es[k].Success?
    ensures !Run(cfg, es[..j]).state.Closed?
    ensures Run(cfg, es[..j]).lastFailureAt >= es[i].now
    decreases j
  {
    assert es[..j][..j - 1] == es[..j - 1];
    if j == i + 1 {
      HistoryDecidesState(cfg, es[..i]);
    } else {
      StaysTripped(cfg, es, i, j - 1);
    }
  }

  /** Nothing is admitted within the recovery timeout of an opening unless a success came in between. */
  lemma NoEarlyAdmission(cfg: Config, es: seq<Event>, i: nat, j: nat)
    requires i < j < |es|
    requires Monotone(es)
    requires Opens(cfg, es, i)
    requires forall k | i < k < j :: !es[k].Success?
    requires Admitted(cfg, es, j)
    ensures es[j].now >= es[i].now + cfg.recoveryTimeout
  {
    StaysTripped(cfg, es, i, j);
    HistoryDecidesState(cfg, es[..j]);
  }

  /** Event i is the latest one that opened the breaker. */
  ghost predicate LatestOpening(cfg: Config, es: seq<Event>, i: nat)
    requires i < |es|
  {
    Opens(cfg, es, i) && forall j | i < j < |es| :: !Opens(cfg, es, j)
  }

  lemma LaterEventsKeepOpenings(cfg: Config, es: seq<Event>, n: nat)
    requires n <= |es|
    ensures forall j | 0 <= j < n :: Opens(cfg, es, j) <==> Opens(cfg, es[..n], j)
  {
    forall j | 0 <= j < n ensures Opens(cfg, es, j) <==> Opens(cfg, es[..n], j) {
      assert es[..n][..j] == es[..j] && es[..n][..j + 1] == es[..j + 1];
    }
  }

  /** A breaker that is not closed remembers the time of its latest opening: failures reported while it is open do not
      push the recovery back. */
  lemma {:induction false} RemembersLatestOpening(cfg: Config, es: seq<Event>)
    requires !Run(cfg, es).state.Closed?
    ensures exists i | 0 <= i < |es| :: LatestOpening(cfg, es, i) && es[i].now == Run(cfg, es).lastFailureAt
  {
    var n := |es| - 1;
    var front := es[..n];
    assert es[..n + 1] == es;
    HistoryDecidesState(cfg, front);
    if Opens(cfg, es, n) {
      assert LatestOpening(cfg, es, n);
    } else {
      RemembersLatestOpening(cfg, front);
      var i :| 0 <= i < n && LatestOpening(cfg, front, i) && front[i].now == Run(cfg, front).lastFailureAt;
      LaterEventsKeepOpenings(cfg, es, n);
      assert LatestOpening(cfg, es, i);
    }
  }

  /** An open breaker admits the next caller exactly when the recovery timeout since its latest opening is over. */
  lemma {:induction false} RecoversOnTime(cfg: Config, es: seq<Event>, now: int)
    requires Run(cfg, es).state.Open?
    ensures exists i | 0 <= i < |es| :: LatestOpening(cfg, es, i) && (Admits(cfg, Run(cfg, es), now) <==> now >= es[i].now + cfg.recoveryTimeout)
  {
    RemembersLatestOpening(cfg, es);
    var i :| 0 <= i < |es| && LatestOpening(cfg, es, i) && es[i].now == Run(cfg, es).lastFailureAt;
    assert Admits(cfg, Run(cfg, es), now) <==> now >= es[i].now + cfg.recoveryTimeout;
  }

  // ----- The manager object -----

  class Manager {
    const config: Config
    var breakers: map<string, Breaker>
    /** Everything that was ever asked of or reported to each breaker. */
    ghost var log: map<string, seq<Event>>

    ghost function History(id: string): seq<Event> reads this {
      if id in log then log[id] else []
    }

    /** The breaker of a skill; one that was never used counts as a new one. */
    function View(id: string): Breaker reads this {
      if id in breakers then breakers[id] else FRESH
    }

    ghost predicate Valid() reads this {
      forall id: string :: View(id) == Run(config, History(id))
    }

    constructor (cfg: Config)
      ensures config == cfg && Valid() && breakers == map[] && log == map[]
    {
      config := cfg;
      breakers := map[];
      log := map[];
    }

    /** Creates the breaker on first use; nobody can tell from the views. */
    method GetOrCreate(id: string) returns (b: Breaker)
      modifies this`breakers
      ensures b == old(View(id)) && breakers == old(breakers)[id := b]
    {
      if id in breakers {
        return breakers[id];
      }
      b := FRESH;
      breakers := breakers[id := b];
    }

    method Allow(id: string, now: int) returns (ok: bool)
      requires Valid()
      modifies this
      ensures Valid()
      ensures ok == Admits(config, old(View(id)), now)
      ensures FailuresSinceSuccess(old(History(id))) < OpeningCount(config) ==> ok
      ensures log == old(log)[id := old(History(id)) + [Ask(now)]]
      ensures breakers == old(breakers)[id := AfterAsk(config, old(View(id)), now)]
    {
      HistoryDecidesState(config, History(id));
      var b := GetOrCreate(id);
      ok := false;
      match b.state {
        case Closed => ok := true;
        case Open =>
          if now - b.lastFailureAt >= config.recoveryTimeout {
            b := b.(state := HalfOpen, probing := true);
            ok := true;
          }
        case HalfOpen =>
          if !b.probing {
            b := b.(probing := true);
            ok := true;
          }
      }
      breakers := breakers[id := b];
      forall k: string | k != id ensures View(k) == Run(config, History(k)) {
        assert History(k) == old(History(k));
      }
      Extend(id, Ask(now));
    }

    method RecordSuccess(id: string)
      requires Valid()
      modifies this
      ensures Valid()
      ensures log == old(log)[id := old(History(id)) + [Success]]
      ensures breakers == old(breakers)[id := AfterSuccess(old(View(id)))]
    {
      var b := GetOrCreate(id);
      breakers := breakers[id := b.(state := Closed, failures := 0, probing := false)];
      forall k: string | k != id ensures View(k) == Run(config, History(k)) {
        assert History(k) == old(History(k));
      }
      Extend(id, Success);
    }

    method RecordFailure(id: string, now: int)
      requires Valid()
      modifies this
      ensures Valid()
      ensures log == old(log)[id := old(History(id)) + [Failure(now)]]
      ensures breakers == old(breakers)[id := AfterFailure(config, old(View(id)), now)]
    {
      var b := GetOrCreate(id);
      b := b.(probing := false);
      match b.state {
        case Closed =>
          b := b.(failures := b.failures + 1);
          if b.failures >= config.failureThreshold {
            b := b.(state := Open, lastFailureAt := now);
          }
        case HalfOpen => b := b.(state := Open, lastFailureAt := now);
        case Open =>
      }
      breakers := breakers[id := b];
      forall k: string | k != id ensures View(k) == Run(config, History(k)) {
        assert History(k) == old(History(k));
      }
      Extend(id, Failure(now));
    }

    /** Writes the event down; the caller has already moved the breaker accordingly. */
    ghost method Extend(id: string, e: Event)
      requires id in breakers
      requires breakers[id] == Apply(config, Run(config, History(id)), e)
      requires forall k: string | k != id :: View(k) == Run(config, History(k))
      modifies this`log
      ensures Valid()
      ensures log == old(log)[id := old(History(id)) + [e]]
    {
      var h := History(id) + [e];
      assert h[..|h| - 1] == History(id);
      log := log[id := h];
      forall k: string ensures View(k) == Run(config, History(k)) {
        assert k != id ==> History(k) == old(History(k));
      }
    }
  }
}
