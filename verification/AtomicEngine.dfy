/** Executing one skill: admission by the breaker, a bounded retry loop, and the single report
    that every admitted call owes the breaker. This module follows one call; SkillSystem lets any
    number of calls interleave. */
module AtomicEngine {
  import opened Wrappers
  import opened Backoff
  import opened CircuitBreaker

  const MAX_RETRY_ATTEMPTS := 10
  /** Milliseconds. */
  const MAX_RETRY_DELAY := 10000
  const RETRY_BASE_DELAY := 100

  datatype Outcome = Returned(output: string) | DeadlineExceeded | Errored(err: string)

  datatype Verdict =
    | NotFound
    | CircuitOpen
    | Succeeded(output: string)
    | TimedOut
    | Cancelled
    | Exhausted(lastErr: Option<string>)

  datatype Request = Request(skill: string, maxAttempts: int, baseDelay: int)

  /** Provider calls a request may make; zero or less when a negative retry count was asked for. */
  function Budget(maxAttempts: int): int {
    Min(maxAttempts + 1, MAX_RETRY_ATTEMPTS + 1)
  }

  function BaseDelay(requested: int): int {
    if requested <= 0 then RETRY_BASE_DELAY else requested
  }

  /** Sleeps before the last of so many attempts: the first one does not wait. */
  function Sleeps(attempts: nat): nat {
    if attempts == 0 then 0 else attempts - 1
  }

  // ----- One call -----

  /** What the world does to attempt i: the context may be over when the attempt starts or end
      during the back-off before it; otherwise the provider answers. */
  datatype AttemptEnv = AttemptEnv(cancelledBefore: bool, cancelledWaiting: bool, outcome: Outcome)

  predicate CutShort(script: nat -> AttemptEnv, i: nat) {
    script(i).cancelledBefore || (i > 0 && script(i).cancelledWaiting)
  }

  /** Attempt i ends the call. */
  predicate Decisive(script: nat -> AttemptEnv, i: nat) {
    CutShort(script, i) || !script(i).outcome.Errored?
  }

  function VerdictOf(script: nat -> AttemptEnv, i: nat): Verdict
    requires Decisive(script, i)
  {
    if CutShort(script, i) then Cancelled
    else match script(i).outcome
      case Returned(o) => Succeeded(o)
      case DeadlineExceeded => TimedOut
  }

  predicate Undecided(script: nat -> AttemptEnv, i: int) {
    forall j: nat | j < i :: !Decisive(script, j)
  }

  /** The error of the latest of `i` undecided attempts. */
  function LastError(script: nat -> AttemptEnv, i: int): Option<string>
    requires Undecided(script, i)
  {
    if i <= 0 then None else assert !Decisive(script, i - 1); Some(script(i - 1).outcome.err)
  }

  /** The answer of an admitted call: that of its first decisive attempt within the budget, else exhaustion
      with the error of the last attempt made. */
  ghost predicate IsVerdict(script: nat -> AttemptEnv, budget: int, v: Verdict) {
    || (exists i: nat | i < budget :: Undecided(script, i) && Decisive(script, i) && v == VerdictOf(script, i))
    || (Undecided(script, budget) && v == Exhausted(LastError(script, budget)))
  }

  /** After how many provider calls a verdict is reached: all attempts before the decisive one, and that one if the
      provider was asked. */
  predicate ReachedBy(script: nat -> AttemptEnv, budget: int, v: Verdict, calls: nat) {
    match v
    case Cancelled => calls < budget && Undecided(script, calls) && CutShort(script, calls)
    case Exhausted(e) => calls == (if budget < 0 then 0 else budget) && Undecided(script, calls) && e == LastError(script, calls)
    case _ => 1 <= calls <= budget && Undecided(script, calls - 1) && Decisive(script, calls - 1) && v == VerdictOf(script, calls - 1)
  }

  lemma ReachedIsVerdict(script: nat -> AttemptEnv, budget: int, v: Verdict, calls: nat)
    requires ReachedBy(script, budget, v, calls)
    ensures IsVerdict(script, budget, v)
  {
    if v.Cancelled? {
      assert v == VerdictOf(script, calls);
    }
  }

  lemma VerdictIsUnique(script: nat -> AttemptEnv, budget: int, v1: Verdict, v2: Verdict)
    requires IsVerdict(script, budget, v1) && IsVerdict(script, budget, v2)
    ensures v1 == v2
  {
    if i: nat :| i < budget && Undecided(script, i) && Decisive(script, i) && v1 == VerdictOf(script, i) {
      var j: nat :| j < budget && Undecided(script, j) && Decisive(script, j) && v2 == VerdictOf(script, j);
      assert i == j;
    }
  }

  /** One more attempt either decides the call or leaves it undecided with a new last error. */
  lemma AttemptMade(script: nat -> AttemptEnv, budget: int, i: nat)
    requires Undecided(script, i) && i < budget
    ensures Decisive(script, i) ==> ReachedBy(script, budget, VerdictOf(script, i), if CutShort(script, i) then i else i + 1)
    ensures !Decisive(script, i) ==> Undecided(script, i + 1) && LastError(script, i + 1) == Some(script(i).outcome.err)
  {
  }

  /** The verdict in terms of what happened: every provider call before the last one failed and none was preceded by a
      cancellation; the last one, or the cancellation that prevented the next, decides. */
  lemma VerdictExplained(script: nat -> AttemptEnv, budget: int, v: Verdict, calls: nat)
    requires ReachedBy(script, budget, v, calls) && !v.NotFound? && !v.CircuitOpen?
    ensures forall i: nat | i < calls :: !script(i).cancelledBefore && (i > 0 ==> !script(i).cancelledWaiting)
    ensures forall i: nat | i + 1 < calls :: script(i).outcome.Errored?
    ensures v.Succeeded? ==> calls >= 1 && script(calls - 1).outcome == Returned(v.output)
    ensures v.TimedOut? ==> calls >= 1 && script(calls - 1).outcome == DeadlineExceeded
    ensures v.Cancelled? ==> calls < budget && (script(calls).cancelledBefore || (calls > 0 && script(calls).cancelledWaiting))
    ensures v.Exhausted? ==> calls == (if budget < 0 then 0 else budget)
    ensures v.Cancelled? || v.Exhausted? ==> calls > 0 ==> script(calls - 1).outcome.Errored?
    ensures v.Exhausted? ==> v.lastErr == if calls == 0 then None else Some(script(calls - 1).outcome.err)
    ensures budget > 0 && !script(0).cancelledBefore ==> calls >= 1
  {
    var waited := v.Cancelled? || v.Exhausted?;
    forall i: nat | i < calls
      ensures !script(i).cancelledBefore && (i > 0 ==> !script(i).cancelledWaiting) && (i + 1 < calls || waited ==> script(i).outcome.Errored?)
    {
      assert i + 1 < calls || waited ==> !Decisive(script, i);
      if i + 1 == calls && !waited {
        assert !CutShort(script, i);
      }
    }
  }

  /** The one event an admitted call reports. */
  function Report(v: Verdict, now: int): Event {
    if v.Succeeded? then Success else Failure(now)
  }

  class Engine {
    const cb: Manager

    constructor (manager: Manager)
      ensures cb == manager
    {
      cb := manager;
    }

    /** `found` is the provider lookup, `script` the behaviour of the world, the two times are the
        clock readings of the breaker calls. */
    method Execute(req: Request, found: bool, script: nat -> AttemptEnv, askedAt: int, reportedAt: int)
      returns (v: Verdict, calls: nat, waited: int)
      requires cb.Valid()
      modifies cb
      ensures cb.Valid()
      ensures !found ==> v == NotFound && cb.log == old(cb.log)
      ensures found && !Admits(cb.config, old(cb.View(req.skill)), askedAt) ==>
        v == CircuitOpen && cb.log == old(cb.log)[req.skill := old(cb.History(req.skill)) + [Ask(askedAt)]]
      ensures found && Admits(cb.config, old(cb.View(req.skill)), askedAt) ==>
        && IsVerdict(script, Budget(req.maxAttempts), v)
        && !v.NotFound? && !v.CircuitOpen?
        && cb.log == old(cb.log)[req.skill := old(cb.History(req.skill)) + [Ask(askedAt)] + [if v.Succeeded? then Success else Failure(reportedAt)]]
      ensures found && FailuresSinceSuccess(old(cb.History(req.skill))) < OpeningCount(cb.config) ==> !v.NotFound? && !v.CircuitOpen?
      ensures v.Succeeded? ==> calls >= 1 && script(calls - 1).outcome == Returned(v.output)
      ensures v.TimedOut? ==> calls >= 1 && script(calls - 1).outcome == DeadlineExceeded
      ensures v.Cancelled? ==> calls <= req.maxAttempts && (script(calls).cancelledBefore || (calls > 0 && script(calls).cancelledWaiting))
      ensures v.Exhausted? ==> calls == (if req.maxAttempts < 0 then 0 else if req.maxAttempts <= 10 then req.maxAttempts + 1 else 11)
      ensures v.Exhausted? ==> v.lastErr == if calls > 0 && script(calls - 1).outcome.Errored? then Some(script(calls - 1).outcome.err) else None
      ensures forall i: nat | i + 1 < calls :: script(i).outcome.Errored?
      ensures forall i: nat | i < calls :: !script(i).cancelledBefore && (i > 0 ==> !script(i).cancelledWaiting)
      ensures !v.NotFound? && !v.CircuitOpen? && req.maxAttempts >= 0 && !script(0).cancelledBefore ==> calls >= 1
      ensures !v.NotFound? && !v.CircuitOpen? ==> ReachedBy(script, Budget(req.maxAttempts), v, calls)
      ensures waited == TotalDelay(if req.baseDelay <= 0 then 100 else req.baseDelay, 10000, if calls <= 1 then 0 else calls - 1)
      ensures calls <= 11 && 0 <= waited <= 100000
      ensures v.NotFound? || v.CircuitOpen? ==> calls == 0 && waited == 0
    {
      calls, waited := 0, 0;
      if !found {
        return NotFound, calls, waited;
      }
      var ok := cb.Allow(req.skill, askedAt);
      if !ok {
        return CircuitOpen, calls, waited;
      }
      var delays;
      v, calls, delays := Attempts(req, script, reportedAt);
      waited := Sum(delays);
      ScheduleSum(BaseDelay(req.baseDelay), MAX_RETRY_DELAY, delays);
      ReachedIsVerdict(script, Budget(req.maxAttempts), v, calls);
      TotalDelayBound(BaseDelay(req.baseDelay), MAX_RETRY_DELAY, Sleeps(calls));
      VerdictExplained(script, Budget(req.maxAttempts), v, calls);
    }

    /** The back-off before a further attempt. */
    method Delay(baseDelay: int, attempt: nat) returns (delay: int)
      requires attempt > 0
      ensures delay == ClosedDelay(baseDelay, MAX_RETRY_DELAY, attempt)
    {
      delay := baseDelay * Pow2(attempt - 1);
      if delay > MAX_RETRY_DELAY {
        delay := MAX_RETRY_DELAY;
      }
    }

    /** The retry loop of an admitted call. */
    method Attempts(req: Request, script: nat -> AttemptEnv, reportedAt: int)
      returns (v: Verdict, calls: nat, delays: seq<int>)
      requires cb.Valid()
      modifies cb
      ensures cb.Valid()
      ensures cb.log == old(cb.log)[req.skill := old(cb.History(req.skill)) + [Report(v, reportedAt)]]
      ensures ReachedBy(script, Budget(req.maxAttempts), v, calls)
      ensures IsSchedule(BaseDelay(req.baseDelay), MAX_RETRY_DELAY, delays) && |delays| == Sleeps(calls)
      ensures calls <= 11
      ensures !v.NotFound? && !v.CircuitOpen?
    {
      calls, delays := 0, [];
      var maxAttempts := req.maxAttempts + 1;
      if maxAttempts > MAX_RETRY_ATTEMPTS + 1 {
        maxAttempts := MAX_RETRY_ATTEMPTS + 1;
      }
      var baseDelay := req.baseDelay;
      if baseDelay <= 0 {
        baseDelay := RETRY_BASE_DELAY;
      }
      assert maxAttempts == Budget(req.maxAttempts) && baseDelay == BaseDelay(req.baseDelay);
      var lastErr := None;
      var attempt := 0;
      while attempt < maxAttempts
        invariant 0 <= attempt && (attempt <= maxAttempts || attempt == 0)
        invariant Undecided(script, attempt)
        invariant lastErr == LastError(script, attempt)
        invariant calls == attempt
        invariant IsSchedule(baseDelay, MAX_RETRY_DELAY, delays) && |delays| == Sleeps(attempt)
        invariant unchanged(cb)
      {
        AttemptMade(script, maxAttempts, attempt);
        if script(attempt).cancelledBefore {
          cb.RecordFailure(req.skill, reportedAt);
          return Cancelled, calls, delays;
        }
        if attempt > 0 {
          if script(attempt).cancelledWaiting {
            cb.RecordFailure(req.skill, reportedAt);
            return Cancelled, calls, delays;
          }
          var delay := Delay(baseDelay, attempt);
          delays := delays + [delay];
        }
        var outcome := script(attempt).outcome;
        calls := calls + 1;
        match outcome {
          case Returned(output) =>
            cb.RecordSuccess(req.skill);
            return Succeeded(output), calls, delays;
          case DeadlineExceeded =>
            cb.RecordFailure(req.skill, reportedAt);
            return TimedOut, calls, delays;
          case Errored(err) =>
            lastErr := Some(err);
        }
        attempt := attempt + 1;
      }
      cb.RecordFailure(req.skill, reportedAt);
      v := Exhausted(lastErr);
    }
  }
}
