/** The two exponential back-off schedules of the program: the agent graph doubles a delay
    in place and caps it, the skill engine evaluates a closed form. */
module Backoff {

  import opened Wrappers

  function Pow2(n: nat): (p: int)
    ensures p >= 1
  {
    if n == 0 then 1 else 2 * Pow2(n - 1)
  }

  function Min(a: int, b: int): int {
    if a <= b then a else b
  }

  /** Closed form: the delay before retry k, counting from one. */
  function ClosedDelay(base: int, max: int, k: nat): int
    requires k >= 1
  {
    Min(base * Pow2(k - 1), max)
  }

  /** The delay variable of the doubling loop before retry k. */
  function DoubledDelay(base: int, max: int, k: nat): int
    requires k >= 1
  {
    if k == 1 then base else Min(2 * DoubledDelay(base, max, k - 1), max)
  }

  // ----- Powers without products -----

  /** base * 2^n, one doubling at a time. */
  function Scaled(base: int, n: nat): int {
    if n == 0 then base else 2 * Scaled(base, n - 1)
  }

  lemma TwiceAsMuch(base: int, p: int)
    ensures base * (2 * p) == 2 * (base * p)
  {
  }

  lemma {:induction false} ScaledIsProduct(base: int, n: nat)
    ensures base * Pow2(n) == Scaled(base, n)
  {
    if n > 0 {
      ScaledIsProduct(base, n - 1);
      TwiceAsMuch(base, Pow2(n - 1));
    }
  }

  lemma {:induction false} ClosedDelayIsScaled(base: int, max: int, k: nat)
    requires k >= 1
    ensures ClosedDelay(base, max, k) == Min(Scaled(base, k - 1), max)
  {
    ScaledIsProduct(base, k - 1);
  }

  lemma {:induction false} ScaledGrows(base: int, n: nat)
    ensures base >= 0 ==> Scaled(base, n) >= base
    ensures base <= 0 ==> Scaled(base, n) <= base
  {
    if n > 0 {
      ScaledGrows(base, n - 1);
    }
  }

  // ----- The two schedules -----

  lemma {:induction false} DoublingIsScaled(base: int, max: int, k: nat)
    requires k >= 1
    requires base <= max
    ensures DoubledDelay(base, max, k) == Min(Scaled(base, k - 1), max)
  {
    if k > 1 {
      DoublingIsScaled(base, max, k - 1);
      ScaledGrows(base, k - 2);
    }
  }

  lemma {:induction false} DoublingFollowsClosedForm(base: int, max: int, k: nat)
    requires k >= 1
    requires base <= max
    ensures DoubledDelay(base, max, k) == ClosedDelay(base, max, k)
  {
    DoublingIsScaled(base, max, k);
    ClosedDelayIsScaled(base, max, k);
  }

  /** The schedules agree at every retry exactly when the base does not exceed the cap: the doubling
      loop never caps its first delay. */
  lemma SchedulesAgreeExactly(base: int, max: int)
    ensures (forall k: nat | k >= 1 :: DoubledDelay(base, max, k) == ClosedDelay(base, max, k)) <==> base <= max
  {
    if base <= max {
      forall k: nat | k >= 1 ensures DoubledDelay(base, max, k) == ClosedDelay(base, max, k) {
        DoublingFollowsClosedForm(base, max, k);
      }
    } else {
      assert DoubledDelay(base, max, 1) != ClosedDelay(base, max, 1);
    }
  }

  lemma {:induction false} ScaledNeverDecreases(base: int, j: nat, k: nat)
    requires j <= k && base >= 0
    ensures 0 <= Scaled(base, j) <= Scaled(base, k)
    decreases k - j
  {
    if j < k {
      ScaledNeverDecreases(base, j, k - 1);
    } else {
      ScaledGrows(base, k);
    }
  }

  lemma {:induction false} DelaysNeverDecrease(base: int, max: int, j: nat, k: nat)
    requires 1 <= j <= k
    requires base >= 0
    ensures ClosedDelay(base, max, j) <= ClosedDelay(base, max, k) <= max
    ensures max >= 0 ==> ClosedDelay(base, max, j) >= 0
  {
    ClosedDelayIsScaled(base, max, j);
    ClosedDelayIsScaled(base, max, k);
    ScaledNeverDecreases(base, j - 1, k - 1);
  }

  /** The time n retries sleep in all. */
  function TotalDelay(base: int, max: int, n: nat): int {
    if n == 0 then 0 else TotalDelay(base, max, n - 1) + ClosedDelay(base, max, n)
  }

  lemma {:induction false} TotalDelayBound(base: int, max: int, n: nat)
    requires base >= 0 && max >= 0
    ensures 0 <= TotalDelay(base, max, n) <= n * max
  {
    if n > 0 {
      TotalDelayBound(base, max, n - 1);
      DelaysNeverDecrease(base, max, n, n);
      OneMore(n, max);
    }
  }

  lemma OneMore(n: int, max: int)
    ensures n * max == (n - 1) * max + max
  {
  }

  /** The delays before retries 1, 2, ... */
  predicate IsSchedule(base: int, max: int, delays: seq<int>) {
    forall k | 0 <= k < |delays| :: delays[k] == ClosedDelay(base, max, k + 1)
  }

  function Sum(delays: seq<int>): int {
    if delays == [] then 0 else Sum(delays[..|delays| - 1]) + delays[|delays| - 1]
  }

  lemma {:induction false} ScheduleSum(base: int, max: int, delays: seq<int>)
    requires IsSchedule(base, max, delays)
    ensures Sum(delays) == TotalDelay(base, max, |delays|)
  {
    if delays != [] {
      ScheduleSum(base, max, delays[..|delays| - 1]);
    }
  }

  // ----- The doubling loop itself -----

  datatype RetryConfig = RetryConfig(attempts: int, base: int, max: int)

  /** `Gave(None)` is the outcome of a loop that never called its function: a zero value and no error. */
  datatype RetryResult<+T> = Got(value: T) | Gave(lastErr: Option<string>) | CancelledBefore | CancelledAfter(err: string)

  /** Attempts 0..i all failed and no wait after them was cut short. */
  predicate AllRetried<T>(fn: nat -> Attempt<T>, cancelled: nat -> bool, i: nat) {
    forall j: nat | j < i :: fn(j).Bad? && !cancelled(j)
  }

  /** What a retry loop must return, told without a loop: the first success before any cancellation,
      the cancellation if that comes first, else the last error. */
  ghost predicate IsRetryResult<T>(cfg: RetryConfig, already: bool, fn: nat -> Attempt<T>, cancelled: nat -> bool, r: RetryResult<T>)
  {
    match r
    case CancelledBefore => already
    case Got(v) => !already && exists i: nat | i < cfg.attempts :: AllRetried(fn, cancelled, i) && fn(i) == Good(v)
    case CancelledAfter(e) => !already && exists i: nat | i < cfg.attempts - 1 :: AllRetried(fn, cancelled, i) && fn(i) == Bad(e) && cancelled(i)
    case Gave(None) => !already && cfg.attempts <= 0
    case Gave(Some(e)) => !already && cfg.attempts >= 1 && AllRetried(fn, cancelled, cfg.attempts - 1) && fn(cfg.attempts - 1) == Bad(e)
  }

  /** That description leaves no choice. */
  lemma RetryResultIsUnique<T>(cfg: RetryConfig, already: bool, fn: nat -> Attempt<T>, cancelled: nat -> bool, r1: RetryResult<T>, r2: RetryResult<T>)
    requires IsRetryResult(cfg, already, fn, cancelled, r1)
    requires IsRetryResult(cfg, already, fn, cancelled, r2)
    ensures r1 == r2
  {
    if r1.Got? {
      var i: nat :| i < cfg.attempts && AllRetried(fn, cancelled, i) && fn(i) == Good(r1.value);
      if r2.Got? {
        var j: nat :| j < cfg.attempts && AllRetried(fn, cancelled, j) && fn(j) == Good(r2.value);
        assert i == j;
      }
    } else if r1.CancelledAfter? && r2.CancelledAfter? {
      var i: nat :| i < cfg.attempts - 1 && AllRetried(fn, cancelled, i) && fn(i) == Bad(r1.err) && cancelled(i);
      var j: nat :| j < cfg.attempts - 1 && AllRetried(fn, cancelled, j) && fn(j) == Bad(r2.err) && cancelled(j);
      assert i == j;
    }
  }

  /** `fn(i)` is the i-th call, `cancelled(i)` tells whether the context ends during the wait after it. */
  method RetryFn<T>(cfg: RetryConfig, already: bool, fn: nat -> Attempt<T>, cancelled: nat -> bool)
    returns (r: RetryResult<T>, delays: seq<int>)
    ensures IsRetryResult(cfg, already, fn, cancelled, r)
    ensures forall k | 0 <= k < |delays| :: delays[k] == DoubledDelay(cfg.base, cfg.max, k + 1)
    ensures r.Got? ==> |delays| < cfg.attempts && fn(|delays|) == Good(r.value)
    ensures r.Gave? ==> |delays| == if cfg.attempts <= 0 then 0 else cfg.attempts - 1
    ensures r.CancelledAfter? ==> |delays| < cfg.attempts - 1 && AllRetried(fn, cancelled, |delays|) && fn(|delays|) == Bad(r.err) && cancelled(|delays|)
    ensures r.CancelledBefore? <==> already
    ensures r.CancelledBefore? ==> delays == []
    ensures r.Got? ==> forall j: nat | j < |delays| :: fn(j).Bad?
    ensures r.Gave? ==> r.lastErr == if cfg.attempts <= 0 || fn(cfg.attempts - 1).Good? then None else Some(fn(cfg.attempts - 1).err)
    ensures !already && cfg.attempts >= 1 && fn(0).Good? ==> r == Got(fn(0).value)
  {
    delays := [];
    if already {
      return CancelledBefore, delays;
    }
    var delay := cfg.base;
    var lastErr := None;
    var i := 0;
    while i < cfg.attempts
      invariant 0 <= i && (i <= cfg.attempts || i == 0)
      invariant AllRetried(fn, cancelled, if i < cfg.attempts || i == 0 then i else i - 1)
      invariant i == 0 ==> lastErr == None
      invariant i > 0 ==> lastErr.Some? && fn(i - 1) == Bad(lastErr.value)
      invariant |delays| == if i < cfg.attempts || i == 0 then i else i - 1
      invariant i < cfg.attempts ==> delay == DoubledDelay(cfg.base, cfg.max, i + 1)
      invariant forall k | 0 <= k < |delays| :: delays[k] == DoubledDelay(cfg.base, cfg.max, k + 1)
    {
      var outcome := fn(i);
      if outcome.Good? {
        return Got(outcome.value), delays;
      }
      lastErr := Some(outcome.err);
      if i < cfg.attempts - 1 {
        if cancelled(i) {
          return CancelledAfter(outcome.err), delays;
        }
        delays := delays + [delay];
        delay := delay * 2;
        if delay > cfg.max {
          delay := cfg.max;
        }
      }
      i := i + 1;
    }
    r := Gave(lastErr);
  }
}
