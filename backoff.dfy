/** Retry strategies: a retrier calls an operation until it returns or
    fails with an error that is not transient, counting the attempts and
    sleeping between them. The four retriers of the program are one class
    here, told apart by a `Policy`; the operation is a function from the
    attempt number (0, 1, ...) to what that attempt does, and `sleep` is
    recorded rather than performed. */
module Backoff {
  import opened Wrappers

  /** An exception class, compared by identity. */
  datatype Exc = Exc(name: string)

  /** What one call of the operation does. */
  datatype Outcome = Returns(value: int) | Raises(error: Exc)

  /** What `run` does: return a value, raise, or fall out of its loop
      without a single attempt and return `None`. */
  datatype RunResult = Returned(value: int) | Raised(error: Exc) | ReturnedNone

  /** `Retrier`, `CountingRetrier`, `SleepingRetrier` and
      `ExponentialBackoffRetrier`. */
  datatype Policy = Plain | Counting | Sleeping | Exponential(base: real := 1.0, ceiling: nat := 7)

  predicate Sleeps(p: Policy) {
    p.Sleeping? || p.Exponential?
  }

  function Min(a: int, b: int): int {
    if a <= b then a else b
  }

  function Max(a: int, b: int): int {
    if a >= b then a else b
  }

  function Pow2(n: nat): (p: nat)
    ensures p >= 1
  {
    if n == 0 then 1 else 2 * Pow2(n - 1)
  }

  lemma {:induction false} Pow2Monotone(a: nat, b: nat)
    requires a <= b
    ensures Pow2(a) <= Pow2(b)
    decreases b
  {
    if a < b {
      Pow2Monotone(a, b - 1);
    }
  }

  /** `ExponentialBackoffRetrier._compute_delay` with its fuzz fixed at 0:
      `base * (2 ** min(tries, ceiling) - 1)`. */
  function Delay(base: real, ceiling: nat, tries: nat): (r: real)
    ensures tries == 0 || ceiling == 0 ==> r == 0.0
    ensures base >= 0.0 ==> r >= 0.0
    ensures base >= 0.0 && tries >= 1 && ceiling >= 1 ==> r >= base
  {
    DelayScale(base, Min(tries, ceiling));
    base * ((Pow2(Min(tries, ceiling)) - 1) as real)
  }

  lemma DelayScale(base: real, m: nat)
    ensures base >= 0.0 ==> base * ((Pow2(m) - 1) as real) >= 0.0
    ensures base >= 0.0 && m >= 1 ==> base * ((Pow2(m) - 1) as real) >= base
  {
    if base >= 0.0 {
      Pow2Monotone(if m >= 1 then 1 else 0, m);
      ScaleMonotone(base, if m >= 1 then 1 else 0, Pow2(m) - 1);
    }
  }

  lemma ScaleMonotone(base: real, x: int, y: int)
    requires base >= 0.0 && x <= y
    ensures base * (x as real) <= base * (y as real)
  {
  }

  /** The delay never shrinks as the failures mount. */
  lemma DelayMonotone(base: real, ceiling: nat, k1: nat, k2: nat)
    requires base >= 0.0 && k1 <= k2
    ensures Delay(base, ceiling, k1) <= Delay(base, ceiling, k2)
  {
    var e1 := base * ((Pow2(Min(k1, ceiling)) - 1) as real);
    var e2 := base * ((Pow2(Min(k2, ceiling)) - 1) as real);
    ScaledPow2Monotone(base, Min(k1, ceiling), Min(k2, ceiling));
    assert e1 <= e2;
    DelayIs(base, ceiling, k1);
    assert Delay(base, ceiling, k1) == e1;
    DelayIs(base, ceiling, k2);
    assert Delay(base, ceiling, k2) == e2;
  }

  lemma DelayIs(base: real, ceiling: nat, k: nat)
    ensures Delay(base, ceiling, k) == base * ((Pow2(Min(k, ceiling)) - 1) as real)
  {
  }

  lemma ScaledPow2Monotone(base: real, m1: nat, m2: nat)
    requires base >= 0.0 && m1 <= m2
    ensures base * ((Pow2(m1) - 1) as real) <= base * ((Pow2(m2) - 1) as real)
  {
    Pow2Monotone(m1, m2);
    ScaleMonotone(base, Pow2(m1) - 1, Pow2(m2) - 1);
  }

  /** The delay is capped at `base * (2 ** ceiling - 1)` and reaches the cap
      once the failures reach the ceiling. */
  lemma DelayCapped(base: real, ceiling: nat, k: nat)
    requires base >= 0.0
    ensures Delay(base, ceiling, k) <= base * ((Pow2(ceiling) - 1) as real)
    ensures k >= ceiling ==> Delay(base, ceiling, k) == base * ((Pow2(ceiling) - 1) as real)
  {
    if k < ceiling {
      DelayMonotone(base, ceiling, k, ceiling);
      DelayAtCeiling(base, ceiling, ceiling);
    } else {
      DelayAtCeiling(base, ceiling, k);
    }
  }

  lemma DelayAtCeiling(base: real, ceiling: nat, k: nat)
    requires k >= ceiling
    ensures Delay(base, ceiling, k) == base * ((Pow2(ceiling) - 1) as real)
  {
    assert Min(k, ceiling) == ceiling;
  }

  /** After the first failure the delay is `base` itself (for a positive
      ceiling), and it doubles plus `base` with each further failure below
      the ceiling. */
  lemma DelayGrowth(base: real, ceiling: nat, k: nat)
    requires 1 <= k < ceiling
    ensures Delay(base, ceiling, 1) == base
    ensures Delay(base, ceiling, k + 1) == 2.0 * Delay(base, ceiling, k) + base
  {
  }

  /** The delay before the next attempt once `tries` failures are counted. */
  function DelayFor(p: Policy, tries: nat): real
    requires Sleeps(p)
  {
    if p.Sleeping? then 1.0 else Delay(p.base, p.ceiling, tries)
  }

  /** The delays slept through `n` retries, in order. */
  function Schedule(p: Policy, n: nat): (s: seq<real>)
    ensures Sleeps(p) ==> |s| == n && forall i :: 0 <= i < n ==> s[i] == DelayFor(p, i + 1)
    ensures !Sleeps(p) ==> s == []
  {
    if !Sleeps(p) || n == 0 then [] else Schedule(p, n - 1) + [DelayFor(p, n)]
  }

  /** An attempt that ends the run whatever the limit: it returned, or its
      error is not transient. */
  predicate Settles(o: Outcome, es: set<Exc>) {
    o.Returns? || o.error !in es
  }

  function ResultOf(o: Outcome): RunResult {
    match o
    case Returns(v) => Returned(v)
    case Raises(e) => Raised(e)
  }

  /** The run of `op` under an attempt limit (`None`: unlimited) made
      `calls` calls and ended with `r`: every call but the last failed
      transiently; the last one settled or used up the limit; and a limit
      of zero or less makes no call at all and returns `None`. */
  predicate RunsAs(op: nat -> Outcome, es: set<Exc>, limit: Option<int>, r: RunResult, calls: nat) {
    (forall j: nat :: j + 1 < calls ==> !Settles(op(j), es)) &&
    (calls == 0 <==> limit.Some? && limit.value <= 0) &&
    (limit.Some? ==> calls <= Max(limit.value, 0)) &&
    (calls == 0 ==> r == ReturnedNone) &&
    (calls > 0 ==>
       r == ResultOf(op(calls - 1)) &&
       (Settles(op(calls - 1), es) || (limit.Some? && calls == limit.value)))
  }

  /** The description of a run is complete: one run per operation and
      limit. */
  lemma RunsAsUnique(op: nat -> Outcome, es: set<Exc>, limit: Option<int>,
                     r1: RunResult, c1: nat, r2: RunResult, c2: nat)
    requires RunsAs(op, es, limit, r1, c1) && RunsAs(op, es, limit, r2, c2)
    ensures r1 == r2 && c1 == c2
  {
  }

  /** Without a limit a retrier never gives up: the run ends at the first
      call that settles, so a transient error never escapes. */
  lemma UnlimitedNeverGivesUp(op: nat -> Outcome, es: set<Exc>, r: RunResult, calls: nat)
    requires RunsAs(op, es, None, r, calls)
    ensures calls > 0 && Settles(op(calls - 1), es)
    ensures r.Raised? ==> r.error !in es
    ensures r == ResultOf(op(calls - 1))
  {
  }

  /** An error that is not transient propagates from the very call that
      raised it. */
  lemma PermanentErrorStops(op: nat -> Outcome, es: set<Exc>, limit: Option<int>, r: RunResult, calls: nat, j: nat)
    requires RunsAs(op, es, limit, r, calls)
    requires j < calls && op(j).Raises? && op(j).error !in es
    ensures calls == j + 1 && r == Raised(op(j).error)
  {
  }

  /** A stateful retry strategy. `tries` is the counter of the counting
      retriers; `sleeps` records every delay passed to `sleep`. */
  class Retrier {
    const policy: Policy
    const exceptionSet: set<Exc>
    const maxTries: Option<int>
    var tries: nat
    var sleeps: seq<real>

    constructor (policy: Policy, exceptionSet: set<Exc>, maxTries: Option<int> := Some(10))
      ensures this.policy == policy && this.exceptionSet == exceptionSet && this.maxTries == maxTries
      ensures tries == 0 && sleeps == []
    {
      this.policy := policy;
      this.exceptionSet := exceptionSet;
      this.maxTries := maxTries;
      tries := 0;
      sleeps := [];
    }

    /** The attempt limit: the plain retrier has none. */
    function Limit(): Option<int> {
      if policy.Plain? then None else maxTries
    }

    /** `_should_proceed`. */
    predicate ShouldProceed()
      reads this
    {
      Limit().None? || tries < Limit().value
    }

    /** `_should_retry`: the error is one of the transient ones. */
    predicate ShouldRetry(e: Exc) {
      e in exceptionSet
    }

    /** `_compute_delay`. */
    function ComputeDelay(): real
      reads this
      requires Sleeps(policy)
    {
      DelayFor(policy, tries)
    }

    /** `_before_retry`: count the failure, and sleep when another attempt
        will follow. */
    method BeforeRetry()
      modifies this
      ensures tries == if policy.Plain? then old(tries) else old(tries) + 1
      ensures sleeps == old(sleeps) + (if Sleeps(policy) && ShouldProceed() then [DelayFor(policy, tries)] else [])
    {
      if !policy.Plain? {
        tries := tries + 1;
      }
      if Sleeps(policy) && ShouldProceed() {
        sleeps := sleeps + [ComputeDelay()];
      }
    }

    /** `run`: repeat `op` until it returns or fails for good. An unlimited
        retrier is only called on operations that settle at some attempt
        (otherwise it would loop for ever). */
    method Run(op: nat -> Outcome) returns (r: RunResult, calls: nat)
      requires Limit().None? ==> exists j: nat :: Settles(op(j), exceptionSet)
      modifies this
      ensures RunsAs(op, exceptionSet, Limit(), r, calls)
      ensures sleeps == old(sleeps) + Schedule(policy, Max(calls - 1, 0))
      ensures policy.Plain? ==> tries == old(tries)
      ensures !policy.Plain? ==>
                tries == if calls > 0 && !Settles(op(calls - 1), exceptionSet) then calls else Max(calls - 1, 0)
    {
      if !policy.Plain? {
        tries := 0;
      }
      ghost var bound: nat := 0;
      if Limit().None? {
        bound :| Settles(op(bound), exceptionSet);
      }
      calls := 0;
      while ShouldProceed()
        invariant !policy.Plain? ==> tries == calls
        invariant policy.Plain? ==> tries == old(tries)
        invariant forall j: nat :: j < calls ==> !Settles(op(j), exceptionSet)
        invariant sleeps == old(sleeps) + Schedule(policy, calls)
        invariant Limit().None? ==> calls <= bound
        invariant calls > 0 ==> ShouldProceed()
        decreases (if Limit().None? then bound else Max(Limit().value, 0)) - calls
      {
        var outcome := op(calls);
        calls := calls + 1;
        match outcome {
          case Returns(v) =>
            r := Returned(v);
            return;
          case Raises(e) =>
            if ShouldRetry(e) {
              BeforeRetry();
              if ShouldProceed() {
                continue;
              }
            }
            r := Raised(e);
            return;
        }
      }
      r := ReturnedNone;
    }
  }

  /** The operation `Testing.requires_k_attempts(k, exc)` builds, as a
      function of the attempt number: it raises while its attempt counter is
      at most `k` and then returns `(p + q) * scale_factor`. */
  function KAttemptsOp(k: int, exc: Exc, value: int): nat -> Outcome {
    j => if j <= k then Raises(exc) else Returns(value)
  }

  /** The closure itself, with its `nonlocal attempts` counter. */
  class KAttempts {
    const k: int
    const exc: Exc
    var attempts: nat

    constructor (k: int, exc: Exc)
      ensures this.k == k && this.exc == exc && attempts == 0
    {
      this.k := k;
      this.exc := exc;
      attempts := 0;
    }

    method Call(p: int, q: int, scaleFactor: int) returns (o: Outcome)
      modifies this
      ensures o == KAttemptsOp(k, exc, (p + q) * scaleFactor)(old(attempts))
      ensures attempts == old(attempts) + 1
    {
      if attempts <= k {
        o := Raises(exc);
      } else {
        o := Returns((p + q) * scaleFactor);
      }
      attempts := attempts + 1;
    }
  }

  /** `requires_k_attempts(k)` fails `k + 1` times, not `k - 1`: a counting
      retrier allowing `maxTries` attempts gets the value exactly when
      `maxTries >= k + 2`, after `min(maxTries, k + 2)` calls. */
  lemma KAttemptsRun(k: int, exc: Exc, value: int, maxTries: int, r: RunResult, calls: nat)
    requires maxTries >= 1
    requires RunsAs(KAttemptsOp(k, exc, value), {exc}, Some(maxTries), r, calls)
    ensures calls == Min(maxTries, Max(k + 2, 1))
    ensures r == if maxTries >= k + 2 then Returned(value) else Raised(exc)
  {
    var op := KAttemptsOp(k, exc, value);
    var need := Max(k + 2, 1);
    assert op(need - 1) == Returns(value);
    assert op(calls - 1) == if calls - 1 <= k then Raises(exc) else Returns(value);
  }
}
