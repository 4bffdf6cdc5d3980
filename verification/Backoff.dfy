/** Exponential backoff: the closed form, the doubling loops, and the retries paced by them. Delays are reals. */
module Backoff {
  import opened Common

  function Min(a: real, b: real): real {
    if b < a then b else a
  }

  function Power(m: real, n: nat): real {
    if n == 0 then 1.0 else m * Power(m, n - 1)
  }

  // ---- The closed form ----

  function Scaled(base: real, m: real, n: nat): real {
    base * Power(m, n)
  }

  datatype BackoffError = NegativeBase | MaxBelowBase | NegativeAttempt | MultiplierNotPositive

  function Deterministic(base: real, attempt: int, max: real): Result<real, BackoffError> {
    if base < 0.0 then Err(NegativeBase)
    else if max < base then Err(MaxBelowBase)
    else if attempt < 0 then Err(NegativeAttempt)
    else Ok(Min(Scaled(base, 2.0, attempt), max))
  }

  datatype PolicyFields = Policy(base: real, max: real, multiplier: real, jitter: bool)

  /** What the policy's constructor lets through. */
  type BackoffPolicy = p: PolicyFields | 0.0 <= p.base <= p.max && p.multiplier > 0.0 witness Policy(5.0, 300.0, 2.0, true)

  function NewPolicy(base: real, max: real, multiplier: real, jitter: bool): Result<BackoffPolicy, BackoffError> {
    if base < 0.0 then Err(NegativeBase)
    else if max < base then Err(MaxBelowBase)
    else if multiplier <= 0.0 then Err(MultiplierNotPositive)
    else Ok(Policy(base, max, multiplier, jitter))
  }

  /** Arguments are refused in a fixed order, the first fault found; a policy's likewise. */
  lemma RefusedIff(base: real, attempt: int, max: real, multiplier: real, jitter: bool)
    ensures Deterministic(base, attempt, max).Ok? <==> 0.0 <= base <= max && attempt >= 0
    ensures NewPolicy(base, max, multiplier, jitter).Ok? <==> 0.0 <= base <= max && multiplier > 0.0
    ensures base < 0.0 ==> Deterministic(base, attempt, max) == Err(NegativeBase)
    ensures 0.0 <= base && max < base ==> Deterministic(base, attempt, max) == Err(MaxBelowBase)
    ensures 0.0 <= base <= max && attempt < 0 ==> Deterministic(base, attempt, max) == Err(NegativeAttempt)
  {
  }

  lemma {:induction false} PowerIsPositive(m: real, n: nat)
    requires m > 0.0
    ensures Power(m, n) > 0.0
    ensures m >= 1.0 ==> Power(m, n) >= 1.0
  {
    if n > 0 {
      PowerIsPositive(m, n - 1);
    }
  }

  /** Attempts are counted from zero, but the policy, unlike the function, does not refuse a negative one. */
  function Capped(p: BackoffPolicy, attempt: int): real {
    if attempt >= 0 then Min(Scaled(p.base, p.multiplier, attempt), p.max)
    else
      PowerIsPositive(p.multiplier, -attempt);
      Min(p.base / Power(p.multiplier, -attempt), p.max)
  }

  /** With jitter any delay from zero to the capped one may come out. */
  predicate MayDelay(p: BackoffPolicy, attempt: int, delay: real) {
    if p.jitter then 0.0 <= delay <= Capped(p, attempt) else delay == Capped(p, attempt)
  }

  /** Where in its range a random delay falls. */
  type Share = s: real | 0.0 <= s <= 1.0

  method DelayForAttempt(p: BackoffPolicy, attempt: int, draw: Share) returns (delay: real)
    ensures MayDelay(p, attempt, delay)
  {
    CappedIsBounded(p, attempt);
    var capped := Capped(p, attempt);
    if p.jitter {
      Product(capped, draw);
      Product(capped, 1.0 - draw);
      delay := draw * capped;
    } else {
      delay := capped;
    }
  }

  lemma CappedIsBounded(p: BackoffPolicy, attempt: int)
    ensures 0.0 <= Capped(p, attempt) <= p.max
  {
    if attempt >= 0 {
      PowerIsPositive(p.multiplier, attempt);
      Product(p.base, Power(p.multiplier, attempt));
    } else {
      PowerIsPositive(p.multiplier, -attempt);
      Quotient(p.base, Power(p.multiplier, -attempt));
    }
  }

  /** Whatever the jitter, a policy never waits longer than its maximum, and never a negative time. */
  lemma DelaysAreBounded(p: BackoffPolicy, attempt: int, delay: real)
    requires MayDelay(p, attempt, delay)
    ensures 0.0 <= delay <= p.max
  {
    CappedIsBounded(p, attempt);
  }

  lemma Quotient(base: real, divisor: real)
    requires base >= 0.0 && divisor > 0.0
    ensures base / divisor >= 0.0
  {
  }

  /** Attempts further on wait no less when the multiplier is at least one. */
  lemma CapGrows(p: BackoffPolicy, attempt: nat)
    requires p.multiplier >= 1.0
    ensures Capped(p, attempt) <= Capped(p, attempt + 1)
  {
    ScaledNext(p.base, p.multiplier, attempt);
    ScaledBound(p.base, p.multiplier, attempt);
    Product(Scaled(p.base, p.multiplier, attempt), p.multiplier - 1.0);
  }

  // ---- The doubling loop ----

  /** The delay that the loop has reached after i doublings. */
  function Doubled(base: real, max: real, i: nat): real {
    if i == 0 then base else Min(Doubled(base, max, i - 1) * 2.0, max)
  }

  function DoubledList(base: real, max: real, n: nat): seq<real> {
    seq(n, i requires 0 <= i < n => Doubled(base, max, i))
  }

  method BuildDatabaseStartupRetryDelays(attempts: int, base: real, max: real) returns (delays: seq<real>)
    ensures delays == DoubledList(base, max, if attempts < 0 then 0 else attempts)
  {
    delays := [];
    var current := base;
    var i := 0;
    while i < attempts
      invariant 0 <= i && (attempts >= 0 ==> i <= attempts) && (attempts < 0 ==> i == 0)
      invariant current == Doubled(base, max, i)
      invariant delays == DoubledList(base, max, i)
    {
      delays := delays + [current];
      current := Min(current * 2.0, max);
      i := i + 1;
    }
  }

  lemma ScaledNext(base: real, m: real, n: nat)
    ensures Scaled(base, m, n + 1) == Scaled(base, m, n) * m
    ensures Scaled(base, m, 0) == base
  {
    var power := Power(m, n);
    assert base * (m * power) == base * power * m;
  }

  lemma ScaledBound(base: real, m: real, n: nat)
    requires m >= 1.0
    ensures base >= 0.0 ==> Scaled(base, m, n) >= base
    ensures base <= 0.0 ==> Scaled(base, m, n) <= base
  {
    PowerIsPositive(m, n);
    Product(base, Power(m, n) - 1.0);
  }

  lemma Product(base: real, factor: real)
    requires factor >= 0.0
    ensures base >= 0.0 ==> base * factor >= 0.0
    ensures base <= 0.0 ==> base * factor <= 0.0
  {
  }

  lemma {:induction false} DoubledIsClosedForm(base: real, max: real, i: nat)
    requires base <= max
    ensures Doubled(base, max, i) == Min(Scaled(base, 2.0, i), max)
  {
    if i == 0 {
      ScaledNext(base, 2.0, 0);
    } else {
      DoubledIsClosedForm(base, max, i - 1);
      ScaledNext(base, 2.0, i - 1);
      ScaledBound(base, 2.0, i - 1);
    }
  }

  /** The loop computes the closed form at every attempt exactly when the cap is not below the first delay. */
  lemma DoubledIsClosedFormIff(base: real, max: real)
    ensures (forall i: nat :: Doubled(base, max, i) == Min(Scaled(base, 2.0, i), max)) <==> base <= max
  {
    if base <= max {
      forall i: nat ensures Doubled(base, max, i) == Min(Scaled(base, 2.0, i), max) {
        DoubledIsClosedForm(base, max, i);
      }
    } else {
      ScaledNext(base, 2.0, 0);
      assert Doubled(base, max, 0) != Min(Scaled(base, 2.0, 0), max);
    }
  }

  /** Where they are defined the three ways to a delay agree: loop, function, and policy without jitter. */
  lemma {:induction false} DelaysAgree(base: real, max: real, i: nat, delay: real)
    requires 0.0 <= base <= max
    ensures Deterministic(base, i, max) == Ok(Doubled(base, max, i))
    ensures NewPolicy(base, max, 2.0, false).Ok?
    ensures MayDelay(NewPolicy(base, max, 2.0, false).value, i, delay) <==> delay == Doubled(base, max, i)
  {
    DoubledIsClosedForm(base, max, i);
    assert Capped(Policy(base, max, 2.0, false), i) == Doubled(base, max, i);
  }

  function Sum(delays: seq<real>): real {
    if delays == [] then 0.0 else Sum(delays[..|delays| - 1]) + Last(delays)
  }

  /** All waiting together: at most the cap each time, and at most the uncapped geometric sum. */
  lemma {:induction false} TotalDelayIsBounded(base: real, max: real, n: nat)
    requires 0.0 <= base <= max
    ensures 0.0 <= Sum(DoubledList(base, max, n)) <= n as real * max
    ensures Sum(DoubledList(base, max, n)) <= Scaled(base, 2.0, n) - base
  {
    if n > 0 {
      TotalDelayIsBounded(base, max, n - 1);
      assert DoubledList(base, max, n)[..n - 1] == DoubledList(base, max, n - 1);
      DoubledIsClosedForm(base, max, n - 1);
      ScaledNext(base, 2.0, n - 1);
      ScaledBound(base, 2.0, n - 1);
      assert n as real * max == (n - 1) as real * max + max;
    } else {
      ScaledNext(base, 2.0, 0);
    }
  }

  // ---- Retries ----

  /** Database failures by class, with whether the driver says that the connection was lost. */
  datatype DatabaseError =
    | IntegrityError(invalidated: bool)
    | OperationalError(invalidated: bool)
    | InterfaceError(invalidated: bool)
    | OtherDriverError(invalidated: bool)
    | DisconnectionError
    | TimeoutError
    | OtherError(text: string)

  predicate IsRetryable(e: DatabaseError) {
    if e.IntegrityError? then false
    else if e.OtherDriverError? && e.invalidated then true
    else e.DisconnectionError? || e.InterfaceError? || e.OperationalError? || e.TimeoutError?
  }

  /** Trouble with the server or the way to it, or a connection lost, may pass. */
  predicate MayPass(e: DatabaseError) {
    e.OperationalError? || e.InterfaceError? || e.DisconnectionError? || e.TimeoutError? || e == OtherDriverError(true)
  }

  /** A violated constraint, even if the connection was lost with it, and any other error will not. */
  predicate WillNotPass(e: DatabaseError) {
    e.IntegrityError? || e == OtherDriverError(false) || e.OtherError?
  }

  datatype RetryError = InvalidArgument(reason: BackoffError) | NoAttempts | Failure(error: DatabaseError)

  /** The first call that is not retried: it returned, it failed for good, or no attempt is left. */
  ghost predicate IsLastCall<T>(outcome: nat -> Result<T, DatabaseError>, attempts: int, n: nat) {
    && 1 <= n <= attempts
    && (forall i :: 1 <= i < n ==> outcome(i).Err? && IsRetryable(outcome(i).error))
    && (n == attempts || outcome(n).Ok? || !IsRetryable(outcome(n).error))
  }

  function Settled<T>(outcome: Result<T, DatabaseError>): Result<T, RetryError> {
    match outcome
    case Ok(value) => Ok(value)
    case Err(e) => Err(Failure(e))
  }

  /** outcome(n) is what the n-th call of the operation does. The results include the calls made and the time slept before
      each repetition. */
  method RetryDatabaseOperation<T>(outcome: nat -> Result<T, DatabaseError>, attempts: int, base: real, max: real)
    returns (r: Result<T, RetryError>, calls: nat, sleeps: seq<real>)
    ensures attempts < 1 ==> r == Err(NoAttempts) && calls == 0
    ensures attempts >= 1 && base < 0.0 ==> r == Err(InvalidArgument(NegativeBase)) && calls == 0
    ensures attempts >= 1 && 0.0 <= base && max < base ==> r == Err(InvalidArgument(MaxBelowBase)) && calls == 0
    ensures attempts >= 1 && 0.0 <= base <= max ==> IsLastCall(outcome, attempts, calls) && r == Settled(outcome(calls))
    ensures sleeps == DoubledList(base, max, if calls == 0 then 0 else calls - 1)
    ensures forall i :: 1 <= i < calls ==> outcome(i).Err? && MayPass(outcome(i).error)
    ensures calls > 0 ==> match outcome(calls)
      case Ok(value) => r == Ok(value)
      case Err(e) => r == Err(Failure(e))
    ensures 0 < calls < attempts && r.Err? ==> r.error.Failure? && WillNotPass(r.error.error)
  {
    calls, sleeps := 0, [];
    if attempts < 1 {
      return Err(NoAttempts), calls, sleeps;
    }
    if base < 0.0 {
      return Err(InvalidArgument(NegativeBase)), calls, sleeps;
    }
    if max < base {
      return Err(InvalidArgument(MaxBelowBase)), calls, sleeps;
    }
    var delay := base;
    for attempt := 1 to attempts + 1
      invariant calls == attempt - 1
      invariant calls < attempts
      invariant forall i :: 1 <= i < attempt ==> outcome(i).Err? && IsRetryable(outcome(i).error)
      invariant delay == Doubled(base, max, calls)
      invariant sleeps == DoubledList(base, max, calls)
    {
      calls := attempt;
      match outcome(attempt)
      case Ok(value) =>
        return Ok(value), calls, sleeps;
      case Err(e) =>
        if attempt >= attempts || !IsRetryable(e) {
          return Err(Failure(e)), calls, sleeps;
        }
        sleeps := sleeps + [delay];
        delay := Min(delay * 2.0, max);
    }
    assert false;
  }

  /** connects(n) says whether the n-th connection attempt succeeds. */
  method InitializeDatabaseEngine(connects: nat -> bool, attempts: nat, base: real, max: real)
    returns (connected: bool, calls: nat, sleeps: seq<real>)
    ensures 1 <= calls <= attempts + 1
    ensures forall i :: 1 <= i < calls ==> !connects(i)
    ensures connected == connects(calls)
    ensures connected || calls == attempts + 1
    ensures sleeps == DoubledList(base, max, calls - 1)
  {
    var delays := BuildDatabaseStartupRetryDelays(attempts, base, max);
    calls, sleeps := 0, [];
    var waits := [0.0] + delays;
    for i := 0 to |waits|
      invariant calls == i && calls <= attempts
      invariant sleeps == DoubledList(base, max, if calls == 0 then 0 else calls - 1)
      invariant forall j :: 1 <= j <= calls ==> !connects(j)
    {
      calls := i + 1;
      if calls > 1 {
        sleeps := sleeps + [waits[i]];
      }
      if connects(calls) {
        return true, calls, sleeps;
      }
      if calls == |delays| + 1 {
        return false, calls, sleeps;
      }
    }
    assert false;
  }
}
