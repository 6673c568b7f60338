/**
 The time bound that a configuration is accepted or refused by: 64-bit saturating
 arithmetic with an early exit, compared with the plain sum over the integers.
 */
module SetupBounds {

  import opened Basics

  const U32_MAX: nat := 0xFFFF_FFFF

  const BUDGET_SEC: nat := 900
  const CLONE_TIMEOUT_SEC: nat := 120
  const VERSION_CHECK_ATTEMPTS: nat := 2
  const VERSION_CHECK_TIMEOUT_SEC: nat := 30
  const VERSION_CHECK_RETRY_DELAY_SEC: nat := 1
  const GIT_VALIDATE_TIMEOUT_SEC: nat := 30
  const GIT_WRITE_TIMEOUT_SEC: nat := 30
  const MAX_BACKOFF_SEC: nat := 30

  function SatAdd(a: nat, b: nat): nat { Min(a + b, U64_MAX) }

  function SatMul(a: nat, b: nat): nat { Min(a * b, U64_MAX) }

  function Pow2(n: nat): nat { if n == 0 then 1 else 2 * Pow2(n - 1) }

  /** Sleep before the retry that follows `attempt`: 2, 4, 8 ... seconds, capped. */
  function Backoff(attempt: nat): nat
    requires attempt > 0
  {
    Min(2 * Pow2(attempt - 1), MAX_BACKOFF_SEC)
  }

  function BackoffSum(retries: nat): nat {
    if retries == 0 then 0 else BackoffSum(retries - 1) + Backoff(retries)
  }

  const VersionCheck: nat :=
    VERSION_CHECK_ATTEMPTS * VERSION_CHECK_TIMEOUT_SEC + (VERSION_CHECK_ATTEMPTS - 1) * VERSION_CHECK_RETRY_DELAY_SEC
  const GitOps: nat := 2 * (GIT_VALIDATE_TIMEOUT_SEC + GIT_WRITE_TIMEOUT_SEC)

  /** `setup_bounds_sec`. */
  function SetupBoundsSec(timeout: nat, retries: nat): nat {
    var attempts := retries + 1;
    var cloneFloor := SatMul(attempts, CLONE_TIMEOUT_SEC);
    if cloneFloor >= BUDGET_SEC then cloneFloor
    else
      var backoff := BackoffSum(retries);
      var ghRead := SatAdd(SatMul(attempts, timeout), backoff);
      var clone := SatAdd(SatMul(attempts, CLONE_TIMEOUT_SEC), backoff);
      SatAdd(SatAdd(SatAdd(VersionCheck, SatMul(ghRead, 2)), clone), GitOps)
  }

  /** The bound the documentation describes, over unbounded integers. */
  function TrueSum(timeout: nat, retries: nat): nat {
    var attempts := retries + 1;
    var backoff := BackoffSum(retries);
    VersionCheck + 2 * (attempts * timeout + backoff) + (attempts * CLONE_TIMEOUT_SEC + backoff) + GitOps
  }

  /** The same in plain numbers. */
  lemma TrueSumIs(timeout: nat, retries: nat)
    ensures TrueSum(timeout, retries) == 181 + 2 * ((retries + 1) * timeout) + 120 * (retries + 1) + 3 * BackoffSum(retries)
  {
  }

  predicate Refuses(timeout: nat, retries: nat) { SetupBoundsSec(timeout, retries) >= BUDGET_SEC }

  /** Below the early exit, saturation is the only thing between the two sums. */
  lemma SaturatedSum(timeout: nat, retries: nat)
    requires SatMul(retries + 1, CLONE_TIMEOUT_SEC) < BUDGET_SEC
    ensures SetupBoundsSec(timeout, retries) == Min(TrueSum(timeout, retries), U64_MAX)
  {
    var read := (retries + 1) * timeout;
    var backoff := BackoffSum(retries);
    var clone := (retries + 1) * CLONE_TIMEOUT_SEC;
    assert clone < BUDGET_SEC;
    Doubled(read, backoff);
    var gh := SatMul(SatAdd(SatMul(retries + 1, timeout), backoff), 2);
    assert gh == Min(2 * (read + backoff), U64_MAX);
    assert SatAdd(VersionCheck, gh) == Min(VersionCheck + 2 * (read + backoff), U64_MAX);
  }

  lemma Doubled(read: nat, backoff: nat)
    ensures SatMul(SatAdd(Min(read, U64_MAX), backoff), 2) == Min(2 * (read + backoff), U64_MAX)
  {
    assert SatAdd(Min(read, U64_MAX), backoff) == Min(read + backoff, U64_MAX);
  }

  /** Neither saturation nor the early exit changes a single decision. */
  lemma DecidesAsTheTrueSum(timeout: nat, retries: nat)
    requires timeout <= U64_MAX && retries <= U32_MAX
    ensures Refuses(timeout, retries) <==> TrueSum(timeout, retries) >= 900
  {
    if SatMul(retries + 1, CLONE_TIMEOUT_SEC) >= BUDGET_SEC {
      assert (retries + 1) * timeout >= 0;
    } else {
      SaturatedSum(timeout, retries);
    }
  }

  /** The sleeps in plain numbers: 2, 4, 8 and 16 seconds, and 30 for each retry after the fourth. */
  lemma {:induction false} BackoffSumIs(retries: nat)
    ensures BackoffSum(0) == 0 && BackoffSum(1) == 2 && BackoffSum(2) == 6 && BackoffSum(3) == 14
    ensures retries >= 4 ==> BackoffSum(retries) == 30 * (retries - 3)
  {
    assert Pow2(0) == 1 && Pow2(1) == 2 && Pow2(2) == 4 && Pow2(3) == 8;
    assert BackoffSum(1) == BackoffSum(0) + Backoff(1);
    assert BackoffSum(2) == BackoffSum(1) + Backoff(2);
    assert BackoffSum(3) == BackoffSum(2) + Backoff(3);
    assert BackoffSum(4) == BackoffSum(3) + Backoff(4);
    if retries > 4 {
      BackoffSumIs(retries - 1);
      DoublingsPass(retries - 1);
    }
  }

  lemma {:induction false} DoublingsPass(n: nat)
    requires n >= 4
    ensures Pow2(n) >= 16
  {
    if n > 4 {
      DoublingsPass(n - 1);
    } else {
      assert Pow2(0) == 1 && Pow2(1) == 2 && Pow2(2) == 4 && Pow2(3) == 8;
    }
  }

  lemma {:induction false} BackoffGrows(m: nat, n: nat)
    requires m <= n
    ensures BackoffSum(m) <= BackoffSum(n)
    decreases n
  {
    if m < n {
      BackoffGrows(m, n - 1);
    }
  }

  /** Raising either setting never turns a refused pair into an accepted one. */
  lemma RefusalIsMonotone(timeout: nat, retries: nat, timeout': nat, retries': nat)
    requires timeout <= timeout' <= U64_MAX && retries <= retries' <= U32_MAX
    requires Refuses(timeout, retries)
    ensures Refuses(timeout', retries')
  {
    DecidesAsTheTrueSum(timeout, retries);
    DecidesAsTheTrueSum(timeout', retries');
    BackoffGrows(retries, retries');
    ProductGrows(retries + 1, timeout, retries' + 1, timeout');
  }

  lemma ProductGrows(a: nat, b: nat, c: nat, d: nat)
    requires a <= c && b <= d
    ensures a * b <= c * d
  {
    assert a * b <= a * d <= c * d;
  }
}
