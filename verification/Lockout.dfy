/**
 Login lockout.  Times are real seconds.  A failed check raises the count and
 locks the account for a delay that doubles from the fifth failure up to a
 ceiling; an attempt that arrives while the account is locked is turned away
 without a password check.
 */
module Lockout {

  import opened Basics

  const THRESHOLD: nat := 5
  const BASE_SEC: real := 2.0
  const CEILING_SEC: real := 900.0
  const EXPONENT_CAP: nat := 32
  const COUNT_MAX: nat := 0xFFFF_FFFF

  datatype Account = Account(failed: nat, lockedUntil: Option<real>)

  function Pow2(n: nat): (r: real)
    ensures r >= 1.0
  {
    if n == 0 then 1.0 else 2.0 * Pow2(n - 1)
  }

  function MinReal(a: real, b: real): real { if a <= b then a else b }

  function DelaySec(failed: nat): real {
    if failed < THRESHOLD then 0.0
    else
      var over := failed - THRESHOLD;
      MinReal(BASE_SEC * Pow2(if over < EXPONENT_CAP then over else EXPONENT_CAP), CEILING_SEC)
  }

  predicate IsLocked(lockedUntil: Option<real>, now: real) {
    lockedUntil.Some? && lockedUntil.value > 0.0 && now < lockedUntil.value
  }

  function NextLockUntil(failed: nat, now: real): real { now + DelaySec(failed) }

  function FailedOnce(a: Account, now: real): Account {
    var count := if a.failed < COUNT_MAX then a.failed + 1 else a.failed;
    Account(count, Some(NextLockUntil(count, now)))
  }

  /** The delay before any cap on the exponent. */
  function PlainDelay(failed: nat): real {
    if failed < THRESHOLD then 0.0 else MinReal(BASE_SEC * Pow2(failed - THRESHOLD), CEILING_SEC)
  }

  lemma {:induction false} Pow2Grows(m: nat, n: nat)
    requires m <= n
    ensures Pow2(m) <= Pow2(n)
    decreases n
  {
    if m < n {
      Pow2Grows(m, n - 1);
    }
  }

  lemma NineDoublings()
    ensures Pow2(9) == 512.0
  {
    assert Pow2(3) == 8.0;
    assert Pow2(6) == 64.0;
  }

  /** Nine doublings already reach the ceiling, so capping the exponent at 32 changes nothing. */
  lemma ExponentCapIsInvisible(failed: nat)
    ensures DelaySec(failed) == PlainDelay(failed)
  {
    if failed >= THRESHOLD + EXPONENT_CAP {
      NineDoublings();
      Pow2Grows(9, EXPONENT_CAP);
      Pow2Grows(9, failed - THRESHOLD);
    }
  }

  lemma DelayIsMonotoneAndBounded(m: nat, n: nat)
    requires m <= n
    ensures 0.0 <= DelaySec(m) <= DelaySec(n) <= CEILING_SEC
  {
    ExponentCapIsInvisible(m);
    ExponentCapIsInvisible(n);
    if m >= THRESHOLD {
      Pow2Grows(m - THRESHOLD, n - THRESHOLD);
    }
  }

  /** Four failures are free, the fifth costs two seconds, and each one after that doubles the delay up to the ceiling. */
  lemma DelaysDouble(failed: nat)
    ensures failed < 5 ==> DelaySec(failed) == 0.0
    ensures DelaySec(5) == 2.0
    ensures failed >= 5 ==> DelaySec(failed + 1) == if 2.0 * DelaySec(failed) <= 900.0 then 2.0 * DelaySec(failed) else 900.0
  {
    assert Pow2(0) == 1.0;
    ExponentCapIsInvisible(failed);
    ExponentCapIsInvisible(failed + 1);
    if failed >= 5 {
      assert Pow2(failed + 1 - THRESHOLD) == 2.0 * Pow2(failed - THRESHOLD);
    }
  }

  // ---------------------------------------------------------------- whole runs

  /** The account after wrong-password attempts at these times, and the times at which a password was checked. */
  function Attacked(a: Account, times: seq<real>): (Account, seq<real>) {
    if times == [] then (a, [])
    else
      var n := |times| - 1;
      var (b, checks) := Attacked(a, times[..n]);
      if IsLocked(b.lockedUntil, times[n]) then (b, checks) else (FailedOnce(b, times[n]), checks + [times[n]])
  }

  lemma OneMoreAttempt(a: Account, times: seq<real>, now: real)
    ensures var (b, checks) := Attacked(a, times);
      Attacked(a, times + [now]) == if IsLocked(b.lockedUntil, now) then (b, checks) else (FailedOnce(b, now), checks + [now])
  {
    assert (times + [now])[..|times|] == times;
  }

  predicate Ordered(times: seq<real>) {
    && (forall i :: 0 <= i < |times| ==> times[i] >= 0.0)
    && forall i, j :: 0 <= i < j < |times| ==> times[i] <= times[j]
  }

  /** The delays that the first `m` failures since a reset impose. */
  function DelaySum(m: nat): real {
    if m == 0 then 0.0 else DelaySum(m - 1) + DelaySec(m)
  }

  /** All the delays up to failure `m` in plain numbers: two seconds doubling until the ceiling, then fifteen minutes each. */
  lemma {:induction false} WaitInTotal(m: nat)
    ensures m < 5 ==> DelaySum(m) == 0.0
    ensures 5 <= m <= 13 ==> DelaySum(m) == 2.0 * (Pow2(m - 4) - 1.0)
    ensures m >= 13 ==> DelaySum(m) == 1022.0 + 900.0 * (m - 13) as real
  {
    NineDoublings();
    assert Pow2(1) == 2.0;
    if m > 0 {
      WaitInTotal(m - 1);
      ExponentCapIsInvisible(m);
    }
    if 5 <= m {
      assert Pow2(m - 4) == 2.0 * Pow2(m - 5);
      if m <= 13 {
        Pow2Grows(m - 5, 8);
        assert Pow2(9) == 2.0 * Pow2(8);
      } else {
        Pow2Grows(9, m - 5);
      }
    }
  }

  lemma {:induction false} AfterChecks(times: seq<real>)
    requires Ordered(times)
    ensures var (a, checks) := Attacked(Account(0, None), times);
            && |checks| <= |times|
            && a.failed == Min(|checks|, COUNT_MAX)
            && (checks == [] ==> a.lockedUntil.None?)
            && (checks != [] ==> a.lockedUntil == Some(checks[|checks| - 1] + DelaySec(a.failed))
                                 && 0.0 <= checks[|checks| - 1] <= times[|times| - 1])
            && forall k :: 0 < k < |checks| ==> checks[k] >= checks[k - 1] + DelaySec(Min(k, COUNT_MAX))
  {
    if times != [] {
      var n := |times| - 1;
      AfterChecks(times[..n]);
      var (b, checks) := Attacked(Account(0, None), times[..n]);
      DelayIsMonotoneAndBounded(0, b.failed);
      if checks != [] && !IsLocked(b.lockedUntil, times[n]) {
        assert times[n] >= checks[|checks| - 1] by {
          assert times[..n][n - 1] <= times[n];
        }
        assert times[n] >= checks[|checks| - 1] + DelaySec(b.failed);
      }
    }
  }

  /** An attempt gets its password checked exactly when the delay of the checks before it has passed since the last one. */
  lemma CheckedOnceTheDelayHasPassed(times: seq<real>, now: real)
    requires Ordered(times + [now])
    ensures var checks := Attacked(Account(0, None), times).1;
            var after := Attacked(Account(0, None), times + [now]).1;
            var waited := checks == [] || now >= checks[|checks| - 1] + DelaySec(|checks|);
            after == if waited then checks + [now] else checks
  {
    assert forall i :: 0 <= i < |times| ==> (times + [now])[i] == times[i];
    assert (times + [now])[|times|] == now;
    AfterChecks(times);
    OneMoreAttempt(Account(0, None), times, now);
    var checks := Attacked(Account(0, None), times).1;
    CountCeilingIsInvisible(|checks|);
  }

  lemma CountCeilingIsInvisible(k: nat)
    ensures DelaySec(Min(k, COUNT_MAX)) == DelaySec(k)
  {
    if k > COUNT_MAX {
      ExponentCapIsInvisible(k);
    }
  }

  /**
   The rate limit over a whole run: counting from a reset, the check number `m`
   comes no earlier than the first one plus all the delays in between, however
   the attempts are spread over time.
   */
  lemma {:induction false} ChecksAreSpacedOut(times: seq<real>, m: nat)
    requires Ordered(times)
    requires m < |Attacked(Account(0, None), times).1|
    ensures var checks := Attacked(Account(0, None), times).1;
            checks[m] >= checks[0] + DelaySum(m)
    decreases m
  {
    if m > 0 {
      ChecksAreSpacedOut(times, m - 1);
      AfterChecks(times);
      CountCeilingIsInvisible(m);
    }
  }
}
