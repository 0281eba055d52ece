/** The arithmetic of `RetryPolicy` (pkg/consumer/consumer.go:120-157). Durations are whole
    nanoseconds (int), the multiplier is a real. */
module Backoff {

  datatype RetryPolicy = RetryPolicy(maxRetries: int, backoffBase: int, backoffMax: int, multiplier: real)

  /** 100 ms, 30 s, factor two, three retries. */
  const DEFAULT_POLICY := RetryPolicy(3, 100_000_000, 30_000_000_000, 2.0)

  function Pow(m: real, n: nat): real { if n == 0 then 1.0 else m * Pow(m, n - 1) }

  /** Go's conversion from float to integer drops the fraction. */
  function Truncate(x: real): int { if x >= 0.0 then x.Floor else -((-x).Floor) }

  function Ideal(p: RetryPolicy, attempt: nat): real { p.backoffBase as real * Pow(p.multiplier, attempt) }

  function Delay(p: RetryPolicy, attempt: int): int {
    if attempt <= 0 then p.backoffBase
    else if Ideal(p, attempt) > p.backoffMax as real then p.backoffMax
    else Truncate(Ideal(p, attempt))
  }

  lemma {:induction false} PowAdds(m: real, a: nat, b: nat)
    ensures Pow(m, 0) == 1.0 && Pow(m, 1) == m
    ensures Pow(m, a + b) == Pow(m, a) * Pow(m, b)
  {
    assert Pow(m, 1) == m * Pow(m, 0);
    if a > 0 {
      PowAdds(m, a - 1, b);
      Associate(m, Pow(m, a - 1), Pow(m, b));
    }
  }

  lemma Associate(x: real, y: real, z: real)
    ensures x * (y * z) == (x * y) * z
  {
  }

  /** Exponential backoff: retry 0 waits the base; retry a waits base times multiplier to the a, less
      at most the fraction of a nanosecond, or the cap where that exceeds it. */
  lemma DelayIsExponential(p: RetryPolicy, a: int)
    requires p.backoffBase >= 0 && p.multiplier >= 0.0
    ensures a <= 0 ==> Delay(p, a) == p.backoffBase
    ensures a > 0 ==>
              var exact := p.backoffBase as real * Pow(p.multiplier, a);
              if exact > p.backoffMax as real then Delay(p, a) == p.backoffMax
              else Delay(p, a) as real <= exact < Delay(p, a) as real + 1.0
  {
    if a > 0 {
      PowNotNegative(p.multiplier, a);
      ScaleMonotone(p.backoffBase as real, 0.0, Pow(p.multiplier, a));
    }
  }

  lemma {:induction false} PowNotNegative(m: real, n: nat)
    requires m >= 0.0
    ensures Pow(m, n) >= 0.0
  {
    if n > 0 {
      PowNotNegative(m, n - 1);
    }
  }

  /** The documented default: 100 ms, 200 ms, 400 ms, ..., capped at 30 s. */
  lemma DefaultDelays()
    ensures DEFAULT_POLICY.maxRetries == 3
    ensures Delay(DEFAULT_POLICY, 0) == 100_000_000
    ensures Delay(DEFAULT_POLICY, 1) == 200_000_000
    ensures Delay(DEFAULT_POLICY, 2) == 400_000_000
    ensures forall a: nat :: a >= 9 ==> Delay(DEFAULT_POLICY, a) == 30_000_000_000
  {
    assert Pow(2.0, 1) == 2.0 && Pow(2.0, 2) == 4.0;
    assert Pow(2.0, 3) == 8.0;
    assert Pow(2.0, 4) == 16.0;
    PowAdds(2.0, 4, 4);
    assert Pow(2.0, 9) == 2.0 * Pow(2.0, 8);
    forall a: nat | a >= 9 ensures Delay(DEFAULT_POLICY, a) == 30_000_000_000 {
      PowGrows(2.0, 9, a);
    }
  }

  predicate ShouldRetry(p: RetryPolicy, attempt: int) { attempt < p.maxRetries }

  lemma TruncateMonotone(x: real, y: real)
    requires x <= y
    ensures Truncate(x) <= Truncate(y)
  {
  }

  lemma TruncateBelowInt(x: real, n: int)
    requires x <= n as real
    ensures Truncate(x) <= n
  {
  }

  /** Every delay respects the cap exactly when the base does: attempt 0 returns the base unchecked. */
  lemma CapHoldsIffBaseBelowCap(p: RetryPolicy)
    ensures (forall a: int :: Delay(p, a) <= p.backoffMax) <==> p.backoffBase <= p.backoffMax
  {
    if p.backoffBase <= p.backoffMax {
      forall a: int ensures Delay(p, a) <= p.backoffMax {
        if a > 0 && Ideal(p, a) <= p.backoffMax as real {
          TruncateBelowInt(Ideal(p, a), p.backoffMax);
        }
      }
    } else {
      assert Delay(p, 0) > p.backoffMax;
    }
  }

  lemma {:induction false} PowGrows(m: real, a: nat, b: nat)
    requires m >= 1.0 && a <= b
    ensures 1.0 <= Pow(m, a) <= Pow(m, b)
    decreases b
  {
    if b > 0 {
      if a == b {
        PowGrows(m, a - 1, a - 1);
      } else {
        PowGrows(m, a, b - 1);
      }
      assert Pow(m, b - 1) <= m * Pow(m, b - 1);
    }
  }

  lemma IdealGrows(p: RetryPolicy, a: nat, b: nat)
    requires p.backoffBase >= 0 && p.multiplier >= 1.0 && a <= b
    ensures p.backoffBase as real <= Ideal(p, a) <= Ideal(p, b)
  {
    PowGrows(p.multiplier, a, b);
    ScaleMonotone(p.backoffBase as real, 1.0, Pow(p.multiplier, a));
    ScaleMonotone(p.backoffBase as real, Pow(p.multiplier, a), Pow(p.multiplier, b));
  }

  lemma ScaleMonotone(c: real, x: real, y: real)
    requires c >= 0.0 && x <= y
    ensures c * x <= c * y
  {
  }

  lemma DelayGrows(p: RetryPolicy, a: nat, b: nat)
    requires 0 <= p.backoffBase <= p.backoffMax && p.multiplier >= 1.0 && a <= b
    ensures Delay(p, a) <= Delay(p, b)
  {
    IdealGrows(p, a, b);
    TruncateMonotone(Ideal(p, a), Ideal(p, b));
    TruncateMonotone(p.backoffBase as real, Ideal(p, b));
    CapHoldsIffBaseBelowCap(p);
  }

  /** For a positive base within the cap, waits never shrink exactly when the multiplier is at least one. */
  lemma NonDecreasingIffMultiplierAtLeastOne(p: RetryPolicy)
    requires 0 < p.backoffBase <= p.backoffMax
    ensures (forall a: nat, b: nat :: a <= b ==> Delay(p, a) <= Delay(p, b)) <==> p.multiplier >= 1.0
  {
    if p.multiplier >= 1.0 {
      forall a: nat, b: nat | a <= b ensures Delay(p, a) <= Delay(p, b) {
        DelayGrows(p, a, b);
      }
    } else {
      var base := p.backoffBase as real;
      assert Pow(p.multiplier, 1) == p.multiplier * Pow(p.multiplier, 0) == p.multiplier;
      assert Ideal(p, 1) < base;
      assert Delay(p, 1) < Delay(p, 0);
    }
  }

  /** Once a wait is capped, all later ones are. */
  lemma StaysCapped(p: RetryPolicy, a: nat, b: nat)
    requires p.backoffBase >= 0 && p.multiplier >= 1.0 && 0 < a <= b
    requires Ideal(p, a) > p.backoffMax as real
    ensures Delay(p, a) == Delay(p, b) == p.backoffMax
  {
    IdealGrows(p, a, b);
  }

  /** Sum of the first k waits. */
  function TotalWait(p: RetryPolicy, k: nat): int {
    if k == 0 then 0 else TotalWait(p, k - 1) + Delay(p, k - 1)
  }

  lemma {:induction false} TotalWaitAtMostCapTimesCount(p: RetryPolicy, k: nat)
    requires p.backoffBase <= p.backoffMax
    ensures TotalWait(p, k) <= k * p.backoffMax
  {
    if k > 0 {
      TotalWaitAtMostCapTimesCount(p, k - 1);
      CapHoldsIffBaseBelowCap(p);
      assert k * p.backoffMax == (k - 1) * p.backoffMax + p.backoffMax;
    }
  }

  lemma DelayBelowIdeal(p: RetryPolicy, a: nat)
    requires p.backoffBase >= 0 && p.multiplier >= 1.0
    ensures Delay(p, a) as real <= Ideal(p, a)
  {
    IdealGrows(p, a, a);
  }

  function PowerSum(m: real, k: nat): real {
    if k == 0 then 0.0 else PowerSum(m, k - 1) + Pow(m, k - 1)
  }

  lemma {:induction false} GeometricSeries(m: real, k: nat)
    ensures (m - 1.0) * PowerSum(m, k) == Pow(m, k) - 1.0
  {
    if k > 0 {
      GeometricSeries(m, k - 1);
      Distribute(m - 1.0, PowerSum(m, k - 1), Pow(m, k - 1));
    }
  }

  lemma Distribute(c: real, x: real, y: real)
    ensures c * (x + y) == c * x + c * y
  {
  }

  ghost predicate Below(t: int, c: real, x: real) { t as real <= c * x }

  lemma AddBelow(c: real, t: int, d: int, x: real, y: real)
    requires Below(t, c, x) && Below(d, c, y)
    ensures Below(t + d, c, x + y)
  {
    Distribute(c, x, y);
  }

  lemma DelayBelowPower(p: RetryPolicy, a: nat)
    requires p.backoffBase >= 0 && p.multiplier >= 1.0
    ensures Below(Delay(p, a), p.backoffBase as real, Pow(p.multiplier, a))
  {
    DelayBelowIdeal(p, a);
  }

  lemma {:induction false} TotalWaitBelowPowerSum(p: RetryPolicy, k: nat)
    requires p.backoffBase >= 0 && p.multiplier >= 1.0
    ensures Below(TotalWait(p, k), p.backoffBase as real, PowerSum(p.multiplier, k))
  {
    if k > 0 {
      hide Below, Delay, Pow;
      TotalWaitBelowPowerSum(p, k - 1);
      DelayBelowPower(p, k - 1);
      AddBelow(p.backoffBase as real, TotalWait(p, k - 1), Delay(p, k - 1),
               PowerSum(p.multiplier, k - 1), Pow(p.multiplier, k - 1));
    }
  }

  /** The geometric bound on the whole wait: (m - 1) * total <= base * (m^k - 1). */
  lemma TotalWaitGeometric(p: RetryPolicy, k: nat)
    requires p.backoffBase >= 0 && p.multiplier >= 1.0
    ensures (p.multiplier - 1.0) * TotalWait(p, k) as real
            <= p.backoffBase as real * (Pow(p.multiplier, k) - 1.0)
  {
    hide Pow, TotalWait, PowerSum;
    var m, base, sum, total := p.multiplier, p.backoffBase as real, PowerSum(p.multiplier, k), TotalWait(p, k) as real;
    TotalWaitBelowPowerSum(p, k);
    GeometricSeries(m, k);
    ScaleMonotone(m - 1.0, total, base * sum);
    Regroup(m - 1.0, base, sum);
  }

  lemma Regroup(c: real, x: real, y: real)
    ensures c * (x * y) == x * (c * y)
  {
  }

  ghost predicate Above(t: int, c: real, x: real) { t as real >= c * x }

  lemma AddAbove(c: real, t: int, d: int, x: real, y: real)
    requires Above(t, c, x) && Above(d, c, y)
    ensures Above(t + d, c, x + y)
  {
    Distribute(c, x, y);
  }

  /** None of the first k waits is capped. */
  ghost predicate Uncapped(p: RetryPolicy, k: nat) {
    forall a: nat :: a < k ==> p.backoffBase as real * Pow(p.multiplier, a) <= p.backoffMax as real
  }

  lemma DelayAbovePower(p: RetryPolicy, a: nat)
    requires p.backoffBase >= 0 && p.multiplier >= 0.0
    requires p.backoffBase as real * Pow(p.multiplier, a) <= p.backoffMax as real
    ensures Above(Delay(p, a) + 1, p.backoffBase as real, Pow(p.multiplier, a))
  {
    DelayIsExponential(p, a);
    assert Pow(p.multiplier, 0) == 1.0;
  }

  lemma {:induction false} TotalWaitAbovePowerSum(p: RetryPolicy, k: nat)
    requires p.backoffBase >= 0 && p.multiplier >= 0.0 && Uncapped(p, k)
    ensures Above(TotalWait(p, k) + k, p.backoffBase as real, PowerSum(p.multiplier, k))
  {
    if k > 0 {
      DelayAbovePower(p, k - 1);
      hide Above, Delay, Pow;
      TotalWaitAbovePowerSum(p, k - 1);
      AddAbove(p.backoffBase as real, TotalWait(p, k - 1) + (k - 1), Delay(p, k - 1) + 1,
               PowerSum(p.multiplier, k - 1), Pow(p.multiplier, k - 1));
      assert TotalWait(p, k) + k == (TotalWait(p, k - 1) + (k - 1)) + (Delay(p, k - 1) + 1);
    }
  }

  /** And from below, while nothing is capped and but for the fractions cut off:
      (m - 1) * (total + k) >= base * (m^k - 1). */
  lemma TotalWaitGeometricBelow(p: RetryPolicy, k: nat)
    requires p.backoffBase >= 0 && p.multiplier >= 1.0 && Uncapped(p, k)
    ensures (p.multiplier - 1.0) * (TotalWait(p, k) + k) as real
            >= p.backoffBase as real * (Pow(p.multiplier, k) - 1.0)
  {
    hide Pow, TotalWait, PowerSum, Uncapped;
    var m, base, sum := p.multiplier, p.backoffBase as real, PowerSum(p.multiplier, k);
    var total := (TotalWait(p, k) + k) as real;
    TotalWaitAbovePowerSum(p, k);
    GeometricSeries(m, k);
    ScaleMonotone(m - 1.0, base * sum, total);
    Regroup(m - 1.0, base, sum);
  }
}
