/**
 The capped exponential backoff between the attempts of one check: the waits the
 machine arithmetic really produces, the waits they are meant to be, and exactly
 when the two are the same.
 */
module Backoff {
  import opened Arithmetic
  import opened Float64
  import Int64

  datatype RetryConfig = RetryConfig(maxAttempts: int, initialWait: int, maxWait: int, multiplier: Float)

  /** What configuration validation guarantees: note that a NaN multiplier is not below 1. */
  predicate Accepted(c: RetryConfig) {
    && c.maxAttempts >= 1
    && c.initialWait > 0
    && c.maxWait >= c.initialWait
    && !Less(c.multiplier, Finite(1.0))
  }

  /** In plain numbers: with NaN and positive infinity, what validation should have refused as well. */
  lemma AcceptedExactly(c: RetryConfig)
    ensures Accepted(c) <==>
            && 1 <= c.maxAttempts && 1 <= c.initialWait <= c.maxWait
            && (c.multiplier.NaN? || c.multiplier.PosInf? || (c.multiplier.Finite? && c.multiplier.r >= 1.0))
  {
  }

  /** Both waits are Go durations. */
  predicate Representable(c: RetryConfig) {
    Int64.Fits(c.initialWait) && Int64.Fits(c.maxWait)
  }

  function Min(a: int, b: int): int { if a < b then a else b }

  /** The wait after `w`, as the program computes it. */
  function Next(p: Platform, c: RetryConfig, w: int): int {
    Min(ToInt64(p, Times(p, w, c.multiplier)), c.maxWait)
  }

  /** The wait after attempt `k + 1`, as the program computes it. */
  function Wait(p: Platform, c: RetryConfig, k: nat): int {
    if k == 0 then c.initialWait else Next(p, c, Wait(p, c, k - 1))
  }

  /** What a wait `w` grows to if the product can be converted, before it is capped. */
  function Grown(p: Platform, c: RetryConfig, w: int): int
    requires c.multiplier.Finite?
  {
    Truncate(Product(p, w, c.multiplier.r))
  }

  /** The same wait if every product could be converted. */
  function IdealWait(p: Platform, c: RetryConfig, k: nat): int
    requires c.multiplier.Finite?
  {
    if k == 0 then c.initialWait else Min(Grown(p, c, IdealWait(p, c, k - 1)), c.maxWait)
  }

  /** The exponential the waits approximate. */
  function Exponential(c: RetryConfig, k: nat): real
    requires c.multiplier.Finite?
  {
    if k == 0 then c.initialWait as real else Scale(Exponential(c, k - 1), c.multiplier.r)
  }

  /** The sum of the first `n` ideal waits. */
  function IdealTotal(p: Platform, c: RetryConfig, n: nat): int
    requires c.multiplier.Finite?
  {
    if n == 0 then 0 else IdealTotal(p, c, n - 1) + IdealWait(p, c, n - 1)
  }

  /** How long `time.After(w)` takes: a wait that is not positive is over at once. */
  function Elapsed(w: int): nat { if w > 0 then w else 0 }

  /** The time the first `n` waits the program computes really take. */
  function Total(p: Platform, c: RetryConfig, n: nat): nat {
    if n == 0 then 0 else Total(p, c, n - 1) + Elapsed(Wait(p, c, n - 1))
  }

  // ---------------------------------------------------------------------------
  // Multiplication: all the arithmetic the rest relies on.

  lemma GrownMonotone(p: Platform, c: RetryConfig, v: int, w: int)
    requires Accepted(c) && c.multiplier.Finite? && p.Rounds() && 0 <= v <= w
    ensures 0 <= Grown(p, c, v) <= Grown(p, c, w)
  {
    var x, y, r := p.round(v as real), p.round(w as real), c.multiplier.r;
    assert p.round(0.0) <= x <= y;
    assert 0.0 <= x * r;
    assert (y - x) * r >= 0.0;
  }

  /** Without rounding a larger wait grows by more. */
  lemma ExactGrowth(p: Platform, c: RetryConfig, v: int, w: int)
    requires Accepted(c) && c.multiplier.Finite? && p.Exact() && 0 <= v <= w
    ensures 0 <= Grown(p, c, v) - v <= Grown(p, c, w) - w
    ensures Grown(p, c, w) as real <= Scale(w as real, c.multiplier.r)
  {
    var r := c.multiplier.r;
    assert (r - 1.0) * v as real >= 0.0;
    assert (r - 1.0) * (w - v) as real >= 0.0;
    assert w as real * r - v as real * r == (w - v) as real * r;
  }

  lemma ScaleMonotone(x: real, y: real, c: RetryConfig)
    requires Accepted(c) && c.multiplier.Finite? && x <= y
    ensures Scale(x, c.multiplier.r) <= Scale(y, c.multiplier.r)
  {
    assert (y - x) * c.multiplier.r >= 0.0;
  }

  lemma NextIsGrown(p: Platform, c: RetryConfig, w: int)
    ensures Next(p, c, w)
            == Min(if c.multiplier.Finite? && Int64.Fits(Grown(p, c, w)) then Grown(p, c, w) else p.unspecified, c.maxWait)
  {
  }

  // ---------------------------------------------------------------------------
  // The ideal waits.

  /**
   The first product does not fall below the initial wait. A multiplier of at least 1 sees to
   that unless the initial wait is so large that `float64` rounds it down.
   */
  predicate Steady(p: Platform, c: RetryConfig)
    requires c.multiplier.Finite?
  {
    Grown(p, c, c.initialWait) >= c.initialWait
  }

  /** An initial wait that is a `float64`, as every whole number up to 2^53 is, is steady. */
  lemma RepresentableIsSteady(p: Platform, c: RetryConfig)
    requires Accepted(c) && c.multiplier.Finite? && p.Rounds()
    requires p.round(c.initialWait as real) == c.initialWait as real
    ensures Steady(p, c)
  {
    var x := c.initialWait as real;
    assert (c.multiplier.r - 1.0) * x >= 0.0;
    assert x * c.multiplier.r >= x;
    assert p.round(x * c.multiplier.r) >= p.round(x);
  }

  lemma ExactIsSteady(p: Platform, c: RetryConfig)
    requires Accepted(c) && c.multiplier.Finite? && p.Exact()
    ensures p.Rounds() && Steady(p, c)
  {
    RepresentableIsSteady(p, c);
  }

  /** Waits start at the initial wait, never shrink, never pass the cap and stay at it once there. */
  lemma {:induction false} IdealWaitBounded(p: Platform, c: RetryConfig, k: nat)
    requires Accepted(c) && c.multiplier.Finite? && p.Rounds() && Steady(p, c)
    ensures c.initialWait <= IdealWait(p, c, k) <= IdealWait(p, c, k + 1) <= c.maxWait
    ensures IdealWait(p, c, k) == c.maxWait ==> IdealWait(p, c, k + 1) == c.maxWait
  {
    hide Platform.Rounds, Platform.Exact, Grown, Next;
    if k > 0 {
      IdealWaitBounded(p, c, k - 1);
      GrownMonotone(p, c, IdealWait(p, c, k - 1), IdealWait(p, c, k));
    }
  }

  /** Without rounding, waits never outgrow the exponential they approximate. */
  lemma {:induction false} IdealWaitBelowExponential(p: Platform, c: RetryConfig, k: nat)
    requires Accepted(c) && c.multiplier.Finite? && p.Exact()
    ensures IdealWait(p, c, k) as real <= Exponential(c, k)
  {
    hide Platform.Rounds, Platform.Exact, Grown, Next, Scale, Steady;
    if k > 0 {
      var w := IdealWait(p, c, k - 1);
      ExactIsSteady(p, c);
      IdealWaitBounded(p, c, k - 1);
      IdealWaitBelowExponential(p, c, k - 1);
      ExactGrowth(p, c, w, w);
      ScaleMonotone(w as real, Exponential(c, k - 1), c);
    }
  }

  /** `n` waits add up to between `n` initial waits and `n` maximal ones. */
  lemma {:induction false} IdealTotalBounded(p: Platform, c: RetryConfig, n: nat)
    requires Accepted(c) && c.multiplier.Finite? && p.Rounds() && Steady(p, c)
    ensures n * c.initialWait <= IdealTotal(p, c, n) <= n * c.maxWait
  {
    hide Platform.Rounds, Platform.Exact, Grown, Next, IdealWait, Steady;
    if n > 0 {
      IdealTotalBounded(p, c, n - 1);
      IdealWaitBounded(p, c, n - 1);
      DistributeOne(n - 1, c.initialWait);
      DistributeOne(n - 1, c.maxWait);
    }
  }

  // ---------------------------------------------------------------------------
  // When the program computes them.

  /** The product formed after ideal wait `k` does not fit. */
  predicate OverflowsAt(p: Platform, c: RetryConfig, k: nat)
    requires c.multiplier.Finite?
  {
    !Int64.Fits(Grown(p, c, IdealWait(p, c, k)))
  }

  /**
   No product behind a wait that is slept through leaves the `int64` range. The loop sleeps after
   every attempt but the last, so waits 0 to `maxAttempts - 2`; the products behind them start from
   waits 0 to `maxAttempts - 3`, and the last of them is the largest.
   */
  predicate SleepsWithoutOverflow(p: Platform, c: RetryConfig) {
    c.maxAttempts <= 2 || (c.multiplier.Finite? && !OverflowsAt(p, c, c.maxAttempts - 3))
  }

  /** Before the first overflow the program computes the ideal waits. */
  lemma {:induction false} AgreesBefore(p: Platform, c: RetryConfig, k: nat)
    requires Accepted(c) && c.multiplier.Finite?
    requires forall j: nat :: j < k ==> !OverflowsAt(p, c, j)
    ensures Wait(p, c, k) == IdealWait(p, c, k)
  {
    hide Platform.Rounds, Platform.Exact, Grown, Next;
    if k > 0 {
      AgreesBefore(p, c, k - 1);
      assert !OverflowsAt(p, c, k - 1);
      NextIsGrown(p, c, IdealWait(p, c, k - 1));
    }
  }

  lemma FirstOverflow(p: Platform, c: RetryConfig, k: nat) returns (first: nat)
    requires c.multiplier.Finite? && OverflowsAt(p, c, k)
    ensures first <= k && OverflowsAt(p, c, first)
    ensures forall j: nat :: j < first ==> !OverflowsAt(p, c, j)
  {
    hide Platform.Rounds, Platform.Exact, Grown, Next, IdealWait;
    first := 0;
    while !OverflowsAt(p, c, first)
      invariant first <= k
      invariant forall j: nat :: j < first ==> !OverflowsAt(p, c, j)
      decreases k - first
    {
      first := first + 1;
    }
  }

  lemma OverflowIsLarge(p: Platform, c: RetryConfig, k: nat)
    requires Accepted(c) && c.multiplier.Finite? && p.Rounds() && Steady(p, c)
    ensures OverflowsAt(p, c, k) <==> Grown(p, c, IdealWait(p, c, k)) > Int64.MAX
  {
    hide Platform.Rounds, Platform.Exact, Grown, Next, IdealWait, Steady;
    IdealWaitBounded(p, c, k);
    GrownMonotone(p, c, 0, IdealWait(p, c, k));
  }

  /** At the first overflow the ideal wait jumps to the cap and the program's to the unspecified value. */
  lemma AfterFirstOverflow(p: Platform, c: RetryConfig, first: nat)
    requires Accepted(c) && Representable(c) && c.multiplier.Finite? && p.Rounds() && Steady(p, c)
    requires OverflowsAt(p, c, first) && forall j: nat :: j < first ==> !OverflowsAt(p, c, j)
    ensures Wait(p, c, first + 1) == Min(p.unspecified, c.maxWait)
    ensures IdealWait(p, c, first + 1) == c.maxWait
  {
    hide Platform.Rounds, Platform.Exact, Grown, Next, Steady;
    AgreesBefore(p, c, first);
    OverflowIsLarge(p, c, first);
    NextIsGrown(p, c, IdealWait(p, c, first));
  }

  /** With an unspecified value at or above the cap, an overflow is harmless. */
  lemma {:induction false} AgreesWhenClampedHigh(p: Platform, c: RetryConfig, k: nat)
    requires Accepted(c) && Representable(c) && c.multiplier.Finite? && p.Rounds() && Steady(p, c)
    requires p.unspecified >= c.maxWait
    ensures Wait(p, c, k) == IdealWait(p, c, k)
  {
    hide Platform.Rounds, Platform.Exact, Grown, Next, Steady;
    if k > 0 {
      AgreesWhenClampedHigh(p, c, k - 1);
      OverflowIsLarge(p, c, k - 1);
      NextIsGrown(p, c, IdealWait(p, c, k - 1));
    }
  }

  /** Once a product overflows, all later ones do. */
  lemma {:induction false} OverflowPersists(p: Platform, c: RetryConfig, j: nat, k: nat)
    requires Accepted(c) && c.multiplier.Finite? && p.Rounds() && Steady(p, c)
    requires j <= k && OverflowsAt(p, c, j)
    ensures OverflowsAt(p, c, k)
  {
    hide Platform.Rounds, Platform.Exact, Grown, Next, IdealWait, Steady, OverflowsAt;
    if j < k {
      OverflowPersists(p, c, j, k - 1);
      IdealWaitBounded(p, c, k - 1);
      GrownMonotone(p, c, IdealWait(p, c, k - 1), IdealWait(p, c, k));
      OverflowIsLarge(p, c, k - 1);
      OverflowIsLarge(p, c, k);
    }
  }

  lemma SleptWaitIsIdeal(p: Platform, c: RetryConfig, k: nat)
    requires Accepted(c) && c.multiplier.Finite? && p.Rounds() && Steady(p, c)
    requires SleepsWithoutOverflow(p, c) && k < c.maxAttempts - 1
    ensures Wait(p, c, k) == IdealWait(p, c, k)
  {
    hide Platform.Rounds, Platform.Exact, Wait, IdealWait, OverflowsAt, Steady;
    forall j: nat | j < k ensures !OverflowsAt(p, c, j) {
      if OverflowsAt(p, c, j) {
        OverflowPersists(p, c, j, c.maxAttempts - 3);
      }
    }
    AgreesBefore(p, c, k);
  }

  /** An overflow before the last sleep makes some slept wait the unspecified value, where the cap was meant. */
  lemma SleptWaitIsUnspecified(p: Platform, c: RetryConfig) returns (k: nat)
    requires Accepted(c) && Representable(c) && c.multiplier.Finite? && p.Rounds() && Steady(p, c)
    requires !SleepsWithoutOverflow(p, c)
    ensures k < c.maxAttempts - 1
    ensures Wait(p, c, k) == Min(p.unspecified, c.maxWait) && IdealWait(p, c, k) == c.maxWait
  {
    hide Platform.Rounds, Platform.Exact, Wait, IdealWait, OverflowsAt, Steady;
    var first := FirstOverflow(p, c, c.maxAttempts - 3);
    AfterFirstOverflow(p, c, first);
    k := first + 1;
  }

  /** The waits the program sleeps are the ideal ones in exactly these cases. */
  lemma SleptWaitsAreIdealExactly(p: Platform, c: RetryConfig)
    requires Accepted(c) && Representable(c) && c.multiplier.Finite? && p.Rounds() && Steady(p, c)
    ensures (forall k: nat :: k < c.maxAttempts - 1 ==> Wait(p, c, k) == IdealWait(p, c, k))
       <==> SleepsWithoutOverflow(p, c) || p.unspecified >= c.maxWait
  {
    hide Platform.Rounds, Platform.Exact, Wait, IdealWait, SleepsWithoutOverflow, Steady;
    if SleepsWithoutOverflow(p, c) {
      forall k: nat | k < c.maxAttempts - 1 ensures Wait(p, c, k) == IdealWait(p, c, k) {
        SleptWaitIsIdeal(p, c, k);
      }
    } else if p.unspecified >= c.maxWait {
      forall k: nat ensures Wait(p, c, k) == IdealWait(p, c, k) {
        AgreesWhenClampedHigh(p, c, k);
      }
    } else {
      var k := SleptWaitIsUnspecified(p, c);
    }
  }

  // ---------------------------------------------------------------------------
  // How the waits grow.

  /** `v` is `x` without its fraction. */
  predicate IsIntegerPart(v: int, x: real) {
    if x >= 0.0 then v as real <= x < v as real + 1.0 else v as real - 1.0 < x <= v as real
  }

  lemma TruncateIsIntegerPart(x: real)
    ensures IsIntegerPart(Truncate(x), x)
    ensures forall v: int :: IsIntegerPart(v, x) ==> v == Truncate(x)
  {
  }

  /**
   Every wait comes from the one before it, here as the `float64` value `f`: its product `y` with
   the multiplier, rounded to `x`, the integer part, the cap. A product out of the `int64` range,
   or one that is no number, leaves what the platform makes of it, capped as well.
   */
  lemma WaitFollowsProduct(p: Platform, c: RetryConfig, k: nat, f: real, y: real, x: real)
    requires Accepted(c) && f == p.round(Wait(p, c, k) as real) && x == p.round(y)
    requires c.multiplier.Finite? ==> y == f * c.multiplier.r
    ensures Wait(p, c, 0) == c.initialWait
    ensures var v := Wait(p, c, k + 1);
            if c.multiplier.Finite? && -0x8000_0000_0000_0001 as real < x < 0x8000_0000_0000_0000 as real then
              (v == c.maxWait && x >= v as real) || (v < c.maxWait && IsIntegerPart(v, x))
            else v == if p.unspecified < c.maxWait then p.unspecified else c.maxWait
  {
    FirstWaits(p, c);
    hide Truncate, IsIntegerPart, Wait, Product, Next;
    NextWait(p, c, k);
    if c.multiplier.Finite? {
      ProductIs(p, Wait(p, c, k), c.multiplier.r, f, y, x);
      NextIsIntegerPart(p, c, Wait(p, c, k), x);
    } else {
      NextIsGrown(p, c, Wait(p, c, k));
    }
  }

  lemma ProductIs(p: Platform, w: int, r: real, f: real, y: real, x: real)
    requires f == p.round(w as real) && y == f * r && x == p.round(y)
    ensures Product(p, w, r) == x
  {
    assert Scale(f, r) == f * r;
  }

  /** One step of the waits, with the product `x` spelled out. */
  lemma NextIsIntegerPart(p: Platform, c: RetryConfig, w: int, x: real)
    requires Accepted(c) && c.multiplier.Finite? && x == Product(p, w, c.multiplier.r)
    ensures var v := Next(p, c, w);
            if -0x8000_0000_0000_0001 as real < x < 0x8000_0000_0000_0000 as real then
              (v == c.maxWait && x >= v as real) || (v < c.maxWait && IsIntegerPart(v, x))
            else v == if p.unspecified < c.maxWait then p.unspecified else c.maxWait
  {
    hide Product, Truncate, IsIntegerPart, Next;
    NextIsGrown(p, c, w);
    TruncateIsIntegerPart(x);
    IntegerPartRange(Truncate(x), x, c.maxWait);
  }

  lemma NextWait(p: Platform, c: RetryConfig, k: nat)
    ensures Wait(p, c, k + 1) == Next(p, c, Wait(p, c, k))
  {
  }

  lemma IntegerPartRange(v: int, x: real, bound: int)
    requires IsIntegerPart(v, x)
    ensures v >= bound > 0 ==> x >= bound as real
    ensures Int64.Fits(v) <==> -0x8000_0000_0000_0001 as real < x < 0x8000_0000_0000_0000 as real
  {
  }

  /** Without rounding each ideal wait is the one before it times the multiplier, less than a nanosecond short, or the cap. */
  lemma IdealWaitFollowsMultiplier(p: Platform, c: RetryConfig, k: nat)
    requires Accepted(c) && c.multiplier.Finite? && p.Exact()
    ensures var w, v := IdealWait(p, c, k), IdealWait(p, c, k + 1);
            || (v == c.maxWait && v as real <= w as real * c.multiplier.r)
            || w as real * c.multiplier.r - 1.0 < v as real <= w as real * c.multiplier.r
  {
    hide Platform.Rounds, Platform.Exact, Grown, Steady;
    ExactIsSteady(p, c);
    IdealWaitBounded(p, c, k);
    ExactlyGrown(p, c, IdealWait(p, c, k));
  }

  lemma ExactlyGrown(p: Platform, c: RetryConfig, w: int)
    requires Accepted(c) && c.multiplier.Finite? && p.Exact() && w >= 0
    ensures Grown(p, c, w) as real <= w as real * c.multiplier.r < Grown(p, c, w) as real + 1.0
  {
    assert w as real * c.multiplier.r >= 0.0;
  }

  function Power(m: nat, k: nat): nat { if k == 0 then 1 else m * Power(m, k - 1) }

  /**
   A whole multiplier, such as the default of 2, makes the waits a geometric sequence up to the
   cap: 1s, 2s, 4s, 8s, 10s, 10s.
   */
  lemma {:induction false} WholeMultiplierIsGeometric(p: Platform, c: RetryConfig, m: nat, k: nat)
    requires Accepted(c) && c.multiplier == Finite(m as real) && p.Exact()
    ensures IdealWait(p, c, k) == Min(c.initialWait * Power(m, k), c.maxWait)
  {
    hide Platform.Exact, Grown;
    if k > 0 {
      var x := c.initialWait * Power(m, k - 1);
      WholeMultiplierIsGeometric(p, c, m, k - 1);
      WholeMultiplierIsPositive(c, m);
      PowerIsPositive(m, k - 1);
      WholeProduct(p, c, m, IdealWait(p, c, k - 1));
      NextPower(c.initialWait, m, k);
      ProductOfCap(x, m, c.maxWait);
    }
  }

  lemma {:induction false} PowerIsPositive(m: nat, k: nat)
    requires m >= 1
    ensures Power(m, k) >= 1
  {
    if k > 0 {
      PowerIsPositive(m, k - 1);
      assert m * Power(m, k - 1) >= Power(m, k - 1) by { assert (m - 1) * Power(m, k - 1) >= 0; }
    }
  }

  lemma WholeMultiplierIsPositive(c: RetryConfig, m: nat)
    requires Accepted(c) && c.multiplier == Finite(m as real)
    ensures m >= 1
  {
  }

  lemma NextPower(x: int, m: nat, k: nat)
    requires x > 0 && m >= 1 && k > 0 && Power(m, k - 1) >= 1
    ensures x * Power(m, k) == x * Power(m, k - 1) * m && x * Power(m, k - 1) > 0
  {
    assert x * (Power(m, k - 1) - 1) >= 0;
  }

  lemma WholeProduct(p: Platform, c: RetryConfig, m: nat, w: int)
    requires c.multiplier == Finite(m as real) && p.Exact()
    ensures Grown(p, c, w) == w * m
  {
    assert w as real * m as real == (w * m) as real;
  }

  lemma ProductOfCap(x: int, m: nat, cap: int)
    requires x > 0 && cap > 0 && m >= 1
    ensures Min(Min(x, cap) * m, cap) == Min(x * m, cap)
  {
    assert x * m >= x && cap * m >= cap by {
      assert x * (m - 1) >= 0 && cap * (m - 1) >= 0;
    }
  }

  // ---------------------------------------------------------------------------
  // Without rounding the same can be said for all numbers of attempts at once.

  /** Truncation pins the waits to the initial wait: the multiplier adds less than a nanosecond to it. */
  predicate Pinned(p: Platform, c: RetryConfig)
    requires c.multiplier.Finite?
  {
    Grown(p, c, c.initialWait) == c.initialWait
  }

  /** However many attempts there are, no product leaves the `int64` range. */
  predicate NeverOverflows(p: Platform, c: RetryConfig) {
    && c.multiplier.Finite?
    && (Pinned(p, c) || Int64.Fits(Grown(p, c, c.maxWait)))
  }

  lemma {:induction false} PinnedWaits(p: Platform, c: RetryConfig, k: nat)
    requires Accepted(c) && c.multiplier.Finite? && p.Exact() && Pinned(p, c)
    ensures IdealWait(p, c, k) == c.initialWait
  {
    hide Platform.Rounds, Platform.Exact, Grown, Next;
    if k > 0 {
      PinnedWaits(p, c, k - 1);
      ExactGrowth(p, c, c.initialWait, c.initialWait);
    }
  }

  /** Unless they are pinned, waits below the cap grow by at least a nanosecond each. */
  lemma {:induction false} GrowingWaits(p: Platform, c: RetryConfig, k: nat)
    requires Accepted(c) && c.multiplier.Finite? && p.Exact() && !Pinned(p, c)
    ensures IdealWait(p, c, k) >= Min(c.initialWait + k, c.maxWait)
  {
    hide Platform.Rounds, Platform.Exact, Grown, Next, Steady;
    if k > 0 {
      GrowingWaits(p, c, k - 1);
      ExactIsSteady(p, c);
      IdealWaitBounded(p, c, k - 1);
      ExactGrowth(p, c, c.initialWait, IdealWait(p, c, k - 1));
    }
  }

  lemma OverflowIsAvoided(p: Platform, c: RetryConfig, k: nat)
    requires Accepted(c) && Representable(c) && p.Exact() && NeverOverflows(p, c)
    ensures !OverflowsAt(p, c, k)
  {
    hide Platform.Rounds, Platform.Exact, Grown, Next, Steady;
    ExactIsSteady(p, c);
    IdealWaitBounded(p, c, k);
    if Pinned(p, c) {
      PinnedWaits(p, c, k);
      GrownMonotone(p, c, 0, c.initialWait);
    } else {
      GrownMonotone(p, c, IdealWait(p, c, k), c.maxWait);
    }
  }

  lemma OverflowIsReached(p: Platform, c: RetryConfig)
    requires Accepted(c) && c.multiplier.Finite? && p.Exact() && !NeverOverflows(p, c)
    ensures OverflowsAt(p, c, c.maxWait - c.initialWait)
  {
    hide Platform.Rounds, Platform.Exact, Grown, Next, Steady;
    ExactIsSteady(p, c);
    var k: nat := c.maxWait - c.initialWait;
    GrowingWaits(p, c, k);
    IdealWaitBounded(p, c, k);
    assert IdealWait(p, c, k) == c.maxWait;
  }

  /** Whatever the number of attempts, the program's waits are the ideal ones in exactly these cases. */
  lemma MachineWaitsAreIdealExactly(p: Platform, c: RetryConfig)
    requires Accepted(c) && Representable(c) && c.multiplier.Finite? && p.Exact()
    ensures (forall k: nat :: Wait(p, c, k) == IdealWait(p, c, k))
       <==> NeverOverflows(p, c) || p.unspecified >= c.maxWait
  {
    ExactIsSteady(p, c);
    hide Platform.Rounds, Platform.Exact, Wait, IdealWait, OverflowsAt, NeverOverflows, Steady;
    if NeverOverflows(p, c) {
      forall k: nat
        ensures Wait(p, c, k) == IdealWait(p, c, k)
      {
        forall j: nat | j < k ensures !OverflowsAt(p, c, j) { OverflowIsAvoided(p, c, j); }
        AgreesBefore(p, c, k);
      }
    } else if p.unspecified >= c.maxWait {
      forall k: nat ensures Wait(p, c, k) == IdealWait(p, c, k) {
        AgreesWhenClampedHigh(p, c, k);
      }
    } else {
      OverflowIsReached(p, c);
      var first := FirstOverflow(p, c, c.maxWait - c.initialWait);
      AfterFirstOverflow(p, c, first);
      assert Wait(p, c, first + 1) != IdealWait(p, c, first + 1);
    }
  }

  // ---------------------------------------------------------------------------
  // How long the waits take together.

  /** So without overflow the program sleeps the ideal total. */
  lemma {:induction false} TotalIsIdeal(p: Platform, c: RetryConfig, n: nat)
    requires Accepted(c) && c.multiplier.Finite? && p.Rounds() && Steady(p, c)
    requires SleepsWithoutOverflow(p, c) && n < c.maxAttempts
    ensures Total(p, c, n) == IdealTotal(p, c, n)
  {
    hide Platform.Rounds, Platform.Exact, Wait, IdealWait, SleepsWithoutOverflow, Steady;
    if n > 0 {
      TotalIsIdeal(p, c, n - 1);
      SleptWaitIsIdeal(p, c, n - 1);
      IdealWaitBounded(p, c, n - 1);
    }
  }

  /** With or without overflow, `n` waits take no longer than `n` maximal ones. */
  lemma {:induction false} TotalBounded(p: Platform, c: RetryConfig, n: nat)
    requires Accepted(c)
    ensures Total(p, c, n) <= n * c.maxWait
  {
    hide ToInt64, Times;
    if n > 0 {
      TotalBounded(p, c, n - 1);
      DistributeOne(n - 1, c.maxWait);
    }
  }

  lemma {:induction false} TotalGrows(p: Platform, c: RetryConfig, m: nat, n: nat)
    requires m <= n
    ensures Total(p, c, m) <= Total(p, c, n)
  {
    hide Wait;
    if m < n {
      TotalGrows(p, c, m, n - 1);
    }
  }

  /** The times taken by the first `n` waits, one by one: none for a wait that is not positive. */
  function WaitTimes(p: Platform, c: RetryConfig, n: nat): seq<int> {
    seq(n, j requires 0 <= j < n => if Wait(p, c, j) > 0 then Wait(p, c, j) else 0)
  }

  lemma {:induction false} TotalAddsUp(p: Platform, c: RetryConfig, n: nat)
    ensures Total(p, c, n) == Sum(WaitTimes(p, c, n))
  {
    if n > 0 {
      hide Wait;
      TotalAddsUp(p, c, n - 1);
      assert WaitTimes(p, c, n) == WaitTimes(p, c, n - 1) + [Elapsed(Wait(p, c, n - 1))];
      SumOnAppend(WaitTimes(p, c, n - 1), Elapsed(Wait(p, c, n - 1)));
    }
  }

  // ---------------------------------------------------------------------------
  // When the waits stay in range.

  ghost predicate InRange(c: RetryConfig, w: int) { c.initialWait <= w <= c.maxWait }

  /** What keeps the slept waits in range. */
  predicate StaysInRange(p: Platform, c: RetryConfig) {
    || c.maxAttempts <= 2
    || (&& (c.multiplier.Finite? ==> Steady(p, c))
        && (SleepsWithoutOverflow(p, c) || p.unspecified >= c.initialWait))
  }

  lemma {:induction false} InRangeWhenClamped(p: Platform, c: RetryConfig, k: nat)
    requires Accepted(c) && p.Rounds() && p.unspecified >= c.initialWait
    requires c.multiplier.Finite? ==> Steady(p, c)
    ensures InRange(c, Wait(p, c, k))
  {
    hide Platform.Rounds, Platform.Exact, Grown, Next;
    if k > 0 {
      InRangeWhenClamped(p, c, k - 1);
      if c.multiplier.Finite? {
        GrownMonotone(p, c, c.initialWait, Wait(p, c, k - 1));
      }
      NextIsGrown(p, c, Wait(p, c, k - 1));
    }
  }

  lemma FirstWaits(p: Platform, c: RetryConfig)
    ensures Wait(p, c, 0) == c.initialWait && Wait(p, c, 1) == Next(p, c, c.initialWait)
  {
    assert Wait(p, c, 1) == Next(p, c, Wait(p, c, 0));
  }

  /** Out of range is either the second wait or the one after the first overflow. */
  lemma SomeWaitOutOfRange(p: Platform, c: RetryConfig) returns (k: nat)
    requires Accepted(c) && Representable(c) && p.Rounds() && !StaysInRange(p, c)
    ensures k < c.maxAttempts - 1 && !InRange(c, Wait(p, c, k))
  {
    hide Platform.Rounds, Platform.Exact, Grown, Next, Wait, IdealWait;
    FirstWaits(p, c);
    if c.multiplier.Finite? && Steady(p, c) {
      k := SleptWaitIsUnspecified(p, c);
    } else {
      if c.multiplier.Finite? {
        GrownMonotone(p, c, 0, c.initialWait);
      }
      NextIsGrown(p, c, c.initialWait);
      k := 1;
    }
  }

  /**
   Validation alone does not keep the slept waits between the initial and the maximal one. They
   stay there, for every accepted configuration and every rounding, in exactly these cases: at
   most two attempts, or an initial wait that rounding does not push down and either no overflow
   or a platform that converts high. A NaN or infinite multiplier, which validation lets through,
   always counts as an overflow.
   */
  lemma MachineWaitsInRangeExactly(p: Platform, c: RetryConfig)
    requires Accepted(c) && Representable(c) && p.Rounds()
    ensures (forall k: nat :: k < c.maxAttempts - 1 ==> InRange(c, Wait(p, c, k))) <==> StaysInRange(p, c)
  {
    hide Platform.Rounds, Platform.Exact, Wait, IdealWait, OverflowsAt, Steady, InRange;
    if !StaysInRange(p, c) {
      var k := SomeWaitOutOfRange(p, c);
    } else {
      forall k: nat | k < c.maxAttempts - 1 ensures InRange(c, Wait(p, c, k)) {
        SleptWaitInRange(p, c, k);
      }
    }
  }

  lemma SleptWaitInRange(p: Platform, c: RetryConfig, k: nat)
    requires Accepted(c) && p.Rounds() && StaysInRange(p, c) && k < c.maxAttempts - 1
    ensures InRange(c, Wait(p, c, k))
  {
    hide Platform.Rounds, Platform.Exact, Wait, IdealWait, OverflowsAt, Steady;
    if c.maxAttempts <= 2 {
      FirstWaits(p, c);
    } else if p.unspecified >= c.initialWait {
      InRangeWhenClamped(p, c, k);
    } else {
      SleptWaitIsIdeal(p, c, k);
      IdealWaitBounded(p, c, k);
    }
  }

  /**
   `multiplier = nan` passes validation and, where the conversion yields the least `int64`,
   switches backoff off: with three attempts or more every wait slept after the first is negative.
   */
  lemma NaNMultiplierDisablesBackoff(p: Platform, maxAttempts: int, initialWait: int, maxWait: int)
    requires maxAttempts >= 3 && 0 < initialWait <= maxWait && p.unspecified == Int64.MIN
    ensures var c := RetryConfig(maxAttempts, initialWait, maxWait, NaN);
            && Accepted(c)
            && (forall k: nat :: 0 < k < maxAttempts - 1 ==> Wait(p, c, k) < 0)
            && Total(p, c, maxAttempts - 1) == initialWait
  {
    var c := RetryConfig(maxAttempts, initialWait, maxWait, NaN);
    forall k: nat | 0 < k ensures Wait(p, c, k) < 0 {
      assert Wait(p, c, k) == Next(p, c, Wait(p, c, k - 1));
    }
    OnlyTheFirstTakesTime(p, c, maxAttempts - 1);
  }

  lemma {:induction false} OnlyTheFirstTakesTime(p: Platform, c: RetryConfig, n: nat)
    requires c.initialWait > 0 && n >= 1 && forall k: nat :: k > 0 ==> Wait(p, c, k) < 0
    ensures Total(p, c, n) == c.initialWait
  {
    if n > 1 {
      OnlyTheFirstTakesTime(p, c, n - 1);
    }
  }

  const TWO_53 := 0x20_0000_0000_0000

  /** From 2^53 to 2^54, a `float64` is an even number; below, nothing here depends on what it is. */
  function RoundDownToEven(x: real): real {
    if x <= TWO_53 as real then x else (2 * (x / 2.0).Floor) as real
  }

  lemma FloorMonotone(x: real, y: real)
    requires x <= y
    ensures x.Floor <= y.Floor
  {
  }

  lemma RoundDownToEvenRounds(unspecified: int)
    ensures Platform(RoundDownToEven, unspecified).Rounds()
  {
    forall x: real, y: real | x <= y ensures RoundDownToEven(x) <= RoundDownToEven(y) {
      FloorMonotone(x / 2.0, y / 2.0);
      if y > TWO_53 as real {
        FloorMonotone((TWO_53 / 2) as real, y / 2.0);
      }
    }
  }

  /**
   The rounding alone can push a wait out of range: an accepted wait of 2^53 + 1 nanoseconds is no
   `float64`, and a multiplier of 1 turns it into 2^53.
   */
  lemma RoundingPushesTheWaitDown(unspecified: int)
    ensures var p := Platform(RoundDownToEven, unspecified);
            var c := RetryConfig(3, TWO_53 + 1, TWO_53 + 1, Finite(1.0));
            && p.Rounds() && Accepted(c) && Representable(c) && !StaysInRange(p, c)
            && Wait(p, c, 1) == TWO_53 < c.initialWait
  {
    hide Platform.Rounds, Wait, SleepsWithoutOverflow;
    var p := Platform(RoundDownToEven, unspecified);
    var c := RetryConfig(3, TWO_53 + 1, TWO_53 + 1, Finite(1.0));
    RoundDownToEvenRounds(unspecified);
    FirstWaits(p, c);
    assert ((TWO_53 + 1) as real / 2.0).Floor == TWO_53 / 2;
    assert Product(p, c.initialWait, 1.0) == TWO_53 as real;
  }
}
