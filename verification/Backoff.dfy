/**
 * The retry backoff in 64-bit arithmetic: the base duration times a power of two, computed with a wrapping product,
 * of which half and a random part of the other half are waited.
 */
module Backoff {
  import opened Powers

  const MAX_INT64 := 0x7FFF_FFFF_FFFF_FFFF
  const TWO_63 := 0x8000_0000_0000_0000
  const TWO_64 := 0x1_0000_0000_0000_0000
  const MAX_SHIFT: nat := 62

  /** The int64 that a mathematical integer wraps to. */
  function Wrap64(x: int): (w: int)
    ensures -TWO_63 <= w <= MAX_INT64
  {
    (x + TWO_63) % TWO_64 - TWO_63
  }

  /** There is one such int64. */
  lemma WrapUnique(x: int, w: int)
    requires -TWO_63 <= w < TWO_63
    ensures w == Wrap64(x) <==> (x - w) % TWO_64 == 0
  {
  }

  lemma WrapNext(x: int)
    requires -TWO_63 <= x <= MAX_INT64
    ensures Wrap64(x + 1) == if x == MAX_INT64 then -TWO_63 else x + 1
  {
  }

  function Shift(attempt: nat): (n: nat)
    ensures n <= MAX_SHIFT && n <= attempt
  {
    if attempt > MAX_SHIFT then MAX_SHIFT else attempt
  }

  /** The product before it wraps. */
  function Exact(attempt: nat, base: int): int { Scale(base, Shift(attempt)) }

  /** `expBackoff` after the overflow test. */
  function Exponential(attempt: nat, base: int): int {
    var product := Wrap64(Exact(attempt, base));
    if product <= 0 then MAX_INT64 else product
  }

  /** The wait for a random word `r`, of which the jitter is the remainder by half the backoff. */
  function Duration(attempt: nat, base: int, r: nat): int {
    if base <= 0 then 0
    else
      var whole := Exponential(attempt, base);
      var half := whole / 2;
      if half <= 0 then whole else half + r % half
  }

  // ----- Bounds that hold for every argument -----

  lemma WrapBelow(x: int)
    requires x > 0
    ensures Wrap64(x) <= x
    ensures x <= MAX_INT64 ==> Wrap64(x) == x
    ensures Wrap64(x) > 0 ==> Wrap64(x) == x % TWO_64
    ensures Wrap64(x) > 0 <==> 0 < x % TWO_64 < TWO_63
  {
  }

  lemma Pow2Is64()
    ensures Pow2(62) * 4 == Pow2(63) * 2 == Pow2(64) == TWO_64
  {
    assert Pow2(8) == 256 by { assert Pow2(4) == 16; Pow2Adds(4, 4); }
    assert Pow2(16) == 0x1_0000 by { Pow2Adds(8, 8); }
    assert Pow2(32) == 0x1_0000_0000 by { Pow2Adds(16, 16); }
    assert Pow2(64) == TWO_64 by { Pow2Adds(32, 32); }
  }

  lemma Scale64(x: int)
    ensures Scale(x, 64) == x * TWO_64 && Scale(x, 63) == x * TWO_63
  {
    Pow2Is64();
    ScaleIsProduct(x, 64);
    ScaleIsProduct(x, 63);
  }

  lemma ExponentialBounds(attempt: nat, base: int)
    requires 0 < base <= MAX_INT64
    ensures 1 <= Exponential(attempt, base) <= 0x7FFF_FFFF_FFFF_FFFF
    ensures Exponential(attempt, base) <= Scale(base, attempt)
    ensures Scale(base, attempt) <= MAX_INT64 ==> Exponential(attempt, base) == Scale(base, attempt)
  {
    ScaleGrows(base, Shift(attempt), attempt);
    WrapBelow(Exact(attempt, base));
    if attempt > MAX_SHIFT {
      ScaleGrows(base, 63, attempt);
      Scale64(base);
    }
  }

  /**
   * For every base, attempt and jitter the wait is positive, never above the exact product, and fits in 64 bits, so
   * the addition of the jitter does not overflow.
   */
  lemma DurationBounds(attempt: nat, base: int, r: nat)
    requires 0 < base <= MAX_INT64
    ensures 1 <= Duration(attempt, base, r) <= MAX_INT64 && Duration(attempt, base, r) <= Scale(base, attempt)
    ensures Exponential(attempt, base) / 2 <= Duration(attempt, base, r) <= Exponential(attempt, base)
    ensures Exponential(attempt, base) > 1 ==> Duration(attempt, base, r) < Exponential(attempt, base) / 2 * 2
  {
    ExponentialBounds(attempt, base);
  }

  method BackoffDuration(attempt: nat, base: int, r: nat) returns (wait: int)
    requires base <= MAX_INT64
    ensures wait == Duration(attempt, base, r)
    ensures base > 0 ==> 1 <= wait <= 0x7FFF_FFFF_FFFF_FFFF && wait <= base * Pow2(attempt)
    ensures base <= 0 ==> wait == 0
  {
    if base <= 0 {
      return 0;
    }
    var shift := attempt;
    if shift > MAX_SHIFT {
      shift := MAX_SHIFT;
    }
    ScaleIsProduct(base, shift);
    var expBackoff := Wrap64(base * Pow2(shift));
    if expBackoff <= 0 {
      expBackoff := MAX_INT64;
    }
    var halfBackoff := expBackoff / 2;
    DurationBounds(attempt, base, r);
    ScaleIsProduct(base, attempt);
    if halfBackoff <= 0 {
      return expBackoff;
    }
    var jitter := r % halfBackoff;
    return halfBackoff + jitter;
  }

  /** Attempts beyond 62 wait like that one, which for a base of one nanosecond is the largest power that fits. */
  lemma AttemptsClamped(attempt: nat, base: int, r: nat)
    requires attempt >= 62
    ensures Duration(attempt, base, r) == Duration(62, base, r)
    ensures Exponential(attempt, 1) == 0x4000_0000_0000_0000
  {
    Pow2Is64();
    ScaleIsProduct(1, 62);
    WrapBelow(Exact(62, 1));
  }

  lemma SmallRemainder(x: int, d: int)
    requires 0 <= x < d
    ensures x % d == x
  {
  }

  /** And the jitter reaches every wait from half the backoff up to, not including, twice that half. */
  lemma JitterCovers(attempt: nat, base: int, wait: int)
    requires 0 < base <= MAX_INT64
    requires Exponential(attempt, base) / 2 <= wait < Exponential(attempt, base) / 2 * 2
    ensures exists r: nat :: Duration(attempt, base, r) == wait
  {
    hide Exponential;
    var half := Exponential(attempt, base) / 2;
    SmallRemainder(wait - half, half);
    assert Duration(attempt, base, wait - half) == wait;
  }

  // ----- Where the overflow test works -----

  /** The bits of `base` that the shift leaves in the low 64 bits of the product. */
  function Kept(attempt: nat, base: int): int { base % Pow2(64 - Shift(attempt)) }

  /** The overflow test fires on the wrapped product: the bits kept are all zero, or their top one is set. */
  predicate Detected(attempt: nat, base: int) {
    Kept(attempt, base) == 0 || Kept(attempt, base) >= Pow2(63 - Shift(attempt))
  }

  lemma Remainder(x: int, q: int, r: int)
    requires x == q * TWO_64 + r && 0 <= r < TWO_64
    ensures x % TWO_64 == r
  {
  }

  lemma DivMod(x: int, d: int)
    requires x > 0 && d > 0
    ensures x == x / d * d + x % d && 0 <= x % d < d && 0 <= x / d
  {
  }

  lemma ScaleOfZero(n: nat)
    ensures Scale(0, n) == 0
  {
  }

  /** The wrapped product is the kept bits, shifted; its sign tells what the overflow test sees. */
  lemma ProductKept(attempt: nat, base: int)
    requires base > 0
    ensures Exact(attempt, base) % TWO_64 == Scale(Kept(attempt, base), Shift(attempt))
    ensures Kept(attempt, base) >= Pow2(63 - Shift(attempt)) <==> Scale(Kept(attempt, base), Shift(attempt)) >= TWO_63
    ensures Kept(attempt, base) >= 1 <==> Scale(Kept(attempt, base), Shift(attempt)) > 0
    ensures Kept(attempt, base) >= 0
  {
    var k, n := Shift(attempt), 64 - Shift(attempt);
    DivMod(base, Pow2(n));
    var high, low := base / Pow2(n), base % Pow2(n);
    ScaleIsProduct(high, n);
    ScaleIsProduct(1, n);
    ScaleIsProduct(1, n - 1);
    assert base == Scale(high, n) + low;
    ScaleAdds(Scale(high, n), low, k);
    ScaleTwice(high, n, k);
    Scale64(high);
    Scale64(1);
    ScaleTwice(1, n, k);
    ScaleTwice(1, n - 1, k);
    ScaleOrder(Scale(1, n), low, k);
    ScaleOrder(0, low, k);
    ScaleOrder(low, 0, k);
    ScaleOfZero(k);
    Remainder(Exact(attempt, base), high, Scale(low, k));
    ScaleOrder(Scale(1, n - 1), low, k);
  }

  lemma WrapEven(x: int)
    ensures Wrap64(2 * x) % 2 == 0
  {
    var q := (2 * x + TWO_63) / TWO_64;
    assert Wrap64(2 * x) == 2 * x - q * TWO_64 == 2 * (x - q * TWO_63);
    hide Wrap64;
  }

  /** The backoff is the exact product capped at the largest duration, exactly when an overflow there is detected. */
  lemma SaturatesIff(attempt: nat, base: int)
    requires 0 < base <= MAX_INT64
    ensures Exponential(attempt, base) ==
        (if Exact(attempt, base) <= MAX_INT64 then Exact(attempt, base) else MAX_INT64)
       <==> Exact(attempt, base) <= MAX_INT64 || Detected(attempt, base)
  {
    ScaleGrows(base, 0, Shift(attempt));
    WrapBelow(Exact(attempt, base));
    ProductKept(attempt, base);
    if Exact(attempt, base) > MAX_INT64 {
      assert Shift(attempt) > 0;
      WrapEven(Scale(base, Shift(attempt) - 1));
    }
  }

  /** The backoff is what the shift makes of the kept bits, unless an overflow was detected. */
  lemma ExponentialOfKept(attempt: nat, base: int)
    requires 0 < base <= MAX_INT64
    ensures Exponential(attempt, base) ==
        if Detected(attempt, base) then MAX_INT64 else Scale(Kept(attempt, base), Shift(attempt))
  {
    ScaleGrows(base, 0, Shift(attempt));
    WrapBelow(Exact(attempt, base));
    ProductKept(attempt, base);
  }

  /** All waits are at least half the base exactly if half the backoff is. */
  lemma LeastWait(attempt: nat, base: int)
    requires 0 < base <= MAX_INT64
    ensures (forall r: nat :: Duration(attempt, base, r) >= base / 2) <==> Exponential(attempt, base) / 2 >= base / 2
  {
    ExponentialBounds(attempt, base);
    hide Exponential;
    if Exponential(attempt, base) / 2 >= base / 2 {
      forall r: nat ensures Duration(attempt, base, r) >= base / 2 {
        DurationBounds(attempt, base, r);
      }
    } else {
      assert Duration(attempt, base, 0) < base / 2;
    }
  }

  /** While the product fits, half the base duration is a lower bound, as documented. */
  lemma LowerBoundWhenFits(attempt: nat, base: int, r: nat)
    requires 0 < base <= MAX_INT64 && Scale(base, attempt) <= MAX_INT64
    ensures Duration(attempt, base, r) >= base / 2
  {
    ScaleGrows(base, 0, attempt);
    ExponentialBounds(attempt, base);
    DurationBounds(attempt, base, r);
  }

  /** The value of the bits of `base` that the shift pushes out of the product. */
  function Dropped(attempt: nat, base: int): int { base - Kept(attempt, base) }

  lemma HalvesCompare(whole: int, gain: int, base: int, dropped: int, kept: int)
    requires base == dropped + kept && whole == gain + kept
    requires whole % 2 == 0 || dropped == gain == 0
    ensures whole / 2 >= base / 2 <==> dropped <= gain + 1
  {
  }

  /** What shifting the kept bits adds to their value. */
  function Gain(attempt: nat, base: int): int { Kept(attempt, base) * (Pow2(Shift(attempt)) - 1) }

  lemma LessOne(x: int, p: int)
    ensures x * (p - 1) + x == x * p
  {
  }

  lemma UnshiftedKept(attempt: nat, base: int)
    requires 0 < base <= MAX_INT64 && Shift(attempt) == 0
    ensures Kept(attempt, base) == base
  {
    Pow2Is64();
    SmallRemainder(base, TWO_64);
  }

  lemma KeptAndGain(attempt: nat, base: int)
    requires 0 < base <= MAX_INT64
    ensures Scale(Kept(attempt, base), Shift(attempt)) == Gain(attempt, base) + Kept(attempt, base)
    ensures Shift(attempt) == 0 ==> Dropped(attempt, base) == Gain(attempt, base) == 0
  {
    ScaleIsProduct(Kept(attempt, base), Shift(attempt));
    LessOne(Kept(attempt, base), Pow2(Shift(attempt)));
    if Shift(attempt) == 0 {
      UnshiftedKept(attempt, base);
      assert Pow2(0) == 1;
    }
  }

  lemma ScaleEven(x: int, n: nat)
    requires n > 0
    ensures Scale(x, n) % 2 == 0
  {
  }

  /**
   * In general it holds for every jitter exactly when an overflow is detected or the bits pushed out are worth no
   * more than what shifting the others adds to them.
   */
  lemma LowerBoundIff(attempt: nat, base: int)
    requires 0 < base <= MAX_INT64
    ensures (forall r: nat :: Duration(attempt, base, r) >= base / 2)
       <==> Detected(attempt, base) || Dropped(attempt, base) <= Gain(attempt, base) + 1
  {
    var kept := Kept(attempt, base);
    ExponentialOfKept(attempt, base);
    LeastWait(attempt, base);
    KeptAndGain(attempt, base);
    if Shift(attempt) > 0 {
      ScaleEven(kept, Shift(attempt));
    }
    HalvesCompare(Scale(kept, Shift(attempt)), Gain(attempt, base), base, Dropped(attempt, base), kept);
    hide Exponential, Kept, Detected, Duration, Gain;
  }

  /** It fails, for instance, for a base of 2^40 + 1 nanoseconds at attempt 30: every wait is below half of it. */
  lemma LowerBoundFails(r: nat)
    ensures Duration(30, Pow2(40) + 1, r) < (Pow2(40) + 1) / 2
  {
    assert Pow2(10) == 1024 by { assert Pow2(5) == 32; Pow2Adds(5, 5); }
    assert Pow2(20) == 1024 * 1024 by { Pow2Adds(10, 10); }
    assert Pow2(30) == 1024 * 1024 * 1024 by { Pow2Adds(10, 20); }
    assert Pow2(40) == 1024 * 1024 * 1024 * 1024 by { Pow2Adds(20, 20); }
    var base := Pow2(40) + 1;
    assert Exact(30, base) == 64 * TWO_64 + Pow2(30) by { ScaleIsProduct(base, 30); }
    DurationBounds(30, base, r);
  }

  // ----- Runs of waits while the product fits -----

  /** Waits never shrink from one attempt to the next, whatever the jitter. */
  lemma Nondecreasing(i: nat, j: nat, base: int, r: nat, q: nat)
    requires 0 < base <= MAX_INT64 && i < j && Scale(base, j) <= MAX_INT64
    ensures Duration(i, base, r) <= Scale(base, i) <= Duration(j, base, q)
  {
    hide Duration, Exponential;
    ScaleGrows(base, i + 1, j);
    ExponentialBounds(j, base);
    DurationBounds(i, base, r);
    DurationBounds(j, base, q);
  }

  /** The time spent in the first `n` waits, for jitters drawn by `random`. */
  function Total(base: int, random: nat -> nat, n: nat): int {
    if n == 0 then 0 else Total(base, random, n - 1) + Duration(n - 1, base, random(n - 1))
  }

  /** However the products wrap, and whatever the jitter, the waits take no longer than the exact backoffs would. */
  lemma {:induction false} TotalAtMost(base: int, random: nat -> nat, n: nat)
    requires 0 < base <= MAX_INT64
    ensures Total(base, random, n) <= Scale(base, n) - base
  {
    if n > 0 {
      DurationBounds(n - 1, base, random(n - 1));
      TotalAtMost(base, random, n - 1);
    }
  }

  /** The least the waits can take: half of every exact backoff. */
  function LeastTotal(base: int, n: nat): int
    requires n > 0
  {
    base / 2 + Scale(base, n - 1) - base
  }

  lemma {:induction false} TotalAtLeast(base: int, random: nat -> nat, n: nat)
    requires 0 < base <= MAX_INT64 && n > 0 && Scale(base, n - 1) <= MAX_INT64
    ensures Total(base, random, n) >= LeastTotal(base, n)
  {
    ExponentialBounds(n - 1, base);
    DurationBounds(n - 1, base, random(n - 1));
    if n > 1 {
      ScaleGrows(base, n - 2, n - 1);
      TotalAtLeast(base, random, n - 1);
    } else {
      assert Total(base, random, 0) == 0;
    }
  }

  const NO_JITTER: nat -> nat := _ => 0

  /** A backoff that starts from one nanosecond stays far below the largest duration. */
  lemma UnitBackoff(attempt: nat)
    ensures Exponential(attempt, 1) <= TWO_64 / 4
  {
    Pow2Is64();
    ScaleIsProduct(1, 62);
    ScaleGrows(1, Shift(attempt), 62);
    WrapBelow(Exact(attempt, 1));
  }

  /** Without jitter a wait is at most half the exact backoff, and less than half if that does not fit. */
  lemma WaitWithoutJitter(attempt: nat, base: int)
    requires 0 < base <= MAX_INT64 && attempt > 0
    ensures Duration(attempt, base, 0) <= Scale(base, attempt - 1)
    ensures Scale(base, attempt) > MAX_INT64 ==>
              Duration(attempt, base, 0) < Scale(base, attempt - 1) - if base == 1 then 1 else 0
  {
    ExponentialBounds(attempt, base);
    UnitBackoff(attempt);
    ScaleGrows(base, attempt - 1, attempt);
    assert Scale(base, attempt) == 2 * Scale(base, attempt - 1);
    hide Exponential;
  }

  /**
   * With no jitter at all the waits take half of every backoff, or one nanosecond if that is nothing, and less in
   * all once a product does not fit.
   */
  lemma {:induction false} TotalWithoutJitter(base: int, n: nat)
    requires 0 < base <= MAX_INT64 && n > 0
    ensures Total(base, NO_JITTER, n) <= LeastTotal(base, n) + if base == 1 then 1 else 0
    ensures Scale(base, n - 1) > MAX_INT64 ==> Total(base, NO_JITTER, n) < LeastTotal(base, n)
  {
    if n == 1 {
      ExponentialBounds(0, base);
      assert Total(base, NO_JITTER, 0) == 0;
    } else {
      TotalWithoutJitter(base, n - 1);
      WaitWithoutJitter(n - 1, base);
    }
  }

  /** Whatever the jitter the waits take that long, exactly when the largest product fits. */
  lemma TotalAtLeastIff(base: int, n: nat)
    requires 0 < base <= MAX_INT64 && n > 0
    ensures (forall random: nat -> nat :: Total(base, random, n) >= LeastTotal(base, n))
       <==> Scale(base, n - 1) <= MAX_INT64
  {
    if Scale(base, n - 1) <= MAX_INT64 {
      forall random: nat -> nat ensures Total(base, random, n) >= LeastTotal(base, n) {
        TotalAtLeast(base, random, n);
      }
    } else {
      TotalWithoutJitter(base, n);
    }
  }
}
