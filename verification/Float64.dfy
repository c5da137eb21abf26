/**
  Rounding to float64: to the nearest representable number, ties to even (section 4.3.1 of
  IEEE 754-2008), for the non-negative reals below the overflow threshold.
 */
module Float64 {

  const TWO_TO_52: int := 0x10_0000_0000_0000
  const TWO_TO_53: int := 0x20_0000_0000_0000

  /** The number of doublings that lead from the smallest subnormal number to a spacing of one. */
  const SUBNORMAL_DEPTH: nat := 1074

  /** The nearest integer, and of two equally near ones the even one. */
  function NearestEven(x: real): int {
    var below := x.Floor;
    var rest := x - below as real;
    if rest < 0.5 then below
    else if rest > 0.5 then below + 1
    else if below % 2 == 0 then below
    else below + 1
  }

  /** Numbers from 2^52 to 2^53 have a spacing of one; the others are scaled to there and back. */
  function RoundAt(x: real, depth: nat): real
    requires 0.0 <= x
    decreases if x >= TWO_TO_53 as real then x.Floor else 0, depth
  {
    if x >= TWO_TO_53 as real then 2.0 * RoundAt(x / 2.0, depth)
    else if x >= TWO_TO_52 as real || depth == 0 then NearestEven(x) as real
    else RoundAt(2.0 * x, depth - 1) / 2.0
  }

  /** float64 of a real. */
  function Round(x: real): real
    requires 0.0 <= x
  {
    RoundAt(x, SUBNORMAL_DEPTH)
  }

  lemma NearestEvenNear(x: real)
    ensures x.Floor <= NearestEven(x) <= x.Floor + 1
    ensures x == x.Floor as real ==> NearestEven(x) == x.Floor
  {
  }

  lemma NearestEvenMonotone(x: real, y: real)
    requires x <= y
    ensures NearestEven(x) <= NearestEven(y)
  {
    assert x.Floor <= y.Floor;
  }

  /** Rounding stays within its binade. */
  lemma {:induction false} RoundBounds(x: real, depth: nat)
    requires 0.0 <= x
    ensures 0.0 <= RoundAt(x, depth)
    ensures x <= TWO_TO_52 as real ==> RoundAt(x, depth) <= TWO_TO_52 as real
    ensures x >= TWO_TO_52 as real ==> RoundAt(x, depth) >= TWO_TO_52 as real
    ensures x <= TWO_TO_53 as real ==> RoundAt(x, depth) <= TWO_TO_53 as real
    ensures x >= TWO_TO_53 as real ==> RoundAt(x, depth) >= TWO_TO_53 as real
    decreases if x >= TWO_TO_53 as real then x.Floor else 0, depth
  {
    NearestEvenNear(x);
    if x >= TWO_TO_53 as real {
      RoundBounds(x / 2.0, depth);
    } else if x < TWO_TO_52 as real && depth > 0 {
      RoundBounds(2.0 * x, depth - 1);
    }
  }

  lemma {:induction false} RoundAtMonotone(x: real, y: real, depth: nat)
    requires 0.0 <= x <= y
    ensures RoundAt(x, depth) <= RoundAt(y, depth)
    decreases if y >= TWO_TO_53 as real then y.Floor else 0, depth
  {
    RoundBounds(x, depth);
    RoundBounds(y, depth);
    NearestEvenMonotone(x, y);
    if x >= TWO_TO_53 as real {
      RoundAtMonotone(x / 2.0, y / 2.0, depth);
    } else if y < TWO_TO_52 as real && depth > 0 {
      RoundAtMonotone(2.0 * x, 2.0 * y, depth - 1);
    }
  }

  /** Integers up to 2^53 are representable. */
  lemma {:induction false} IntegersExact(n: int, depth: nat)
    requires 0 <= n <= TWO_TO_53
    ensures RoundAt(n as real, depth) == n as real
    decreases if n == TWO_TO_53 then 1 else 0, depth
  {
    NearestEvenNear(n as real);
    if n == TWO_TO_53 {
      assert n as real / 2.0 == TWO_TO_52 as real;
      IntegersExact(TWO_TO_52, depth);
    } else if n < TWO_TO_52 && depth > 0 {
      assert 2.0 * n as real == (2 * n) as real;
      IntegersExact(2 * n, depth - 1);
    }
  }

  /** From 2^52 on, float64 numbers are integers. */
  lemma {:induction false} LargeAreIntegers(x: real, depth: nat)
    requires x >= TWO_TO_52 as real
    ensures RoundAt(x, depth) == RoundAt(x, depth).Floor as real
    decreases x.Floor
  {
    if x < TWO_TO_53 as real {
    } else {
      LargeAreIntegers(x / 2.0, depth);
      assert RoundAt(x, depth) == (2 * RoundAt(x / 2.0, depth).Floor) as real;
    }
  }

  /** Rounding a float64 number changes nothing. */
  lemma {:induction false} RoundAtTwice(x: real, depth: nat)
    requires 0.0 <= x
    ensures 0.0 <= RoundAt(x, depth) && RoundAt(RoundAt(x, depth), depth) == RoundAt(x, depth)
    decreases if x >= TWO_TO_53 as real then x.Floor else 0, depth
  {
    RoundBounds(x, depth);
    if x >= TWO_TO_53 as real {
      RoundAtTwice(x / 2.0, depth);
      assert RoundAt(x, depth) / 2.0 == RoundAt(x / 2.0, depth);
    } else if x >= TWO_TO_52 as real || depth == 0 {
      IntegersExact(NearestEven(x), depth);
    } else {
      var z := RoundAt(2.0 * x, depth - 1);
      RoundAtTwice(2.0 * x, depth - 1);
      RoundBounds(2.0 * x, depth - 1);
      assert 2.0 * (z / 2.0) == z;
      if z / 2.0 == TWO_TO_52 as real {
        IntegersExact(TWO_TO_52, depth);
      }
    }
  }

  lemma RoundMonotone(x: real, y: real)
    requires 0.0 <= x <= y
    ensures 0.0 <= Round(x) <= Round(y)
  {
    RoundBounds(x, SUBNORMAL_DEPTH);
    RoundAtMonotone(x, y, SUBNORMAL_DEPTH);
  }

  /** The float64 of an integer is an integer. */
  lemma RoundOfInteger(n: int)
    requires 0 <= n
    ensures 0.0 <= Round(n as real) && Round(n as real) == Round(n as real).Floor as real
    ensures n <= TWO_TO_53 ==> Round(n as real) == n as real
  {
    if n <= TWO_TO_53 {
      IntegersExact(n, SUBNORMAL_DEPTH);
    } else {
      LargeAreIntegers(n as real, SUBNORMAL_DEPTH);
      RoundBounds(n as real, SUBNORMAL_DEPTH);
    }
  }

  // ---- How far rounding goes ----

  function Pow2(k: nat): (p: int)
    ensures p >= 1
  {
    if k == 0 then 1 else 2 * Pow2(k - 1)
  }

  lemma NearestEvenError(x: real)
    ensures -0.5 <= NearestEven(x) as real - x <= 0.5
  {
  }

  lemma Pow2Steps(k: nat)
    ensures if k == 0 then Pow2(k) == 1 else Pow2(k) as real == 2.0 * Pow2(k - 1) as real
  {
  }

  lemma HalvedError(k: nat, err: real)
    requires k > 0 && -1.0 <= err * 2.0 * Pow2(k - 1) as real <= 1.0
    ensures -1.0 <= err / 2.0 * 2.0 * Pow2(k) as real <= 1.0
  {
    var p := Pow2(k - 1) as real;
    assert Pow2(k) as real == 2.0 * p;
    assert err / 2.0 * 2.0 * (2.0 * p) == err * 2.0 * p;
  }

  /** Below 2^(53-k), a number is at most half a 2^-k away from the float64 it is rounded to. */
  lemma {:induction false} RoundAtError(x: real, depth: nat, k: nat)
    requires 0.0 <= x && x * Pow2(k) as real <= TWO_TO_53 as real && k <= depth
    ensures -1.0 <= (RoundAt(x, depth) - x) * 2.0 * Pow2(k) as real <= 1.0
    decreases k, if x < TWO_TO_52 as real then depth else 0
  {
    hide Pow2, NearestEven;
    NearestEvenError(x);
    Pow2Steps(k);
    if k == 0 {
      if x == TWO_TO_53 as real {
        IntegersExact(TWO_TO_53, depth);
      } else if x < TWO_TO_52 as real && depth > 0 {
        RoundAtError(2.0 * x, depth - 1, 0);
      }
    } else {
      var p := Pow2(k - 1) as real;
      assert x * (2.0 * p) == (2.0 * x) * p;
      AtMostHalf(x, p);
      if x == TWO_TO_52 as real {
        IntegersExact(TWO_TO_52, depth);
      } else {
        RoundAtError(2.0 * x, depth - 1, k - 1);
        HalvedError(k, RoundAt(2.0 * x, depth - 1) - 2.0 * x);
        assert RoundAt(x, depth) - x == (RoundAt(2.0 * x, depth - 1) - 2.0 * x) / 2.0;
      }
    }
  }

  lemma AtMostHalf(x: real, p: real)
    requires 0.0 <= x && p >= 1.0 && (2.0 * x) * p <= TWO_TO_53 as real
    ensures x <= TWO_TO_52 as real
  {
    assert (2.0 * x) * (p - 1.0) >= 0.0;
    assert (2.0 * x) * p == 2.0 * x + (2.0 * x) * (p - 1.0);
  }

  /** Up to 2^53, rounding moves a number by at most one half. */
  lemma RoundErrorBelow53(x: real)
    requires 0.0 <= x <= TWO_TO_53 as real
    ensures -0.5 <= Round(x) - x <= 0.5
  {
    RoundAtError(x, SUBNORMAL_DEPTH, 0);
  }

  lemma {:induction false} Pow2Adds(a: nat, b: nat)
    ensures Pow2(a + b) == Pow2(a) * Pow2(b)
  {
    if b == 0 {
    } else {
      Pow2Adds(a, b - 1);
      assert Pow2(a) * Pow2(b) == Pow2(a) * (2 * Pow2(b - 1));
    }
  }

  lemma Pow2Of53()
    ensures Pow2(53) == TWO_TO_53
  {
    assert Pow2(2) == 4 && Pow2(1) == 2;
    Pow2Adds(2, 2);
    Pow2Adds(4, 4);
    Pow2Adds(8, 8);
    Pow2Adds(16, 16);
    Pow2Adds(32, 16);
    Pow2Adds(48, 4);
    Pow2Adds(52, 1);
  }

  /** Up to one, rounding moves a number by at most 2^-54. */
  lemma RoundErrorBelow1(x: real)
    requires 0.0 <= x <= 1.0
    ensures -1.0 <= (Round(x) - x) * 2.0 * TWO_TO_53 as real <= 1.0
  {
    Pow2Of53();
    assert x * TWO_TO_53 as real <= TWO_TO_53 as real;
    RoundAtError(x, SUBNORMAL_DEPTH, 53);
  }
}
