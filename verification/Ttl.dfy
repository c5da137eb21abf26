/**
  TTL arithmetic (cache.go): durations are integers of nanoseconds, the jitter and its product are
  float64. A multiplication and a subtraction round separately; no fused operation is modelled.
 */
module Ttl {
  import opened Common
  import opened Float64

  function Min(a: int, b: int): int {
    if a <= b then a else b
  }

  /** The factor one write draws for both levels. */
  function Scale(jitter: real, draw: real): (f: real)
    requires 0.0 <= jitter < 1.0 && 0.0 <= draw < 1.0
    ensures 0.0 <= f <= 1.0
    ensures jitter == 0.0 ==> f == 1.0
  {
    ScaleInRange(jitter, draw);
    Round(1.0 - Round(jitter * draw))
  }

  lemma ScaleInRange(jitter: real, draw: real)
    requires 0.0 <= jitter < 1.0 && 0.0 <= draw < 1.0
    ensures 0.0 <= jitter * draw && 0.0 <= Round(jitter * draw) <= 1.0
    ensures 0.0 <= Round(1.0 - Round(jitter * draw)) <= 1.0
    ensures jitter == 0.0 ==> Round(1.0 - Round(jitter * draw)) == 1.0
  {
    ProductMonotone(draw, 1.0, jitter);
    ProductMonotone(0.0, draw, jitter);
    RoundOfInteger(1);
    RoundOfInteger(0);
    RoundMonotone(jitter * draw, 1.0);
    RoundMonotone(1.0 - Round(jitter * draw), 1.0);
  }

  /** float64(d) * f. */
  function Product(d: int, f: real): (p: real)
    requires 0 <= d && 0.0 <= f
    ensures 0.0 <= p
  {
    ProductInRange(d, f);
    Round(Round(d as real) * f)
  }

  lemma ProductInRange(d: int, f: real)
    requires 0 <= d && 0.0 <= f
    ensures 0.0 <= Round(d as real) && 0.0 <= Round(d as real) * f && 0.0 <= Round(Round(d as real) * f)
  {
    RoundOfInteger(d);
    ProductMonotone(0.0, Round(d as real), f);
    RoundMonotone(Round(d as real) * f, Round(d as real) * f);
  }

  /** d*f truncated, at least one nanosecond. A duration that is not positive gives no positive product. */
  function Scaled(d: int, f: real): (n: int)
    requires 0.0 <= f
    ensures n >= 1
  {
    if d <= 0 || Product(d, f).Floor < 1 then 1 else Product(d, f).Floor
  }

  /** The TTL write asks of L2, which is also the entry's logical lifetime. */
  function LongestTtl(ttl: int, f: real): int
    requires 0.0 <= f
  {
    Scaled(ttl, f)
  }

  /** The TTL write asks of L1. */
  function ShortTtl(ttl: int, l1TTL: int, f: real): int
    requires 0.0 <= f
  {
    Scaled(Min(ttl, l1TTL), f)
  }

  /** The TTL a backfill asks of L1, or None when it does not write. */
  function BackfillTtl(l1TTL: int, expires: int, now: int): Option<int> {
    var ttl := Min(l1TTL, expires - now);
    if ttl <= 0 then None else Some(ttl)
  }

  lemma ProductMonotone(x: real, y: real, f: real)
    requires x <= y && 0.0 <= f
    ensures x * f <= y * f
  {
    assert (y - x) * f >= 0.0;
    assert y * f == x * f + (y - x) * f;
  }

  lemma ProductBelow(x: real, f: real)
    requires 0.0 <= x && 0.0 <= f <= 1.0
    ensures 0.0 <= x * f <= x
  {
    assert x * f >= 0.0 && x * (1.0 - f) >= 0.0;
    assert x == x * f + x * (1.0 - f);
  }

  lemma FloorMonotone(x: real, y: real)
    requires x <= y
    ensures x.Floor <= y.Floor
  {
  }

  lemma ProductGrows(d: int, e: int, f: real)
    requires 0 <= d <= e && 0.0 <= f
    ensures Product(d, f) <= Product(e, f)
  {
    hide Round;
    ProductInRange(d, f);
    RoundMonotone(d as real, e as real);
    ProductMonotone(Round(d as real), Round(e as real), f);
    RoundMonotone(Round(d as real) * f, Round(e as real) * f);
  }

  lemma ScaledMonotone(d: int, e: int, f: real)
    requires d <= e && 0.0 <= f
    ensures Scaled(d, f) <= Scaled(e, f)
  {
    hide Product;
    if 0 < d {
      ProductGrows(d, e, f);
      FloorMonotone(Product(d, f), Product(e, f));
    }
  }

  /** float64(d) is not above d. */
  predicate NotRoundedUp(d: int) {
    0 < d && Round(d as real) <= d as real
  }

  lemma ProductWithin(d: int, f: real)
    requires 0 < d && 0.0 <= f <= 1.0
    ensures Product(d, f) <= Round(d as real)
  {
    hide Round;
    ProductInRange(d, f);
    ProductBelow(Round(d as real), f);
    RoundMonotone(Round(d as real) * f, Round(d as real));
    RoundTwice(d);
  }

  lemma ScaledWithin(d: int, f: real)
    requires NotRoundedUp(d) && 0.0 <= f <= 1.0
    ensures Scaled(d, f) <= d
  {
    hide Product;
    ProductWithin(d, f);
    FloorMonotone(Product(d, f), d as real);
    assert (d as real).Floor == d;
  }

  lemma RoundTwice(d: int)
    requires 0 <= d
    ensures 0.0 <= Round(d as real) && Round(Round(d as real)) == Round(d as real)
  {
    RoundAtTwice(d as real, SUBNORMAL_DEPTH);
  }

  /** Without jitter a duration becomes its float64. */
  lemma UnscaledIsFloat(d: int)
    requires 0 < d
    ensures Scaled(d, 1.0) as real == Round(d as real)
  {
    hide Round;
    RoundTwice(d);
    RoundOfInteger(d);
    ProductInRange(d, 1.0);
    assert Round(d as real) * 1.0 == Round(d as real);
    assert Product(d, 1.0) == Round(d as real);
    RoundMonotone(1.0, d as real);
    RoundOfInteger(1);
  }

  /** Scaling never lengthens a TTL, whatever the jitter draws, exactly when its float64 is not above it. */
  lemma ScalingNeverExtendsExactlyWhen(d: int)
    requires 0 < d
    ensures (forall f :: 0.0 <= f <= 1.0 ==> Scaled(d, f) <= d) <==> NotRoundedUp(d)
  {
    if NotRoundedUp(d) {
      forall f | 0.0 <= f <= 1.0
        ensures Scaled(d, f) <= d
      {
        ScaledWithin(d, f);
      }
    } else {
      UnscaledIsFloat(d);
      assert Scaled(d, 1.0) > d;
    }
  }

  /** No TTL up to 2^53 ns, some hundred days, is rounded up; */
  lemma UsualTtlsNotRoundedUp(d: int)
    requires 0 < d <= TWO_TO_53
    ensures NotRoundedUp(d)
  {
    RoundOfInteger(d);
  }

  /** and 2^53 + 3 is one that is: without jitter it is stored for 2^53 + 4. */
  lemma LongTtlRoundedUp()
    ensures Scaled(TWO_TO_53 + 3, 1.0) == TWO_TO_53 + 4
  {
    var d := TWO_TO_53 + 3;
    var half := d as real / 2.0;
    assert half.Floor == TWO_TO_52 + 1 && half - half.Floor as real == 0.5;
    assert NearestEven(half) == TWO_TO_52 + 2;
    assert RoundAt(d as real, SUBNORMAL_DEPTH) == 2.0 * RoundAt(half, SUBNORMAL_DEPTH);
    UnscaledIsFloat(d);
  }

  /**
    For every TTL, override and jitter draw, L1 never asks for longer than L2; and a TTL that is not
    rounded up bounds what is asked.
   */
  lemma WriteOrdersTtls(ttl: int, l1TTL: int, jitter: real, draw: real)
    requires ttl >= 1 && l1TTL >= 1 && 0.0 <= jitter < 1.0 && 0.0 <= draw < 1.0
    ensures var f := Scale(jitter, draw);
            && 1 <= ShortTtl(ttl, l1TTL, f) <= LongestTtl(ttl, f)
            && (NotRoundedUp(ttl) ==> LongestTtl(ttl, f) <= ttl)
            && (NotRoundedUp(l1TTL) ==> ShortTtl(ttl, l1TTL, f) <= l1TTL)
  {
    hide Scale, Scaled, NotRoundedUp;
    var f := Scale(jitter, draw);
    ScaledMonotone(Min(ttl, l1TTL), ttl, f);
    ScaledMonotone(Min(ttl, l1TTL), l1TTL, f);
    if NotRoundedUp(ttl) {
      ScaledWithin(ttl, f);
    }
    if NotRoundedUp(l1TTL) {
      ScaledWithin(l1TTL, f);
    }
  }

  /** A chain of backfills of one entry: the times at which L1 lost it and copied it again. */
  function LastCopyEnds(l1TTL: int, expires: int, first: int, backfills: seq<int>): int
    decreases |backfills|
  {
    if backfills == [] then first
    else
      var last := |backfills| - 1;
      match BackfillTtl(l1TTL, expires, backfills[last])
      case None => LastCopyEnds(l1TTL, expires, first, backfills[..last])
      case Some(ttl) => backfills[last] + ttl
  }

  /** However often an entry is copied back into L1, no copy outlives the logical expiry of its write. */
  lemma {:induction false} BackfillsNeverExtend(ttl: int, l1TTL: int, jitter: real, draw: real, written: int,
                                                backfills: seq<int>)
    requires ttl >= 1 && l1TTL >= 1 && 0.0 <= jitter < 1.0 && 0.0 <= draw < 1.0
    ensures var f := Scale(jitter, draw);
            var expires := written + LongestTtl(ttl, f);
            && LastCopyEnds(l1TTL, expires, written + ShortTtl(ttl, l1TTL, f), backfills) <= expires
            && (NotRoundedUp(ttl) ==> expires <= written + ttl)
    decreases |backfills|
  {
    hide Scale, Scaled, NotRoundedUp;
    WriteOrdersTtls(ttl, l1TTL, jitter, draw);
    if backfills == [] {
    } else {
      BackfillsNeverExtend(ttl, l1TTL, jitter, draw, written, backfills[..|backfills| - 1]);
    }
  }

  // ---- What is left after the jitter ----

  /** The factor is one minus the jitter's share, up to two roundings. */
  lemma ScaleNear(jitter: real, draw: real)
    requires 0.0 <= jitter < 1.0 && 0.0 <= draw < 1.0
    ensures -1.0 <= (Scale(jitter, draw) - (1.0 - jitter * draw)) * TWO_TO_53 as real <= 1.0
  {
    hide Round;
    ScaleInRange(jitter, draw);
    ProductBelow(jitter, draw);
    var x := jitter * draw;
    RoundErrorBelow1(x);
    RoundErrorBelow1(1.0 - Round(x));
    var e1, e2 := Round(x) - x, Round(1.0 - Round(x)) - (1.0 - Round(x));
    assert Scale(jitter, draw) - (1.0 - x) == e2 - e1;
  }

  lemma Distributes(d: real, a: real, b: real)
    ensures d * (a - b) == d * a - d * b
  {
  }

  lemma SizeScales(d: real, big: real, err: real)
    requires 0.0 <= d <= big && 0.0 <= err && err * big <= 1.0
    ensures 0.0 <= d * err <= 1.0
  {
    ProductMonotone(d, big, err);
    ProductMonotone(0.0, d, err);
  }

  lemma Negated(d: real, err: real)
    ensures d * (0.0 - err) == 0.0 - d * err
  {
    Distributes(d, 0.0, err);
  }

  /** An error that a large factor keeps within one, a smaller one does too. */
  lemma ErrorScales(d: real, big: real, err: real)
    requires 0.0 <= d <= big && -1.0 <= err * big <= 1.0
    ensures -1.0 <= d * err <= 1.0
  {
    if err >= 0.0 {
      SizeScales(d, big, err);
    } else {
      Negated(big, err);
      Negated(d, err);
      SizeScales(d, big, 0.0 - err);
    }
  }

  lemma ProductUnfolds(d: int, f: real)
    requires 0 <= d && 0.0 <= f
    ensures 0.0 <= Round(d as real) * f && Product(d, f) == Round(Round(d as real) * f)
  {
    hide Round;
    ProductInRange(d, f);
  }

  lemma ProductExact(d: int, f: real)
    requires 0 < d <= TWO_TO_53 && 0.0 <= f
    ensures 0.0 <= d as real * f && Product(d, f) == Round(d as real * f)
  {
    hide Round, Product;
    RoundOfInteger(d);
    ProductUnfolds(d, f);
    EqualFactors(Round(d as real), d as real, f);
    EqualRounds(Round(d as real) * f, d as real * f);
  }

  lemma EqualRounds(x: real, y: real)
    requires 0.0 <= x && x == y
    ensures Round(x) == Round(y)
  {
  }

  lemma EqualFactors(x: real, y: real, f: real)
    requires x == y
    ensures x * f == y * f
  {
  }

  lemma ShareInRange(d: int, jitter: real, draw: real)
    requires 0 < d && 0.0 <= jitter < 1.0 && 0.0 <= draw < 1.0
    ensures 0.0 <= d as real * (1.0 - jitter * draw)
  {
    ProductBelow(jitter, draw);
    ProductMonotone(0.0, d as real, 1.0 - jitter * draw);
  }

  lemma ProductNear(d: int, jitter: real, draw: real)
    requires 0 < d <= TWO_TO_53 && 0.0 <= jitter < 1.0 && 0.0 <= draw < 1.0
    ensures -0.5 <= Product(d, Scale(jitter, draw)) - d as real * Scale(jitter, draw) <= 0.5
    ensures -1.0 <= d as real * Scale(jitter, draw) - d as real * (1.0 - jitter * draw) <= 1.0
  {
    hide Round, Scale, Product;
    var f := Scale(jitter, draw);
    ScaleNear(jitter, draw);
    ErrorScales(d as real, TWO_TO_53 as real, f - (1.0 - jitter * draw));
    Distributes(d as real, f, 1.0 - jitter * draw);
    ProductExact(d, f);
    ProductBelow(d as real, f);
    RoundErrorBelow53(d as real * f);
  }

  lemma ScaledNear(d: int, jitter: real, draw: real)
    requires 0 < d <= TWO_TO_53 && 0.0 <= jitter < 1.0 && 0.0 <= draw < 1.0
    ensures -3.0 < Scaled(d, Scale(jitter, draw)) as real - d as real * (1.0 - jitter * draw) < 3.0
  {
    hide Product, Scale;
    ProductNear(d, jitter, draw);
    ShareInRange(d, jitter, draw);
    FloorNear(Product(d, Scale(jitter, draw)), d as real * Scale(jitter, draw), d as real * (1.0 - jitter * draw));
  }

  lemma FloorNear(r: real, p: real, q: real)
    requires -0.5 <= r - p <= 0.5 && -1.0 <= p - q <= 1.0 && 0.0 <= q
    ensures -3.0 < (if r.Floor < 1 then 1 else r.Floor) as real - q < 3.0
  {
    var n := r.Floor;
    assert n as real <= r < n as real + 1.0;
    if n < 1 {
      assert n <= 0;
      assert n as real <= 0.0;
    }
  }

  /** A draw of nothing leaves a TTL as it was. */
  lemma UndrawnIsWhole(d: int, jitter: real)
    requires 0 < d <= TWO_TO_53 && 0.0 <= jitter < 1.0
    ensures Scaled(d, Scale(jitter, 0.0)) == d
  {
    assert jitter * 0.0 == 0.0;
    RoundOfInteger(0);
    RoundOfInteger(1);
    RoundOfInteger(d);
    UnscaledIsFloat(d);
  }

  /** Nor does a jitter of nothing. */
  lemma UnjitteredIsWhole(d: int, draw: real)
    requires 0 < d <= TWO_TO_53 && 0.0 <= draw < 1.0
    ensures Scaled(d, Scale(0.0, draw)) == d
  {
    RoundOfInteger(d);
    UnscaledIsFloat(d);
  }

  /**
    For every TTL up to 2^53 ns, override and draw: both levels are asked for what the jitter leaves of
    their TTL, to within three nanoseconds, and for all of it when nothing is drawn.
   */
  lemma WriteKeepsTheRest(ttl: int, l1TTL: int, jitter: real, draw: real)
    requires 0 < ttl <= TWO_TO_53 && 0 < l1TTL && 0.0 <= jitter < 1.0 && 0.0 <= draw < 1.0
    ensures var f := Scale(jitter, draw);
            var short := if ttl <= l1TTL then ttl else l1TTL;
            && -3.0 < LongestTtl(ttl, f) as real - ttl as real * (1.0 - jitter * draw) < 3.0
            && -3.0 < ShortTtl(ttl, l1TTL, f) as real - short as real * (1.0 - jitter * draw) < 3.0
            && (draw == 0.0 ==> LongestTtl(ttl, f) == ttl && ShortTtl(ttl, l1TTL, f) == short)
  {
    hide Scale, Scaled;
    ScaledNear(ttl, jitter, draw);
    ScaledNear(Min(ttl, l1TTL), jitter, draw);
    UndrawnIsWhole(ttl, jitter);
    UndrawnIsWhole(Min(ttl, l1TTL), jitter);
  }

  /** Whatever is drawn, no more than the whole jitter and three nanoseconds are taken from a TTL. */
  lemma ScaledAtLeast(d: int, jitter: real, draw: real)
    requires 0 < d <= TWO_TO_53 && 0.0 <= jitter < 1.0 && 0.0 <= draw < 1.0
    ensures Scaled(d, Scale(jitter, draw)) as real > d as real * (1.0 - jitter) - 3.0
  {
    hide Scale, Scaled;
    ScaledNear(d, jitter, draw);
    ProductBelow(jitter, draw);
    ProductMonotone(1.0 - jitter, 1.0 - jitter * draw, d as real);
    assert d as real * (1.0 - jitter) == (1.0 - jitter) * d as real;
    assert d as real * (1.0 - jitter * draw) == (1.0 - jitter * draw) * d as real;
  }

  /** A backfill writes exactly while the entry has something left, for the smaller of that and the L1 TTL. */
  lemma BackfillTakesTheSmaller(l1TTL: int, expires: int, now: int)
    requires 0 < l1TTL
    ensures BackfillTtl(l1TTL, expires, now).Some? <==> now < expires
    ensures BackfillTtl(l1TTL, expires, now).Some? ==>
              var t := BackfillTtl(l1TTL, expires, now).value;
              0 < t <= l1TTL && now + t <= expires && (t == l1TTL || now + t == expires)
  {
  }
}
