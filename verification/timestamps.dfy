/** Time bases and timestamp rescaling, after the engine's documented contracts of
    av_inv_q, av_rescale_rnd, av_rescale_q_rnd and av_rescale_q, restricted to the one
    rounding mode the core uses: AV_ROUND_NEAR_INF (to nearest, halves away from zero),
    optionally combined with AV_ROUND_PASS_MINMAX. */
module Timestamps {

  const Int64Min: int := -0x8000_0000_0000_0000
  const Int64Max: int := 0x7FFF_FFFF_FFFF_FFFF
  /** AV_NOPTS_VALUE: "no timestamp". */
  const NoPts: int := Int64Min

  predicate InInt64(x: int) {
    Int64Min <= x <= Int64Max
  }

  /** AVRational: num/den seconds per tick when used as a time base. */
  datatype Rational = Rational(num: int, den: int)

  predicate Positive(q: Rational) {
    q.num > 0 && q.den > 0
  }

  /** A time base a value can be rescaled from: av_rescale_rnd accepts a zero multiplier,
      so a zero numerator (the engine's default time base 0/1) is allowed. */
  predicate Source(q: Rational) {
    q.num >= 0 && q.den > 0
  }

  const Int32Min: int := -0x8000_0000
  const Int32Max: int := 0x7FFF_FFFF

  /** A value a C int holds. */
  predicate InInt32(x: int) {
    Int32Min <= x <= Int32Max
  }

  /** A time base as the engine stores it: a positive fraction of two C ints. */
  predicate ValidTimeBase(q: Rational) {
    Positive(q) && q.num <= Int32Max && q.den <= Int32Max
  }

  /** av_inv_q: the reciprocal. */
  function Inverse(q: Rational): (r: Rational)
    ensures q.num * r.num == q.den * r.den
    ensures Positive(q) <==> Positive(r)
  {
    Rational(q.den, q.num)
  }

  /** r is x/c rounded to the nearest integer, halves away from zero. */
  predicate NearestAwayFromZero(x: int, c: int, r: int) {
    if x >= 0 then 2 * x - c < 2 * r * c <= 2 * x + c
    else 2 * x - c <= 2 * r * c < 2 * x + c
  }

  lemma MulLeftMonotone(k: int, x: int, y: int)
    requires k > 0 && x < y
    ensures k * x < k * y
  {
    assert k * y - k * x == k * (y - x);
  }

  lemma MulNonNegative(x: int, y: int)
    requires x >= 0 && y >= 0
    ensures x * y >= 0
  {
    if x > 0 && y > 0 { MulLeftMonotone(x, 0, y); }
  }

  /** Cancelling a positive factor from a strict inequality. */
  lemma MulLeftCancel(k: int, x: int, y: int)
    requires k > 0 && k * x < k * y
    ensures x < y
  {
    assert k * (y - x) == k * y - k * x;
  }

  /** The rounding interval, stated without the sign split. */
  lemma NearestBounds(x: int, c: int, r: int)
    requires c > 0 && NearestAwayFromZero(x, c, r)
    ensures 2 * x - c <= 2 * c * r <= 2 * x + c
  {
    assert 2 * r * c == 2 * c * r;
  }

  /** Two integers in one rounding interval differ by less than one. */
  lemma NearestNotAbove(x: int, c: int, r1: int, r2: int)
    requires c > 0
    requires NearestAwayFromZero(x, c, r1) && NearestAwayFromZero(x, c, r2)
    ensures r2 <= r1
  {
    assert 2 * r1 * c == 2 * c * r1 && 2 * r2 * c == 2 * c * r2;
    // one of the two interval ends is open, so 2c * r2 < 2c * r1 + 2c
    assert 2 * c * r2 < 2 * c * (r1 + 1);
    MulLeftCancel(2 * c, r2, r1 + 1);
  }

  /** The rounding is a function: at most one integer is the nearest. */
  lemma NearestIsUnique(x: int, c: int, r1: int, r2: int)
    requires c > 0
    requires NearestAwayFromZero(x, c, r1) && NearestAwayFromZero(x, c, r2)
    ensures r1 == r2
  {
    NearestNotAbove(x, c, r1, r2);
    NearestNotAbove(x, c, r2, r1);
  }

  /** The non-negative branch of av_rescale_rnd for AV_ROUND_NEAR_INF: (n + c/2) / c. */
  function RoundHalfUp(n: nat, c: int): nat
    requires c > 0
  {
    (n + c / 2) / c
  }

  /** (n + c/2) / c is n/c rounded to nearest, halves up. */
  lemma HalfUpIsNearest(n: nat, c: int)
    requires c > 0
    ensures NearestAwayFromZero(n, c, RoundHalfUp(n, c))
  {
    var h := c / 2;
    var r := (n + h) / c;
    var p := c * r;
    assert p <= n + h < p + c by {
      assert n + h == p + (n + h) % c;
    }
    assert 2 * r * c == 2 * p;
    assert 2 * h == c || 2 * h + 1 == c;
    // when c is odd, 2 * n - c is odd and cannot equal 2 * p
  }

  /** Rounding halves away from zero is symmetric: -x rounds to the negated rounding of x. */
  lemma NearestNegated(x: int, c: int, r: int)
    requires c > 0 && x >= 0 && NearestAwayFromZero(x, c, r)
    ensures NearestAwayFromZero(-x, c, -r)
  {
    if x == 0 {
      NearestOfExactMultiple(0, c);
      NearestIsUnique(0, c, r, 0);
    } else {
      assert 2 * (-r) * c == -(2 * r * c);
    }
  }

  /** FFMAX(a, -INT64_MAX): av_rescale_rnd treats INT64_MIN as -INT64_MAX. */
  function Saturate(a: int): int {
    if a < -Int64Max then -Int64Max else a
  }

  /** The values that AV_ROUND_PASS_MINMAX returns unchanged. */
  predicate PassedThrough(a: int, passMinMax: bool) {
    passMinMax && (a == Int64Min || a == Int64Max)
  }

  /** av_rescale_rnd(a, b, c, AV_ROUND_NEAR_INF [| AV_ROUND_PASS_MINMAX]): a * b / c rounded
      to nearest with halves away from zero; negative a is handled as -rescale(-a). A
      non-positive divisor or a negative multiplier gives INT64_MIN, before anything is
      passed through. */
  function RescaleRnd(a: int, b: int, c: int, passMinMax: bool): (r: int)
    requires InInt64(a)
    ensures c <= 0 || b < 0 ==> r == Int64Min
    ensures c > 0 && b >= 0 && PassedThrough(a, passMinMax) ==> r == a
  {
    if c <= 0 || b < 0 then Int64Min
    else if PassedThrough(a, passMinMax) then a
    else if a < 0 then
      var m := -Saturate(a);
      MulNonNegative(m, b);
      var up: int := RoundHalfUp(m * b, c);
      -up
    else
      MulNonNegative(a, b);
      RoundHalfUp(a * b, c)
  }

  /** Any value that is not passed through comes back as a * b / c rounded to nearest,
      halves away from zero, with INT64_MIN read as -INT64_MAX. */
  lemma RescaleRndRounds(a: int, b: int, c: int, passMinMax: bool)
    requires InInt64(a) && b >= 0 && c > 0 && !PassedThrough(a, passMinMax)
    ensures NearestAwayFromZero(Saturate(a) * b, c, RescaleRnd(a, b, c, passMinMax))
  {
    if a < 0 {
      var m := -Saturate(a);
      MulNonNegative(m, b);
      assert Saturate(a) * b == -(m * b);
      HalfUpIsNearest(m * b, c);
      NearestNegated(m * b, c, RoundHalfUp(m * b, c));
    } else {
      MulNonNegative(a, b);
      HalfUpIsNearest(a * b, c);
    }
  }

  /** The time bases av_rescale_q_rnd can rescale between: the multiplier bq.num * cq.den is
      not negative and the divisor cq.num * bq.den is positive. */
  predicate Rescalable(bq: Rational, cq: Rational) {
    bq.num * cq.den >= 0 && cq.num * bq.den > 0
  }

  /** A source time base and a positive target can always be rescaled between. */
  lemma SourceIsRescalable(bq: Rational, cq: Rational)
    requires Source(bq) && Positive(cq)
    ensures Rescalable(bq, cq)
  {
    MulNonNegative(bq.num, cq.den);
    MulLeftMonotone(cq.num, 0, bq.den);
  }

  /** av_rescale_q_rnd(a, bq, cq, rnd) = av_rescale_rnd(a, bq.num * cq.den, cq.num * bq.den, rnd):
      a value counted in ticks of bq, re-counted in ticks of cq; INT64_MIN when the two
      cannot be rescaled between. */
  function RescaleQRnd(a: int, bq: Rational, cq: Rational, passMinMax: bool): (r: int)
    requires InInt64(a)
    ensures !Rescalable(bq, cq) ==> r == Int64Min
    ensures Rescalable(bq, cq) && PassedThrough(a, passMinMax) ==> r == a
  {
    RescaleRnd(a, bq.num * cq.den, cq.num * bq.den, passMinMax)
  }

  /** The rounding of av_rescale_q_rnd, for a value that is not passed through. */
  lemma RescaleQRndRounds(a: int, bq: Rational, cq: Rational, passMinMax: bool)
    requires InInt64(a) && Rescalable(bq, cq) && !PassedThrough(a, passMinMax)
    ensures cq.num * bq.den > 0
    ensures NearestAwayFromZero(Saturate(a) * (bq.num * cq.den), cq.num * bq.den,
      RescaleQRnd(a, bq, cq, passMinMax))
  {
    RescaleRndRounds(a, bq.num * cq.den, cq.num * bq.den, passMinMax);
  }

  /** av_rescale_q: AV_ROUND_NEAR_INF without AV_ROUND_PASS_MINMAX. */
  function RescaleQ(a: int, bq: Rational, cq: Rational): (r: int)
    requires InInt64(a)
    ensures !Rescalable(bq, cq) ==> r == Int64Min
  {
    RescaleQRnd(a, bq, cq, false)
  }

  /** The rounding of av_rescale_q, for every int64 value. */
  lemma RescaleQRounds(a: int, bq: Rational, cq: Rational)
    requires InInt64(a) && Rescalable(bq, cq)
    ensures NearestAwayFromZero(Saturate(a) * (bq.num * cq.den), cq.num * bq.den,
      RescaleQ(a, bq, cq))
  {
    RescaleQRndRounds(a, bq, cq, false);
  }

  /** Rescaling between equal time bases changes nothing (INT64_MIN excepted when it is
      not passed through: av_rescale_rnd reads it as -INT64_MAX). */
  lemma RescaleSameBaseIsIdentity(a: int, q: Rational, passMinMax: bool)
    requires InInt64(a) && Positive(q)
    requires a != Int64Min || passMinMax
    ensures RescaleQRnd(a, q, q, passMinMax) == a
  {
    SourceIsRescalable(q, q);
    var r := RescaleQRnd(a, q, q, passMinMax);
    if !PassedThrough(a, passMinMax) {
      RescaleQRndRounds(a, q, q, passMinMax);
      var c := q.num * q.den;
      MulLeftMonotone(q.num, 0, q.den);
      assert Saturate(a) == a;
      assert a * (q.num * q.den) == a * c;
      NearestOfExactMultiple(a, c);
      NearestIsUnique(a * c, c, r, a);
    }
  }

  lemma NearestOfExactMultiple(a: int, c: int)
    requires c > 0
    ensures NearestAwayFromZero(a * c, c, a)
  {
    assert 2 * a * c == 2 * (a * c);
  }

  /** Rounding to nearest never reorders two values. */
  lemma NearestIsMonotone(x1: int, x2: int, c: int, r1: int, r2: int)
    requires c > 0 && x1 <= x2
    requires NearestAwayFromZero(x1, c, r1) && NearestAwayFromZero(x2, c, r2)
    ensures r1 <= r2
  {
    if x1 == x2 {
      NearestIsUnique(x1, c, r1, r2);
    } else {
      NearestBounds(x1, c, r1);
      NearestBounds(x2, c, r2);
      assert 2 * c * r1 < 2 * c * (r2 + 1);
      MulLeftCancel(2 * c, r1, r2 + 1);
    }
  }

  /** Rescaling is monotone: it never reorders two timestamps (away from the two values
      that AV_ROUND_PASS_MINMAX passes through). */
  lemma RescaleIsMonotone(a1: int, a2: int, bq: Rational, cq: Rational, passMinMax: bool)
    requires InInt64(a1) && InInt64(a2) && Source(bq) && Positive(cq)
    requires !PassedThrough(a1, passMinMax) && !PassedThrough(a2, passMinMax)
    requires a1 <= a2
    ensures RescaleQRnd(a1, bq, cq, passMinMax) <= RescaleQRnd(a2, bq, cq, passMinMax)
  {
    var b := bq.num * cq.den;
    var c := cq.num * bq.den;
    if bq.num > 0 { MulLeftMonotone(bq.num, 0, cq.den); }
    MulLeftMonotone(cq.num, 0, bq.den);
    SourceIsRescalable(bq, cq);
    var s1, s2 := Saturate(a1), Saturate(a2);
    if s1 < s2 && b > 0 { MulLeftMonotone(b, s1, s2); }
    assert b * s1 <= b * s2;
    assert s1 * b <= s2 * b;
    RescaleQRndRounds(a1, bq, cq, passMinMax);
    RescaleQRndRounds(a2, bq, cq, passMinMax);
    NearestIsMonotone(s1 * b, s2 * b, c,
      RescaleQRnd(a1, bq, cq, passMinMax), RescaleQRnd(a2, bq, cq, passMinMax));
  }

  /** From a time base with a zero numerator every value rescales to 0 (the two
      AV_ROUND_PASS_MINMAX values excepted). */
  lemma RescaleFromZeroBase(a: int, bq: Rational, cq: Rational, passMinMax: bool)
    requires InInt64(a) && Source(bq) && bq.num == 0 && Positive(cq)
    requires !PassedThrough(a, passMinMax)
    ensures RescaleQRnd(a, bq, cq, passMinMax) == 0
  {
    var c := cq.num * bq.den;
    MulLeftMonotone(cq.num, 0, bq.den);
    assert Saturate(a) * (bq.num * cq.den) == 0;
    SourceIsRescalable(bq, cq);
    RescaleQRndRounds(a, bq, cq, passMinMax);
    NearestOfExactMultiple(0, c);
    NearestIsUnique(0, c, RescaleQRnd(a, bq, cq, passMinMax), 0);
  }
}
