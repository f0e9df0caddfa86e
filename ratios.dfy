/**
 * Match confidences. The source keeps them as `decimal`; the model keeps the exact
 * fraction num/den and compares two fractions by cross-multiplication.
 */
module Ratios {

  datatype Ratio = Ratio(num: int, den: int)

  /** A fraction with a positive denominator. */
  type Confidence = r: Ratio | r.den > 0 witness Ratio(0, 1)

  /** a >= b */
  predicate AtLeast(a: Confidence, b: Confidence) {
    a.num * b.den >= b.num * a.den
  }

  /** a < b */
  predicate Below(a: Confidence, b: Confidence) {
    !AtLeast(a, b)
  }

  /** a == b as numbers (what `decimal` equality compares). */
  predicate SameValue(a: Confidence, b: Confidence) {
    a.num * b.den == b.num * a.den
  }

  /** 0 < a <= 1: the range of every confidence the click resolver records. */
  predicate InUnitRange(a: Confidence) {
    0 < a.num <= a.den
  }

  /** a == 1 */
  predicate IsCertain(a: Confidence) {
    a.num == a.den
  }

  /** a < 1: the test that sends the click resolver one level further down the OCR tree. */
  predicate BelowOne(a: Confidence) {
    a.num < a.den
  }

  /** The value of a fraction as a number. */
  function Value(a: Confidence): real {
    a.num as real / a.den as real
  }

  /** The product of two fractions: its value is the product of their values. */
  function Mul(a: Confidence, b: Confidence): (r: Confidence)
    ensures Value(r) == Value(a) * Value(b)
  {
    PositiveProduct(a.den, b.den);
    Ratio(a.num * b.num, a.den * b.den)
  }

  lemma PositiveProduct(x: int, y: int)
    requires x > 0 && y > 0
    ensures x * y > 0
  {
  }

  lemma MulMonotone(x: int, y: int, k: int)
    requires x <= y && k >= 0
    ensures x * k <= y * k
  {
  }

  lemma MulCancel(x: int, y: int, k: int)
    requires x * k <= y * k && k > 0
    ensures x <= y
  {
  }

  /** `>=` on confidences is transitive. */
  lemma AtLeastTransitive(a: Confidence, b: Confidence, c: Confidence)
    requires AtLeast(a, b) && AtLeast(b, c)
    ensures AtLeast(a, c)
  {
    // b.num * c.den <= c.num * b.den and a.num * b.den >= b.num * a.den
    MulMonotone(b.num * a.den, a.num * b.den, c.den);
    MulMonotone(c.num * b.den, b.num * c.den, a.den);
    assert (c.num * a.den) * b.den <= (a.num * c.den) * b.den by {
      assert b.num * a.den * c.den == b.num * c.den * a.den;
    }
    MulCancel(c.num * a.den, a.num * c.den, b.den);
  }

  /** `>=` on confidences is total. */
  lemma AtLeastTotal(a: Confidence, b: Confidence)
    ensures AtLeast(a, b) || AtLeast(b, a)
  {
  }

  /** The product of two confidences in (0, 1] is in (0, 1]. */
  lemma MulInUnitRange(a: Confidence, b: Confidence)
    requires InUnitRange(a) && InUnitRange(b)
    ensures InUnitRange(Mul(a, b))
  {
    PositiveProduct(a.num, b.num);
    MulMonotone(a.num, a.den, b.num);
    MulMonotone(b.num, b.den, a.den);
  }

  /** Every confidence in (0, 1] is at most a certain one. */
  lemma CertainIsMaximal(a: Confidence, one: Confidence)
    requires InUnitRange(a) && IsCertain(one)
    ensures AtLeast(one, a)
    ensures AtLeast(a, one) ==> IsCertain(a)
  {
    MulMonotone(a.num, a.den, one.den);
    if AtLeast(a, one) {
      MulCancel(a.den, a.num, one.den);
    }
  }

  /** Scaling by a factor in (0, 1] never increases a non-negative confidence. */
  lemma MulAtMost(x: Confidence, y: Confidence)
    requires InUnitRange(x) && y.num >= 0
    ensures AtLeast(y, Mul(x, y))
  {
    MulMonotone(x.num, x.den, y.num * y.den);
    assert y.num * (x.den * y.den) == x.den * (y.num * y.den);
    assert (x.num * y.num) * y.den == x.num * (y.num * y.den);
  }

  /** Numerically equal confidences compare alike against any third one. */
  lemma SameValueCompares(a: Confidence, b: Confidence, c: Confidence)
    requires SameValue(a, b)
    ensures AtLeast(a, c) <==> AtLeast(b, c)
    ensures AtLeast(c, a) <==> AtLeast(c, b)
  {
    // a.num * b.den == b.num * a.den
    assert (a.num * c.den) * b.den == (b.num * c.den) * a.den by {
      assert (a.num * c.den) * b.den == (a.num * b.den) * c.den;
      assert (b.num * c.den) * a.den == (b.num * a.den) * c.den;
    }
    assert (c.num * a.den) * b.den == (c.num * b.den) * a.den;
    if AtLeast(a, c) {
      MulMonotone(c.num * a.den, a.num * c.den, b.den);
      assert (c.num * b.den) * a.den <= (b.num * c.den) * a.den;
      MulCancel(c.num * b.den, b.num * c.den, a.den);
    }
    if AtLeast(b, c) {
      MulMonotone(c.num * b.den, b.num * c.den, a.den);
      MulCancel(c.num * a.den, a.num * c.den, b.den);
    }
    if AtLeast(c, a) {
      MulMonotone(a.num * c.den, c.num * a.den, b.den);
      MulCancel(b.num * c.den, c.num * b.den, a.den);
    }
    if AtLeast(c, b) {
      MulMonotone(b.num * c.den, c.num * b.den, a.den);
      MulCancel(a.num * c.den, c.num * a.den, b.den);
    }
  }
}
