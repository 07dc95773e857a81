/**
 The quantities of resources: signed 64-bit integers with saturating arithmetic
 (pkg/common/resources/resources.go). The machine operations wrap around, and the
 code detects the wrap after the fact. The lemmas say that the detection is exact.
 */
module Quantities {

  const MIN_INT64: int := -0x8000_0000_0000_0000
  const MAX_INT64: int := 0x7FFF_FFFF_FFFF_FFFF
  const TWO_TO_64: int := 0x1_0000_0000_0000_0000

  type Quantity = x: int | MIN_INT64 <= x <= MAX_INT64

  predicate InRange(x: int) {
    MIN_INT64 <= x <= MAX_INT64
  }

  /** Two's complement wrap-around of an exact result. */
  function Wrap(x: int): Quantity {
    (x - MIN_INT64) % TWO_TO_64 + MIN_INT64
  }

  /** The nearest representable value of an exact result. */
  function Clamp(x: int): Quantity {
    if x < MIN_INT64 then MIN_INT64 else if x > MAX_INT64 then MAX_INT64 else x
  }

  /** Division that truncates toward zero; MIN_INT64 / -1 wraps back to MIN_INT64. */
  function TruncDiv(a: Quantity, b: Quantity): Quantity
    requires b != 0
  {
    Wrap(if a >= 0 then a / b else 0 - (0 - a) / b)
  }

  /** Saturating addition: what AddVal computes. */
  function SatAdd(a: Quantity, b: Quantity): Quantity {
    Clamp(a + b)
  }

  /** What SubVal computes: saturating subtraction, except that the smallest quantity has no negation. */
  function SatSub(a: Quantity, b: Quantity): Quantity {
    if b == MIN_INT64 then Clamp(a + b) else Clamp(a - b)
  }

  /** Negation; the smallest quantity wraps back to itself. */
  function Neg(a: Quantity): (r: Quantity)
    ensures r == Wrap(0 - a)
  {
    if a == MIN_INT64 then a else 0 - a
  }

  /** The sign test after a wrapping addition detects exactly the overflows. */
  function AddVal(a: Quantity, b: Quantity): (r: Quantity)
    ensures r == SatAdd(a, b)
  {
    var result := Wrap(a + b);
    if (result < a) != (b < 0) then
      if a < 0 then MIN_INT64 else MAX_INT64
    else
      result
  }

  function SubVal(a: Quantity, b: Quantity): (r: Quantity)
    ensures r == SatSub(a, b)
  {
    AddVal(a, Neg(b))
  }

  /** MIN_INT64 has no negation: subtracting it is the one case that is always wrong. */
  lemma SubValExactIff(a: Quantity, b: Quantity)
    ensures SubVal(a, b) == Clamp(a - b) <==> b != MIN_INT64
  {
  }

  /** Multiplication: the product is divided back to find out if it wrapped. */
  function MulVal(a: Quantity, b: Quantity): Quantity {
    if a == 0 || b == 0 then
      0
    else
      var result := Wrap(a * b);
      if TruncDiv(result, b) != a || (a == MIN_INT64 && b == -1) then
        if (a < 0) != (b < 0) then MIN_INT64 else MAX_INT64
      else
        result
  }

  /** The divide-back test together with the MIN_INT64 * -1 case detects exactly the overflows. */
  lemma MulValExact(a: Quantity, b: Quantity)
    ensures MulVal(a, b) == Clamp(a * b)
  {
    if a != 0 && b != 0 {
      ProductSign(a, b);
      if InRange(a * b) {
        WrapInRange(a * b);
        TruncDivExact(a, b);
      } else if !(a == MIN_INT64 && b == -1) {
        DivideBackDiffers(a, b);
      }
    }
  }

  lemma WrapInRange(x: int)
    requires InRange(x)
    ensures Wrap(x) == x
  {
  }

  /** A wrapped value is a whole number of 64-bit spans away from the exact one. */
  lemma WrapDistance(x: int) returns (spans: int)
    ensures Wrap(x) == x - spans * TWO_TO_64
    ensures InRange(x) <==> spans == 0
  {
    spans := (x - MIN_INT64) / TWO_TO_64;
  }

  lemma ProductSign(a: int, b: int)
    requires a != 0 && b != 0
    ensures a * b != 0
    ensures a * b < 0 <==> (a < 0) != (b < 0)
  {
  }

  lemma TruncDivExact(a: Quantity, b: Quantity)
    requires a != 0 && b != 0 && InRange(a * b)
    ensures TruncDiv(a * b, b) == a
  {
    ProductSign(a, b);
    if a * b >= 0 {
      DivMul(a, b);
    } else {
      assert 0 - a * b == (0 - a) * b;
      DivMul(0 - a, b);
    }
  }

  lemma DivMul(a: int, b: int)
    requires b != 0
    ensures (a * b) / b == a
  {
    var q, r := (a * b) / b, (a * b) % b;
    assert a * b == q * b + r;
    assert (a - q) * b == r;
    if a - q >= 1 {
      MulAtLeast(a - q, b);
    } else if a - q <= -1 {
      MulAtLeast(q - a, b);
    }
  }

  /** A non-zero multiple of b is at least as far from zero as b. */
  lemma MulAtLeast(m: int, b: int)
    requires m >= 1 && b != 0
    ensures b > 0 ==> m * b >= b
    ensures b < 0 ==> m * b <= b
  {
  }

  /** Dividing a product that wrapped cannot give the factor back. */
  lemma DivideBackDiffers(a: Quantity, b: Quantity)
    requires a != 0 && b != 0 && !InRange(a * b)
    requires !(a == MIN_INT64 && b == -1)
    ensures TruncDiv(Wrap(a * b), b) != a
  {
    var result := Wrap(a * b);
    var spans := WrapDistance(a * b);
    var q := if result >= 0 then result / b else 0 - (0 - result) / b;
    TruncRemainder(result, b, q);
    assert result - a * b == 0 - spans * TWO_TO_64;
    if b != -1 {
      QuotientInRange(result, b, q);
    }
    WrapInRange(q);
  }

  lemma TruncRemainder(x: Quantity, b: Quantity, q: int)
    requires b != 0
    requires q == if x >= 0 then x / b else 0 - (0 - x) / b
    ensures -0x8000_0000_0000_0000 <= x - q * b <= 0x8000_0000_0000_0000
  {
    if x >= 0 {
      assert x == q * b + x % b;
    } else {
      assert 0 - x == ((0 - x) / b) * b + (0 - x) % b;
      assert ((0 - x) / b) * b == 0 - q * b;
    }
  }

  lemma QuotientInRange(x: Quantity, b: Quantity, q: int)
    requires b != 0 && b != -1
    requires q == if x >= 0 then x / b else 0 - (0 - x) / b
    ensures InRange(q)
  {
    var y := if x >= 0 then x else 0 - x;
    var p := y / b;
    assert y == p * b + y % b;
    if b >= 1 {
      if p > y { MulAtLeast(b, p); }
    } else if p < -y {
      MulAtLeast(0 - b, 0 - p);
    }
  }
}
