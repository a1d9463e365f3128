/**
 include/cfixcc.h: comparing floating point numbers by the distance of their bit patterns, with the
 wrap-around of the integer types, against the values that section 3.4 of IEEE 754-2008 gives them.
 */
module Ulp {

  const TWO_23: int := 0x80_0000
  const TWO_24: int := 0x100_0000
  const TWO_31: int := 0x8000_0000
  const TWO_32: int := 0x1_0000_0000
  const TWO_63: int := 0x8000_0000_0000_0000
  const TWO_64: int := 0x1_0000_0000_0000_0000

  // LONG and LONGLONG, and the low 31 or 63 bits of a pattern
  type int32 = x: int | -0x8000_0000 <= x < 0x8000_0000
  type int64 = x: int | -0x8000_0000_0000_0000 <= x < 0x8000_0000_0000_0000
  type uint31 = x: int | 0 <= x < 0x8000_0000
  type uint63 = x: int | 0 <= x < 0x8000_0000_0000_0000

  function Wrap32(x: int): int32
  {
    (x + TWO_31) % TWO_32 - TWO_31
  }

  function Wrap64(x: int): int64
  {
    (x + TWO_63) % TWO_64 - TWO_63
  }

  // _abs64, which leaves the smallest value as it is
  function Abs64(x: int64): int64
  {
    if x == -TWO_63 then x else if x < 0 then -x else x
  }

  function Distance(x: int, y: int): nat
  {
    if x < y then y - x else x - y
  }

  /* ---------------------------------------------------------------- encoding */

  // A sign and the bits below it; the exponent field is above `mantissa` bits
  datatype Float = Float(negative: bool, magnitude: uint31)
  datatype Double = Double(negative: bool, magnitude: uint63)

  function Pow2(n: nat): (r: nat)
    ensures r > 0
  {
    if n == 0 then 1 else 2 * Pow2(n - 1)
  }

  // The value of biased exponent `e` and trailing significand `f`, as a multiple of the smallest
  // subnormal number; exponent 0 stands for subnormal numbers, and `unit` is the weight of the
  // implicit bit.
  function Number(unit: nat, e: nat, f: nat): nat
  {
    if e == 0 then f else (unit + f) * Pow2(e - 1)
  }

  // The absolute value of a pattern
  function Scaled(unit: nat, magnitude: nat): nat
    requires unit > 0
  {
    Number(unit, magnitude / unit, magnitude % unit)
  }

  const FLOAT_INFINITY: int := 0x7F80_0000

  predicate IsNan(x: Float) { x.magnitude > FLOAT_INFINITY }

  // The value of a number that is not infinite, with its sign
  function FloatValue(x: Float): int
  {
    if x.negative then 0 - Scaled(TWO_23, x.magnitude) else Scaled(TWO_23, x.magnitude)
  }

  // The bit pattern, read as a LONG or a LONGLONG
  function FloatBits(x: Float): int32
  {
    if x.negative then x.magnitude - TWO_31 else x.magnitude
  }

  function DoubleBits(x: Double): int64
  {
    if x.negative then x.magnitude - TWO_63 else x.magnitude
  }

  /* ---------------------------------------------------------------- the code */

  // 0x80000000 - LhsInt, computed as unsigned int and stored in a LONG
  function Fold32(bits: int32): int32
  {
    if bits < 0 then Wrap32(TWO_31 - bits) else bits
  }

  // The same expression, computed and stored as LONGLONG
  function Fold64(bits: int64): int64
  {
    if bits < 0 then Wrap64(TWO_31 - bits) else bits
  }

  // AlmostEqual2sComplement< float, LONG >
  function AlmostEqualFloat(lhs: Float, rhs: Float, maxUlps: int32): bool
  {
    Abs64(Wrap32(Fold32(FloatBits(lhs)) - Fold32(FloatBits(rhs)))) <= maxUlps
  }

  // AlmostEqual2sComplement< double, LONGLONG >
  function AlmostEqualDouble(lhs: Double, rhs: Double, maxUlps: int64): bool
  {
    Abs64(Wrap64(Fold64(DoubleBits(lhs)) - Fold64(DoubleBits(rhs)))) <= maxUlps
  }

  // CFIXCC_FLOAT_COMPARE_MAX_ULPS
  const MAX_ULPS: int := 10

  // Equal::Relate for two floats
  function RelateFloats(lhs: Float, rhs: Float): bool
  {
    AlmostEqualFloat(lhs, rhs, MAX_ULPS)
  }

  function Key(x: Float): int32 { Fold32(FloatBits(x)) }

  lemma {:induction false} Pow2Sum(m: nat, n: nat)
    ensures Pow2(m + n) == Pow2(m) * Pow2(n)
  {
    if n > 0 {
      Pow2Sum(m, n - 1);
      MulAssoc(Pow2(m), Pow2(n - 1));
    }
  }

  lemma MulAssoc(x: nat, y: nat)
    ensures x * (2 * y) == 2 * (x * y)
  {
  }

  lemma Unit()
    ensures Pow2(23) == 0x80_0000
  {
    assert Pow2(8) == 0x100;
    assert Pow2(16) == 0x1_0000;
  }

  // The pattern of 1 stands for 2^149 times the smallest number, that of 2 for twice as much, and below
  // the smallest normal number, 2^23 times the smallest, patterns and numbers are the same.
  lemma FloatExamples()
    ensures FloatValue(Float(false, 0x3F80_0000)) == Pow2(149)
    ensures FloatValue(Float(true, 0x4000_0000)) == 0 - Pow2(150)
    ensures forall m: uint31 :: m <= 0x80_0000 ==> FloatValue(Float(false, m)) == m
  {
    Unit();
    Pow2Sum(23, 126);
    Pow2Sum(23, 127);
    assert Pow2(0) == 1;
  }

  /* ---------------------------------------------------------------- keys are ordered like values */

  lemma {:induction false} Pow2Monotone(m: nat, n: nat)
    requires m <= n
    ensures Pow2(m) <= Pow2(n)
  {
    if m < n {
      Pow2Monotone(m, n - 1);
    }
  }

  lemma MulMonotone(x: nat, y: nat, f: nat)
    requires x <= y
    ensures x * f <= y * f
  {
  }

  lemma MulStrict(x: nat, y: nat, f: nat)
    requires x < y && f > 0
    ensures x * f < y * f
  {
  }

  lemma DivModOrder(unit: nat, a: nat, b: nat)
    requires unit > 0 && a < b
    ensures a / unit <= b / unit
    ensures a / unit == b / unit ==> a % unit < b % unit
  {
    if a / unit > b / unit {
      MulMonotone(b / unit + 1, a / unit, unit);
    }
  }

  lemma Reorder(p: nat, unit: nat)
    ensures (2 * unit) * p == (2 * p) * unit
  {
  }

  lemma NumberBelow(unit: nat, e: nat, f: nat)
    requires f < unit
    ensures Number(unit, e, f) < Pow2(e) * unit
  {
    if e > 0 {
      var p := Pow2(e - 1);
      MulStrict(unit + f, 2 * unit, p);
      Reorder(p, unit);
    }
  }

  lemma NumberAbove(unit: nat, e: nat, f: nat)
    requires e > 0
    ensures Pow2(e - 1) * unit <= Number(unit, e, f)
  {
    MulMonotone(unit, unit + f, Pow2(e - 1));
  }

  lemma NumberStrict(unit: nat, ea: nat, fa: nat, eb: nat, fb: nat)
    requires fa < unit && fb < unit && (ea < eb || (ea == eb && fa < fb))
    ensures Number(unit, ea, fa) < Number(unit, eb, fb)
  {
    if ea == eb {
      if ea > 0 {
        MulStrict(unit + fa, unit + fb, Pow2(ea - 1));
      }
    } else {
      NumberBelow(unit, ea, fa);
      NumberAbove(unit, eb, fb);
      Pow2Monotone(ea, eb - 1);
      MulMonotone(Pow2(ea), Pow2(eb - 1), unit);
    }
  }

  // Larger patterns stand for larger absolute values, across subnormal and normal numbers.
  lemma {:induction false} ScaledStrict(unit: nat, a: nat, b: nat)
    requires unit > 0 && a < b
    ensures Scaled(unit, a) < Scaled(unit, b)
  {
    DivModOrder(unit, a, b);
    NumberStrict(unit, a / unit, a % unit, b / unit, b % unit);
  }

  lemma KeyIs(x: Float)
    ensures Key(x) == if x.negative then 0 - x.magnitude else x.magnitude
  {
  }

  // The keys of two numbers are in the same order as their values; both zeros have key 0.
  lemma KeyOrder(x: Float, y: Float)
    requires !IsNan(x) && !IsNan(y)
    ensures Key(x) < Key(y) <==> FloatValue(x) < FloatValue(y)
    ensures Key(x) == Key(y) <==> FloatValue(x) == FloatValue(y)
  {
    KeyIs(x);
    KeyIs(y);
    var a, b := x.magnitude, y.magnitude;
    ScaledZero(a);
    ScaledZero(b);
    if a < b {
      ScaledStrict(TWO_23, a, b);
    } else if b < a {
      ScaledStrict(TWO_23, b, a);
    }
  }

  lemma ScaledZero(a: nat)
    ensures Scaled(TWO_23, a) == 0 <==> a == 0
  {
    if a > 0 {
      ScaledStrict(TWO_23, 0, a);
    }
  }

  // Between two keys there is a number for every integer, so their distance counts numbers.
  lemma EveryKeyIsUsed(k: int) returns (x: Float)
    requires -FLOAT_INFINITY <= k <= FLOAT_INFINITY
    ensures !IsNan(x) && Key(x) == k
  {
    x := if k < 0 then Float(true, -k) else Float(false, k);
    KeyIs(x);
  }

  /* ---------------------------------------------------------------- the wrap-around is harmless */

  // For every bound below 2^24 the wrapped comparison decides the true distance of the keys.
  lemma {:induction false} WrapIsHarmless(x: Float, y: Float, maxUlps: int32)
    requires !IsNan(x) && !IsNan(y) && 0 <= maxUlps < TWO_24
    ensures AlmostEqualFloat(x, y, maxUlps) <==> Distance(Key(x), Key(y)) <= maxUlps
  {
    KeyIs(x);
    KeyIs(y);
  }

  // The bound cannot be raised: with 2^24 the two infinities are equal.
  lemma BoundIsSharp()
    ensures AlmostEqualFloat(Float(false, FLOAT_INFINITY), Float(true, FLOAT_INFINITY), TWO_24)
    ensures Distance(Key(Float(false, FLOAT_INFINITY)), Key(Float(true, FLOAT_INFINITY))) > TWO_24
  {
    KeyIs(Float(true, FLOAT_INFINITY));
  }

  lemma Symmetric(x: Float, y: Float, maxUlps: int32)
    requires !IsNan(x) && !IsNan(y) && 0 <= maxUlps < TWO_24
    ensures AlmostEqualFloat(x, y, maxUlps) == AlmostEqualFloat(y, x, maxUlps)
  {
    WrapIsHarmless(x, y, maxUlps);
    WrapIsHarmless(y, x, maxUlps);
  }

  // Equal numbers are related, and so are all numbers between two related ones.
  lemma {:induction false} RelatedIsConvex(x: Float, y: Float, z: Float)
    requires !IsNan(x) && !IsNan(y) && !IsNan(z) && RelateFloats(x, z)
    requires FloatValue(x) <= FloatValue(y) <= FloatValue(z)
    ensures RelateFloats(x, y) && RelateFloats(y, z)
  {
    WrapIsHarmless(x, z, MAX_ULPS);
    WrapIsHarmless(x, y, MAX_ULPS);
    WrapIsHarmless(y, z, MAX_ULPS);
    KeyOrder(x, y);
    KeyOrder(y, z);
  }

  // Two floats are related if and only if at most nine other floats lie between them, and so for their
  // negatives; both zeros count as one.
  lemma RelateFloatsIff(x: Float, y: Float)
    requires !IsNan(x) && !IsNan(y)
    ensures RelateFloats(x, y) <==> Distance(Key(x), Key(y)) <= 10
    ensures RelateFloats(x, y) <==> RelateFloats(Float(!x.negative, x.magnitude), Float(!y.negative, y.magnitude))
    ensures x.negative == y.negative ==> (RelateFloats(x, y) <==> Distance(x.magnitude, y.magnitude) <= 10)
    ensures x.negative != y.negative ==> (RelateFloats(x, y) <==> x.magnitude + y.magnitude <= 10)
  {
    var x', y' := Float(!x.negative, x.magnitude), Float(!y.negative, y.magnitude);
    WrapIsHarmless(x, y, MAX_ULPS);
    WrapIsHarmless(x', y', MAX_ULPS);
    KeyIs(x);
    KeyIs(y);
    KeyIs(x');
    KeyIs(y');
  }

  /* ---------------------------------------------------------------- doubles */

  lemma FoldDouble(x: Double)
    ensures Fold64(DoubleBits(x)) ==
              if !x.negative then x.magnitude
              else if x.magnitude > TWO_31 then TWO_63 + TWO_31 - x.magnitude
              else TWO_31 - x.magnitude - TWO_63
  {
  }

  // A small difference is not changed by wrapping its operands.
  lemma WrappedDifference(a: int, b: int)
    requires -TWO_63 <= a < TWO_64 && -TWO_63 <= b < TWO_64 && -TWO_63 < a - b < TWO_63
    ensures Wrap64(Wrap64(a) - Wrap64(b)) == a - b
  {
  }

  lemma SmallIsUnwrapped(d: int)
    requires -TWO_63 < d < TWO_63
    ensures Wrap64(d) == d
  {
  }

  lemma FoldNegative(x: Double)
    requires x.negative
    ensures Fold64(DoubleBits(x)) == Wrap64(TWO_31 + TWO_63 - x.magnitude)
  {
  }

  // Doubles of the same sign are compared by their true distance.
  lemma {:induction false} SameSign(x: Double, y: Double, maxUlps: int64)
    requires x.negative == y.negative && 0 <= maxUlps
    ensures AlmostEqualDouble(x, y, maxUlps) <==> Distance(x.magnitude, y.magnitude) <= maxUlps
  {
    if x.negative {
      FoldNegative(x);
      FoldNegative(y);
      WrappedDifference(TWO_31 + TWO_63 - x.magnitude, TWO_31 + TWO_63 - y.magnitude);
    } else {
      SmallIsUnwrapped(x.magnitude - y.magnitude);
    }
  }

  lemma MixedSignOrdered(x: Double, y: Double, maxUlps: int64)
    requires !x.negative && y.negative && 0 <= maxUlps < TWO_63 - TWO_31
    ensures var sum := x.magnitude + y.magnitude;
      AlmostEqualDouble(x, y, maxUlps) <==> sum == TWO_31 || Distance(sum, TWO_63 + TWO_31) <= maxUlps
  {
    FoldDouble(x);
    FoldDouble(y);
  }

  lemma AbsOfNegation(d: int)
    requires -TWO_64 < d < TWO_64
    ensures Abs64(Wrap64(d)) == Abs64(Wrap64(-d))
  {
  }

  // Doubles of different sign are reported equal for magnitudes around 2^63 + 2^31, or of sum 2^31,
  // but never because they are close to zero: the constant folds 32-bit patterns only.
  lemma {:induction false} MixedSign(x: Double, y: Double, maxUlps: int64)
    requires x.negative != y.negative && 0 <= maxUlps < TWO_63 - TWO_31
    ensures var sum := x.magnitude + y.magnitude;
      AlmostEqualDouble(x, y, maxUlps) <==> sum == TWO_31 || Distance(sum, TWO_63 + TWO_31) <= maxUlps
  {
    if y.negative {
      MixedSignOrdered(x, y, maxUlps);
    } else {
      MixedSignOrdered(y, x, maxUlps);
      AbsOfNegation(Fold64(DoubleBits(y)) - Fold64(DoubleBits(x)));
    }
  }

  // Equal::Relate for two doubles
  function RelateDoubles(lhs: Double, rhs: Double): bool
  {
    AlmostEqualDouble(lhs, rhs, MAX_ULPS)
  }

  lemma RelateDoublesIff(x: Double, y: Double)
    ensures RelateDoubles(x, y) <==>
              if x.negative == y.negative then Distance(x.magnitude, y.magnitude) <= 10
              else x.magnitude + y.magnitude == 0x8000_0000
                   || Distance(x.magnitude + y.magnitude, 0x8000_0000_8000_0000) <= 10
  {
    if x.negative == y.negative {
      SameSign(x, y, MAX_ULPS);
    } else {
      MixedSign(x, y, MAX_ULPS);
    }
  }

  // The two zeros are not equal, while two numbers of opposite sign with an absolute value above 2 are.
  lemma MixedSignExamples()
    ensures !AlmostEqualDouble(Double(false, 0), Double(true, 0), MAX_ULPS)
    ensures AlmostEqualDouble(Double(false, 0x4000_0000_4000_0000), Double(true, 0x4000_0000_4000_0000), MAX_ULPS)
  {
    MixedSign(Double(false, 0), Double(true, 0), MAX_ULPS);
    MixedSign(Double(false, 0x4000_0000_4000_0000), Double(true, 0x4000_0000_4000_0000), MAX_ULPS);
  }
}
