/**
 Casts between integers and binary floating-point numbers (IEEE 754-2008, section 3.3) that do not lose
 anything, and what they return.
 */
module LosslessCast {
  import opened Basics
  import opened Powers

  /** binary32 and binary64. */
  datatype Format = Float | Double

  /** int32_t and int64_t. */
  datatype Width = Int32 | Int64

  /** The number of bits of a significand. */
  function Precision(f: Format): nat {
    match f case Float => 24 case Double => 53
  }

  /** The number of bits of an integer besides its sign. */
  function Bits(w: Width): nat {
    match w case Int32 => 31 case Int64 => 63
  }

  function Min(w: Width): int {
    match w case Int32 => -2_147_483_648 case Int64 => -9_223_372_036_854_775_808
  }

  function Max(w: Width): int {
    match w case Int32 => 2_147_483_647 case Int64 => 9_223_372_036_854_775_807
  }

  predicate InRange(v: int, w: Width) {
    Min(w) <= v <= Max(w)
  }

  /** A floating-point datum; `Finite(s, e)` stands for s * 2^e. */
  datatype Datum = Finite(significand: int, exponent: int) | PositiveInfinity | NegativeInfinity | NotANumber

  function Abs(x: int): nat {
    if x < 0 then -x else x
  }

  /** The data of a format. */
  predicate IsDatum(x: Datum, f: Format) {
    x.Finite? ==>
      Abs(x.significand) < Pow2(Precision(f)) &&
      match f
      case Float => -149 <= x.exponent <= 104
      case Double => -1074 <= x.exponent <= 971
  }

  /** No fractional part. */
  predicate IsIntegral(x: Datum) {
    x.Finite? && (x.exponent < 0 ==> x.significand % Pow2(-x.exponent) == 0)
  }

  function IntegerValue(x: Datum): int
    requires IsIntegral(x)
  {
    if x.exponent >= 0 then x.significand * Pow2(x.exponent) else x.significand / Pow2(-x.exponent)
  }

  /** The datum is the number `v`, by multiplications alone. */
  ghost predicate IsNumber(x: Datum, v: int) {
    x.Finite? &&
    if x.exponent < 0 then x.significand == v * Pow2(-x.exponent) else v == x.significand * Pow2(x.exponent)
  }

  // ---------------------------------------------------------------- floating point to integer

  /** The least boundary value: the greatest negative value of the format below the range, written out. */
  function LowerBoundary(f: Format, w: Width): int {
    match (f, w)
    case (Float, Int32) => -2_147_483_904
    case (Double, Int32) => -2_147_483_649
    case (Float, Int64) => -9_223_373_136_366_403_584
    case (Double, Int64) => -9_223_372_036_854_777_856
  }

  function UpperBoundary(w: Width): int {
    match w case Int32 => 2_147_483_648 case Int64 => 9_223_372_036_854_775_808
  }

  /**
   The floating-point to integral cast: infinities have no fractional part, but exceed the boundaries; modf
   of NaN is not zero.
   */
  function FloatToInt(x: Datum, f: Format, w: Width): Option<int> {
    if x.Finite? && IsIntegral(x) then
      var v := IntegerValue(x);
      if v >= UpperBoundary(w) || v <= LowerBoundary(f, w) then None else Some(v)
    else None
  }

  lemma {:induction false} LargePowers()
    ensures Pow2(8) == 256 && Pow2(11) == 2048 && Pow2(24) == 16_777_216 && Pow2(31) == 2_147_483_648
    ensures Pow2(40) == 1_099_511_627_776 && Pow2(53) == 9_007_199_254_740_992 && Pow2(63) == 9_223_372_036_854_775_808
  {
    assert Pow2(8) == 256;
    assert Pow2(16) == 65_536 by { Pow2Product(8, 8); }
    Pow2Product(3, 8);
    Pow2Product(16, 8);
    Pow2Product(7, 24);
    Pow2Product(16, 24);
    Pow2Product(40, 13);
    assert Pow2(13) == 8192;
    assert Pow2(10) == 1024;
    Pow2Product(53, 10);
  }

  lemma ProductsGrow(a: nat, b: nat, c: nat)
    requires a <= b
    ensures a * c <= b * c
  {
  }

  lemma AbsProduct(s: int, d: nat)
    ensures Abs(s * d) == Abs(s) * d
  {
  }

  /** A datum of `p` bits of significand beyond 2^n has at least the exponent n - p + 1. */
  lemma ExponentBeyond(s: int, e: nat, p: nat, n: nat)
    requires Abs(s) < Pow2(p) && p <= n && Abs(s * Pow2(e)) > Pow2(n)
    ensures e >= n - p + 1
  {
    AbsProduct(s, Pow2(e));
    ProductsGrow(Abs(s), Pow2(p), Pow2(e));
    Pow2Product(p, e);
    Pow2Less(n, p + e);
  }

  lemma MultipleOfLess(s: int, e: nat, k: nat)
    requires k <= e
    ensures s * Pow2(e) == s * Pow2(e - k) * Pow2(k)
  {
    Pow2Product(e - k, k);
    Associate(s, Pow2(e - k), Pow2(k));
  }

  lemma Associate(a: int, b: int, c: int)
    ensures a * (b * c) == a * b * c
  {
  }

  /** Neighbouring multiples have no multiple between them. */
  lemma MultiplesApart(k: int, unit: nat, q: int)
    ensures !(q * unit < k * unit < q * unit + unit)
  {
    if k > q {
      ProductsGrow(1, k - q, unit);
      assert k * unit == (k - q) * unit + q * unit;
    } else {
      ProductsGrow(0, q - k, unit);
      assert q * unit == (q - k) * unit + k * unit;
    }
  }

  /** The magnitude of a datum with a negative exponent is below 2^p. */
  lemma SmallQuotient(s: int, d: nat, bound: nat)
    requires d > 0 && s % d == 0 && Abs(s) < bound
    ensures Abs(s / d) < bound
  {
    var q := s / d;
    assert s == q * d;
    assert Abs(s) == Abs(q) * d;
    ProductsGrow(1, d, Abs(q));
  }

  lemma SameFactor(a: int, b: int, d: nat)
    requires d > 0 && a * d == b * d
    ensures a == b
  {
    if a < b {
      assert (b - a) * d == 0;
      ProductsGrow(1, b - a, d);
    } else if a > b {
      assert (a - b) * d == 0;
      ProductsGrow(1, a - b, d);
    }
  }

  lemma ExactQuotient(s: int, d: nat, v: int)
    requires d > 0
    ensures s == v * d <==> s % d == 0 && v == s / d
  {
    var q := s / d;
    assert s == q * d + s % d;
    if s == v * d {
      MultiplesApart(v, d, q);
      SameFactor(v, q, d);
    }
  }

  lemma NumberIsIntegerValue(x: Datum, v: int)
    ensures IsNumber(x, v) <==> IsIntegral(x) && v == IntegerValue(x)
  {
    if x.Finite? && x.exponent < 0 {
      ExactQuotient(x.significand, Pow2(-x.exponent), v);
    }
  }

  /** No number of the format lies between the boundary and the least integer. */
  lemma BoundaryIsNeighbour(x: Datum, f: Format, w: Width, v: int)
    requires IsDatum(x, f) && IsNumber(x, v)
    ensures !(LowerBoundary(f, w) < v < Min(w))
  {
    LargePowers();
    NumberIsIntegerValue(x, v);
    var p, n := Precision(f), Bits(w);
    if LowerBoundary(f, w) < v < Min(w) {
      if x.exponent < 0 {
        SmallQuotient(x.significand, Pow2(-x.exponent), Pow2(p));
      } else if p <= n {
        ExponentBeyond(x.significand, x.exponent, p, n);
        MultipleOfLess(x.significand, x.exponent, n - p + 1);
        MultiplesApart(x.significand * Pow2(x.exponent - (n - p + 1)), Pow2(n - p + 1),
                       LowerBoundary(f, w) / Pow2(n - p + 1));
      }
    }
  }

  /** The boundary is itself a number of the format, below the range. */
  lemma BoundaryIsDatum(f: Format, w: Width) returns (x: Datum)
    ensures IsDatum(x, f) && IsNumber(x, LowerBoundary(f, w)) && LowerBoundary(f, w) < Min(w)
  {
    LargePowers();
    match (f, w)
    case (Float, Int32) => x := Finite(-8_388_609, 8);
    case (Double, Int32) => x := Finite(-2_147_483_649, 0);
    case (Float, Int64) => x := Finite(-8_388_609, 40);
    case (Double, Int64) => x := Finite(-4_503_599_627_370_497, 11);
  }

  /** The cast returns `v` exactly when `v` is in the range of the target and the datum is the number `v`. */
  lemma FloatToIntLossless(x: Datum, f: Format, w: Width, v: int)
    requires IsDatum(x, f)
    ensures FloatToInt(x, f, w) == Some(v) <==> InRange(v, w) && IsNumber(x, v)
  {
    NumberIsIntegerValue(x, v);
    if IsNumber(x, v) {
      BoundaryIsNeighbour(x, f, w, v);
    }
  }

  // ---------------------------------------------------------------- integer to floating point

  /** The exponent of the last of `p` bits of `m`. */
  function Ulp(m: nat, p: nat): nat {
    if Log2(m) + 1 > p then Log2(m) + 1 - p else 0
  }

  /** `m` rounded to `p` bits, ties to even. */
  function Round(m: nat, p: nat): nat {
    RoundTo(m, Pow2(Ulp(m, p)))
  }

  /** The nearest multiple of the unit; of two at the same distance the even one. */
  function RoundTo(m: nat, unit: nat): nat
    requires unit > 0
  {
    (if RoundsUp(m, unit) then m / unit + 1 else m / unit) * unit
  }

  predicate RoundsUp(m: nat, unit: nat)
    requires unit > 0
  {
    2 * (m % unit) > unit || (2 * (m % unit) == unit && m / unit % 2 == 1)
  }

  function RoundInt(v: int, p: nat): int {
    var r := Round(Abs(v), p);
    if v < 0 then 0 - r else r
  }

  /** What the cast to floating point gives; the check casts back, which is undefined for values out of range. */
  datatype Cast = Undefined | Lossy | Exact(value: int)

  function IntToFloat(v: int, w: Width, f: Format): Cast {
    var rounded := RoundInt(v, Precision(f));
    if !InRange(rounded, w) then Undefined else if rounded == v then Exact(rounded) else Lossy
  }

  /** `m` needs no more than `p` bits. */
  ghost predicate Representable(m: nat, p: nat) {
    exists s: nat, e: nat :: IsProduct(m, s, e) && s < Pow2(p)
  }

  predicate IsProduct(m: nat, s: nat, e: nat) {
    m == s * Pow2(e)
  }

  lemma RoundedDown(m: nat, unit: nat)
    requires unit > 0
    ensures m == m / unit * unit + m % unit
    ensures (m / unit + 1) * unit > m
    ensures m / unit * unit == m <==> m % unit == 0
  {
    ProductsGrow(m / unit, m / unit + 1, unit);
    assert (m / unit + 1) * unit == m / unit * unit + unit;
  }

  lemma RoundExact(m: nat, p: nat)
    ensures Round(m, p) == m <==> m % Pow2(Ulp(m, p)) == 0
  {
    RoundedDown(m, Pow2(Ulp(m, p)));
  }

  /** The significand of a number cut to `p` bits fits them. */
  lemma CutFits(m: nat, p: nat)
    ensures m / Pow2(Ulp(m, p)) < Pow2(p)
  {
    if m > 0 {
      Log2Bounds(m);
    }
    var k := Ulp(m, p);
    Pow2Product(p, k);
    Pow2Monotone(Log2(m) + 1, p + k);
    assert m < Pow2(p) * Pow2(k);
    QuotientBelow(m, Pow2(p), Pow2(k));
  }

  lemma QuotientBelow(m: nat, bound: nat, d: nat)
    requires d > 0 && m < bound * d
    ensures m / d < bound
  {
    if m / d >= bound {
      ProductsGrow(bound, m / d, d);
      RoundedDown(m, d);
    }
  }

  lemma DividesProduct(s: nat, e: nat, k: nat)
    requires k <= e
    ensures s * Pow2(e) % Pow2(k) == 0
  {
    MultipleOfLess(s, e, k);
    var q, d := s * Pow2(e - k), Pow2(k);
    RoundedDown(q * d, d);
    MultiplesApart(q, d, q * d / d);
  }

  /** A number is what it is rounded to exactly when it needs no more than `p` bits. */
  lemma RoundIffRepresentable(m: nat, p: nat)
    ensures Round(m, p) == m <==> Representable(m, p)
  {
    RoundExact(m, p);
    var k := Ulp(m, p);
    if m % Pow2(k) == 0 {
      CutFits(m, p);
      RoundedDown(m, Pow2(k));
      assert IsProduct(m, m / Pow2(k), k);
    }
    if Representable(m, p) && k > 0 && m > 0 {
      var s: nat, e: nat :| IsProduct(m, s, e) && s < Pow2(p);
      RepresentedBeyond(m, p, s, e);
      DividesProduct(s, e, k);
    }
  }

  lemma CutAtLeast(m: nat, c: nat, d: nat)
    requires d > 0 && m >= c * d
    ensures m / d * d >= c * d
  {
    RoundedDown(m, d);
    if m / d < c {
      ProductsGrow(m / d + 1, c, d);
    } else {
      ProductsGrow(c, m / d, d);
    }
  }

  /** Cutting a number to `p` bits keeps its first bit. */
  lemma LeadingBitStays(m: nat, p: nat)
    requires m > 0 && p > 0
    ensures m / Pow2(Ulp(m, p)) * Pow2(Ulp(m, p)) >= Pow2(Log2(m))
  {
    Log2Bounds(m);
    var l, k := Log2(m), Ulp(m, p);
    Pow2Product(l - k, k);
    CutAtLeast(m, Pow2(l - k), Pow2(k));
  }

  /** A number of `p` bits that is not below the first bit of `m` is a multiple of the last unit of `m`. */
  lemma MultipleOfUnit(m: nat, p: nat, r: nat) returns (c: nat)
    requires m > 0 && p > 0 && Representable(r, p) && r >= Pow2(Log2(m))
    ensures r == c * Pow2(Ulp(m, p))
  {
    var k := Ulp(m, p);
    if k == 0 {
      c := r;
    } else {
      var s: nat, e: nat :| IsProduct(r, s, e) && s < Pow2(p);
      RepresentedBeyond(r, p, s, e);
      Log2Bounds(r);
      Pow2Less(Log2(m), Log2(r) + 1);
      MultipleOfLess(s, e, k);
      c := s * Pow2(e - k);
    }
  }

  /** No number of `p` bits lies between `m` and the multiples of its last unit on either side. */
  lemma NoneBetween(m: nat, p: nat, r: nat)
    requires p > 0 && Representable(r, p)
    ensures var unit := Pow2(Ulp(m, p)); !(m / unit * unit < r < m / unit * unit + unit)
  {
    var unit := Pow2(Ulp(m, p));
    if m > 0 && m / unit * unit < r {
      LeadingBitStays(m, p);
      var c := MultipleOfUnit(m, p, r);
      MultiplesApart(c, unit, m / unit);
    }
  }

  /** The nearest multiple, and of two the even one, seen from any number not between the two around `m`. */
  lemma RoundToNearest(m: nat, unit: nat, r: nat)
    requires unit > 0 && !(m / unit * unit < r < m / unit * unit + unit)
    ensures Abs(m - RoundTo(m, unit)) <= Abs(m - r)
    ensures r != RoundTo(m, unit) && Abs(m - RoundTo(m, unit)) == Abs(m - r) ==> RoundTo(m, unit) / unit % 2 == 0
  {
    RoundedDown(m, unit);
    var q := m / unit;
    assert (q + 1) * unit == q * unit + unit;
    ExactQuotient((q + 1) * unit, unit, q + 1);
    ExactQuotient(q * unit, unit, q);
  }

  /** No number of `p` bits is nearer, and of two at the same distance the one with an even significand is taken. */
  lemma RoundIsNearest(m: nat, p: nat, r: nat)
    requires p > 0 && Representable(r, p)
    ensures Abs(m - Round(m, p)) <= Abs(m - r)
    ensures r != Round(m, p) && Abs(m - Round(m, p)) == Abs(m - r) ==> Round(m, p) / Pow2(Ulp(m, p)) % 2 == 0
  {
    NoneBetween(m, p, r);
    RoundToNearest(m, Pow2(Ulp(m, p)), r);
  }

  lemma RepresentedBeyond(m: nat, p: nat, s: nat, e: nat)
    requires m > 0 && IsProduct(m, s, e) && s < Pow2(p)
    ensures e >= Ulp(m, p)
  {
    Log2Bounds(m);
    Strictly(s, Pow2(p), Pow2(e));
    Pow2Product(p, e);
    Pow2Less(Log2(m), p + e);
  }

  lemma Strictly(a: nat, b: nat, c: nat)
    requires a < b && c > 0
    ensures a * c < b * c
  {
    ProductsGrow(a + 1, b, c);
    assert (a + 1) * c == a * c + c;
  }

  /** The cast returns a value only for integers that the format represents, and that value is the integer. */
  lemma IntToFloatLossless(v: int, w: Width, f: Format)
    requires InRange(v, w)
    ensures IntToFloat(v, w, f) == Exact(v) <==> Representable(Abs(v), Precision(f))
    ensures IntToFloat(v, w, f).Exact? ==> IntToFloat(v, w, f) == Exact(v)
  {
    RoundIffRepresentable(Abs(v), Precision(f));
  }

  /** Casting an integer to floating point and back, when the first cast returns a value, gives the integer. */
  lemma CastRoundTrip(v: int, w: Width, f: Format, x: Datum)
    requires InRange(v, w) && IntToFloat(v, w, f).Exact?
    requires IsDatum(x, f) && IsNumber(x, IntToFloat(v, w, f).value)
    ensures FloatToInt(x, f, w) == Some(v)
  {
    IntToFloatLossless(v, w, f);
    FloatToIntLossless(x, f, w, v);
  }

  lemma UlpSmall(m: nat, p: nat, n: nat)
    requires 0 < m <= Pow2(n)
    ensures Ulp(m, p) <= n + 1
  {
    Log2Bounds(m);
    Pow2Less(Log2(m), n + 1);
  }

  /** A magnitude that needs no more bits than the format has is a datum of the format, with either sign. */
  lemma RoundedIsDatum(v: int, w: Width, f: Format) returns (x: Datum)
    requires InRange(v, w) && v != 0 && Round(Abs(v), Precision(f)) == Abs(v)
    ensures IsDatum(x, f) && IsNumber(x, v)
  {
    var m, p := Abs(v), Precision(f);
    var k := Ulp(m, p);
    CutFits(m, p);
    RoundExact(m, p);
    RoundedDown(m, Pow2(k));
    RangeIsPower(w);
    UlpSmall(m, p, Bits(w));
    var q := m / Pow2(k);
    x := Finite(if v < 0 then -q else q, k);
    assert -q * Pow2(k) == -(q * Pow2(k));
  }

  /** Of every integer for which the cast returns a value there is a datum of the format, which is cast back. */
  lemma ExactCastsBack(v: int, w: Width, f: Format) returns (x: Datum)
    requires InRange(v, w) && IntToFloat(v, w, f).Exact?
    ensures IsDatum(x, f) && IsNumber(x, v) && FloatToInt(x, f, w) == Some(v)
  {
    if v == 0 {
      x := Finite(0, 0);
      assert IsNumber(x, 0);
    } else {
      x := RoundedIsDatum(v, w, f);
    }
    FloatToIntLossless(x, f, w, v);
  }

  // ---------------------------------------------------------------- when casting back is undefined

  lemma Log2Of(m: nat, l: nat)
    requires Pow2(l) <= m < Pow2(l + 1)
    ensures Log2(m) == l
  {
    Log2Bounds(m);
    Pow2Less(l, Log2(m) + 1);
    Pow2Less(Log2(m), l + 1);
  }

  lemma RoundToAtMost(m: nat, unit: nat, bound: nat)
    requires unit > 0 && m / unit < bound
    ensures RoundTo(m, unit) <= bound * unit
  {
    ProductsGrow(if RoundsUp(m, unit) then m / unit + 1 else m / unit, bound, unit);
  }

  lemma RoundToOne(m: nat)
    ensures RoundTo(m, 1) == m
  {
    assert m % 1 == 0 && m / 1 == m;
  }

  lemma RoundAtMost(m: nat, p: nat)
    requires m > 0
    ensures Round(m, p) <= Pow2(Log2(m) + 1)
  {
    var k := Ulp(m, p);
    if k == 0 {
      RoundToOne(m);
      Log2Bounds(m);
    } else {
      CutFits(m, p);
      RoundToAtMost(m, Pow2(k), Pow2(p));
      Pow2Product(p, k);
    }
  }

  /** Below the even multiple `even` of the unit `2 * half`, rounding reaches it from half a unit on. */
  lemma RoundsToTop(m: nat, even: nat, half: nat)
    requires half > 0 && even > 0 && even % 2 == 0
    requires m < even * (2 * half)
    ensures RoundTo(m, 2 * half) >= even * (2 * half) <==> m >= even * (2 * half) - half
  {
    var unit := 2 * half;
    var q, r := m / unit, m % unit;
    RoundedDown(m, unit);
    QuotientBelow(m, even, unit);
    assert (even - 1) * unit == even * unit - unit;
    if q < even - 1 {
      ProductsGrow(q + 1, even - 1, unit);
    } else {
      assert q == even - 1;
    }
  }

  lemma TopRound(v: nat, n: nat, p: nat)
    requires 0 < p < n && Pow2(n - 1) <= v < Pow2(n)
    ensures Round(v, p) >= Pow2(n) <==> v >= Pow2(n) - Pow2(n - p - 1)
  {
    Log2Of(v, n - 1);
    UnitAtTop(n, p);
    RoundsToTop(v, Pow2(p), Pow2(n - p - 1));
  }

  lemma UnitAtTop(n: nat, p: nat)
    requires 0 < p < n
    ensures Pow2(n - p) == 2 * Pow2(n - p - 1) && Pow2(n) == Pow2(p) * (2 * Pow2(n - p - 1)) && Pow2(p) % 2 == 0
  {
    Pow2Product(p, n - p);
  }

  lemma SmallRound(m: nat, n: nat, p: nat)
    requires n > 0 && m < Pow2(n - 1)
    ensures Round(m, p) < Pow2(n)
  {
    if m > 0 {
      RoundAtMost(m, p);
      Log2Bounds(m);
      Pow2Less(Log2(m), n - 1);
      Pow2Monotone(Log2(m) + 1, n - 1);
    }
  }

  /** Below 2^n, rounding to `p` bits reaches 2^n from half the last unit on. */
  lemma RoundReachesTop(m: nat, n: nat, p: nat)
    requires 0 < p && 0 < n && m < Pow2(n)
    ensures Round(m, p) >= Pow2(n) <==> n > p && m >= Pow2(n) - Pow2(n - p - 1)
  {
    if m < Pow2(n - 1) {
      SmallRound(m, n, p);
      if n > p {
        Pow2Monotone(n - p - 1, n - 1);
      }
    } else if n > p {
      TopRound(m, n, p);
    } else {
      Log2Of(m, n - 1);
      RoundToOne(m);
    }
  }

  /** The cast leaves the range of the integers exactly for those that are rounded up to the power of two beyond it. */
  lemma UndefinedAtTheTop(v: int, w: Width, f: Format)
    requires InRange(v, w)
    ensures IntToFloat(v, w, f) == Undefined <==>
      Bits(w) > Precision(f) && v >= Pow2(Bits(w)) - Pow2(Bits(w) - Precision(f) - 1)
  {
    RangeIsPower(w);
    var n, p, m := Bits(w), Precision(f), Abs(v);
    if v >= 0 {
      RoundReachesTop(m, n, p);
    } else {
      if n > p {
        Pow2Monotone(n - p - 1, n);
      }
      NegativeInRange(m, n, p);
    }
  }

  lemma RangeIsPower(w: Width)
    ensures Min(w) + Pow2(Bits(w)) == 0 && Max(w) == Pow2(Bits(w)) - 1
  {
    LargePowers();
  }

  /** Rounding a magnitude of at most 2^n does not go beyond 2^n. */
  lemma NegativeInRange(m: nat, n: nat, p: nat)
    requires m <= Pow2(n) && p > 0
    ensures Round(m, p) <= Pow2(n)
  {
    if m == Pow2(n) {
      RoundIffRepresentable(m, p);
      assert IsProduct(m, 1, n);
      return;
    }
    if m > 0 {
      RoundAtMost(m, p);
      Log2Bounds(m);
      Pow2Less(Log2(m), n);
      Pow2Monotone(Log2(m) + 1, n);
    } else {
      assert 0 / Pow2(Ulp(0, p)) == 0;
    }
  }
}
