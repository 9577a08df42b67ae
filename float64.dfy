/**
 * JavaScript numbers are Rust `f64` values. They are modelled by the three
 * fields of their IEEE-754 binary64 encoding, which `f64::from_le_bytes`
 * determines exactly, and the few questions the runtime asks of a number are
 * integer predicates on those fields: its sign, whether it is zero, NaN or
 * infinite, and whether it equals its own floor.
 */
module Float64 {
  import opened Bytes

  const TWO_52: nat := 0x10_0000_0000_0000
  const TWO_63: nat := 0x8000_0000_0000_0000

  /** Sign bit, 11-bit biased exponent and 52-bit fraction of an `f64`. */
  datatype Fields = Fields(negative: bool, exponent: nat, fraction: nat)

  type F64 = x: Fields | x.exponent < 2048 && x.fraction < TWO_52 witness Fields(false, 0, 0)

  const POSITIVE_ZERO: F64 := Fields(false, 0, 0)

  /** `f64::NAN`. */
  const NAN: F64 := Fields(false, 2047, 0x8_0000_0000_0000)

  /** `n * 2^k`. */
  function Shl(n: nat, k: nat): (r: nat)
    ensures n > 0 ==> r > 0
  {
    if k == 0 then n else 2 * Shl(n, k - 1)
  }

  /** `n / 2^k`, rounded down. */
  function Shr(n: nat, k: nat): nat {
    if k == 0 then n else Shr(n / 2, k - 1)
  }

  /** The lowest `k` bits of `n` are zero. */
  predicate LowBitsClear(n: nat, k: nat) {
    k == 0 || (n % 2 == 0 && LowBitsClear(n / 2, k - 1))
  }

  /** `is_sign_negative`: the sign bit, which is also set for -0.0. */
  predicate IsSignNegative(x: F64) {
    x.negative
  }

  predicate IsNaN(x: F64) {
    x.exponent == 2047 && x.fraction != 0
  }

  predicate IsInfinite(x: F64) {
    x.exponent == 2047 && x.fraction == 0
  }

  /** +0.0 or -0.0. */
  predicate IsZero(x: F64) {
    x.exponent == 0 && x.fraction == 0
  }

  /**
   * `x == x.floor()`: true for zeros, infinities and finite numbers without a
   * fractional part; false for NaN (which equals nothing) and every other
   * number. A normal number is `(2^52 + fraction) * 2^(exponent - 1075)`.
   */
  predicate IsIntegral(x: F64) {
    if x.exponent == 2047 then x.fraction == 0
    else if x.exponent >= 1075 then true
    else if x.exponent < 1023 then IsZero(x)
    else LowBitsClear(x.fraction, 1075 - x.exponent)
  }

  /** The absolute value of a finite number without a fractional part. */
  function IntegralMagnitude(x: F64): nat
    requires IsIntegral(x) && !IsInfinite(x)
  {
    if x.exponent == 0 then 0
    else if x.exponent >= 1075 then Shl(TWO_52 + x.fraction, x.exponent - 1075)
    else Shr(TWO_52 + x.fraction, 1075 - x.exponent)
  }

  /** The value of a finite number without a fractional part. */
  function IntegralValue(x: F64): int
    requires IsIntegral(x) && !IsInfinite(x)
  {
    var m: int := IntegralMagnitude(x);
    if x.negative then -m else m
  }

  /** The magnitude of a finite number rounded toward zero, as a cast to an integer type takes it. */
  function Truncated(x: F64): nat
    requires !IsNaN(x) && !IsInfinite(x)
  {
    if x.exponent < 1023 then 0
    else if x.exponent >= 1075 then Shl(TWO_52 + x.fraction, x.exponent - 1075)
    else Shr(TWO_52 + x.fraction, 1075 - x.exponent)
  }

  /** On a number without a fractional part, rounding toward zero changes nothing. */
  lemma TruncatedIntegral(x: F64)
    requires IsIntegral(x) && !IsInfinite(x)
    ensures !IsNaN(x) && Truncated(x) == IntegralMagnitude(x)
  {
  }

  /** `f64::from_le_bytes`: the eight bytes hold the 64-bit pattern, lowest byte first. */
  function FromLeBytes(bs: seq<Byte>): F64
    requires |bs| == 8
  {
    var bits := LittleEndian(bs);
    Fields(bits >= TWO_63, (bits % TWO_63) / TWO_52, bits % TWO_52)
  }

  /** The largest `p` with `2^p <= a`. */
  function Log2(a: nat): (p: nat)
    requires a > 0
    ensures Shl(1, p) <= a < Shl(1, p + 1)
  {
    if a == 1 then 0 else Log2(a / 2) + 1
  }

  /** `k as f64` for a `k` of an `i8`, normalised as IEEE-754 prescribes. */
  function FromSmallInt(k: int): F64
    requires -128 <= k < 128
  {
    if k == 0 then POSITIVE_ZERO
    else
      var a: nat := if k < 0 then -k else k;
      var p := Log2(a);
      Log2Small(a);
      Fields(k < 0, 1023 + p, NormalisedFraction(a, p))
  }

  /** The 52-bit fraction of `a` once its leading bit `2^p` is made implicit. */
  function NormalisedFraction(a: nat, p: nat): (f: nat)
    requires p <= 52 && Shl(1, p) <= a < Shl(1, p + 1)
    ensures f < TWO_52
  {
    ShlMonotonic(a - Shl(1, p), Shl(1, p), 52 - p);
    ShlAdd(1, p, 52 - p);
    ShlOne52();
    Shl(a - Shl(1, p), 52 - p)
  }

  lemma {:induction false} ShlMonotonic(x: nat, y: nat, k: nat)
    requires x < y
    ensures Shl(x, k) < Shl(y, k)
  {
    if k > 0 {
      ShlMonotonic(x, y, k - 1);
    }
  }

  lemma {:induction false} ShlAdd(n: nat, j: nat, k: nat)
    ensures Shl(Shl(n, j), k) == Shl(n, j + k)
  {
    if k > 0 {
      ShlAdd(n, j, k - 1);
    }
  }

  lemma {:induction false} ShlDistributes(x: nat, y: nat, k: nat)
    ensures Shl(x + y, k) == Shl(x, k) + Shl(y, k)
  {
    if k > 0 {
      ShlDistributes(x, y, k - 1);
    }
  }

  lemma {:induction false} ShrShl(n: nat, k: nat)
    ensures Shr(Shl(n, k), k) == n && LowBitsClear(Shl(n, k), k)
    decreases k
  {
    if k > 0 {
      ShrShl(n, k - 1);
      assert Shl(n, k) / 2 == Shl(n, k - 1);
    }
  }

  lemma ShlFour(n: nat)
    ensures Shl(n, 4) == 16 * n
  {
    assert Shl(n, 1) == 2 * n;
    assert Shl(n, 2) == 4 * n;
    assert Shl(n, 3) == 8 * n;
  }

  lemma ShlOne52()
    ensures Shl(1, 52) == TWO_52
  {
    assert Shl(1, 4) == 16;
    ShlAdd(1, 4, 4);
    ShlFour(0x10);
    assert Shl(1, 8) == 0x100;
    ShlAdd(1, 8, 4);
    ShlFour(0x100);
    assert Shl(1, 12) == 0x1000;
    ShlAdd(1, 12, 4);
    ShlFour(0x1000);
    assert Shl(1, 16) == 0x10000;
    ShlAdd(1, 16, 4);
    ShlFour(0x10000);
    assert Shl(1, 20) == 0x100000;
    ShlAdd(1, 20, 4);
    ShlFour(0x100000);
    assert Shl(1, 24) == 0x1000000;
    ShlAdd(1, 24, 4);
    ShlFour(0x1000000);
    assert Shl(1, 28) == 0x10000000;
    ShlAdd(1, 28, 4);
    ShlFour(0x10000000);
    assert Shl(1, 32) == 0x100000000;
    ShlAdd(1, 32, 4);
    ShlFour(0x100000000);
    assert Shl(1, 36) == 0x1000000000;
    ShlAdd(1, 36, 4);
    ShlFour(0x1000000000);
    assert Shl(1, 40) == 0x10000000000;
    ShlAdd(1, 40, 4);
    ShlFour(0x10000000000);
    assert Shl(1, 44) == 0x100000000000;
    ShlAdd(1, 44, 4);
    ShlFour(0x100000000000);
    assert Shl(1, 48) == 0x1000000000000;
    ShlAdd(1, 48, 4);
    ShlFour(0x1000000000000);
    assert Shl(1, 52) == 0x10000000000000;
  }

  lemma Log2Small(a: nat)
    requires 0 < a <= 128
    ensures Log2(a) <= 7
  {
    var p := Log2(a);
    if p > 7 {
      ShlAdd(1, p - 8, 8);
    }
  }

  /** Shifting the fraction back, with its leading bit restored, gives `a` again. */
  lemma NormalisedFractionExact(a: nat, p: nat)
    requires p <= 52 && Shl(1, p) <= a < Shl(1, p + 1)
    ensures LowBitsClear(NormalisedFraction(a, p), 52 - p)
    ensures Shr(TWO_52 + NormalisedFraction(a, p), 52 - p) == a
  {
    var m := a - Shl(1, p);
    ShrShl(m, 52 - p);
    ShlAdd(1, p, 52 - p);
    ShlOne52();
    ShlDistributes(Shl(1, p), m, 52 - p);
    ShrShl(a, 52 - p);
  }

  /** `k as f64` is exact for every `i8`: the number is integral, finite, and its value is `k`. */
  lemma FromSmallIntExact(k: int)
    requires -128 <= k < 128
    ensures var x := FromSmallInt(k);
      IsIntegral(x) && !IsInfinite(x) && !IsNaN(x) && IntegralValue(x) == k
      && (IsZero(x) <==> k == 0) && (IsSignNegative(x) <==> k < 0)
  {
    if k != 0 {
      var a: nat := if k < 0 then -k else k;
      var p := Log2(a);
      Log2Small(a);
      var f := NormalisedFraction(a, p);
      NormalisedFractionExact(a, p);
      var x := FromSmallInt(k);
      assert x == Fields(k < 0, 1023 + p, f);
      assert 1075 - x.exponent == 52 - p;
      assert IsIntegral(x);
      assert IntegralMagnitude(x) == a;
    }
  }
}
