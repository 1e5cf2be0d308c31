/** Machine words of the AT interpreter: fixed-width signed integers, their
    two's-complement wrap-around, little-endian byte encodings, C++ division
    and the bitwise operators, all over mathematical integers. */
module Base {

  /** Failure-compatible optional value (usable with `:-`). */
  datatype Option<+T> = None | Some(value: T) {
    predicate IsFailure() { None? }

    function PropagateFailure<U>(): Option<U>
      requires None?
    {
      None
    }

    function Extract(): T
      requires Some?
    {
      value
    }
  }

  type byte = b: int | 0 <= b < 256

  const TWO_32: int := 0x1_0000_0000
  const TWO_64: int := 0x1_0000_0000_0000_0000
  const I64_MIN: int := -0x8000_0000_0000_0000
  const I64_MAX: int := 0x7fff_ffff_ffff_ffff
  const I32_MIN: int := -0x8000_0000
  const I32_MAX: int := 0x7fff_ffff

  predicate InI64(x: int) { I64_MIN <= x <= I64_MAX }
  predicate InI32(x: int) { I32_MIN <= x <= I32_MAX }

  /** The value of an `int64_t`. */
  type i64 = x: int | -0x8000_0000_0000_0000 <= x <= 0x7fff_ffff_ffff_ffff

  /** What a wrapping 64-bit signed operation leaves: the representative of
      `x` modulo 2^64 inside the int64 range. */
  function Wrap64(x: int): (r: i64)
    ensures InI64(x) ==> r == x
    ensures (x - r) % TWO_64 == 0
  {
    (x - I64_MIN) % TWO_64 + I64_MIN
  }

  /** Wrapping ignores whole multiples of 2^64. */
  lemma Wrap64Shift(x: int, k: int)
    ensures Wrap64(x + k * TWO_64) == Wrap64(x)
  {
    var q, r := (x - I64_MIN) / TWO_64, (x - I64_MIN) % TWO_64;
    assert x + k * TWO_64 - I64_MIN == (q + k) * TWO_64 + r;
    ModUnique(x + k * TWO_64 - I64_MIN, q + k, r, TWO_64);
  }

  /** Wrapping addition is undone by wrapping subtraction of the same value. */
  lemma WrapAddSub(x: i64, y: int)
    ensures Wrap64(Wrap64(x as int + y) - y) == x
  {
    var q := (x as int + y - I64_MIN) / TWO_64;
    var w := Wrap64(x as int + y);
    assert w - y == x + (-q) * TWO_64;
    Wrap64Shift(x, -q);
  }

  /** The same for `int32_t` (used for the `(int32_t)` cast in RET_SUB). */
  function Wrap32(x: int): (r: int)
    ensures InI32(r)
    ensures InI32(x) ==> r == x
    ensures (x - r) % TWO_32 == 0
  {
    (x - I32_MIN) % TWO_32 + I32_MIN
  }

  function Min(a: int, b: int): int { if a <= b then a else b }

  function Abs(a: int): nat { if a < 0 then -a else a }

  // ---------------------------------------------------------------- powers

  function Pow2(n: nat): (r: nat)
    ensures r >= 1
  {
    if n == 0 then 1 else 2 * Pow2(n - 1)
  }

  function Pow256(w: nat): (r: nat)
    ensures r >= 1
  {
    if w == 0 then 1 else 256 * Pow256(w - 1)
  }

  lemma Pow256Values()
    ensures Pow256(1) == 256 && Pow256(2) == 0x1_0000
    ensures Pow256(4) == TWO_32 && Pow256(8) == TWO_64
  {
    assert Pow256(2) == 0x1_0000;
    assert Pow256(4) == TWO_32;
    assert Pow256(8) == TWO_64;
  }

  lemma Pow2Of64()
    ensures Pow2(64) == TWO_64
  {
    assert Pow2(8) == 0x100;
    assert Pow2(16) == 0x1_0000;
    assert Pow2(24) == 0x100_0000;
    assert Pow2(32) == 0x1_0000_0000;
    assert Pow2(40) == 0x100_0000_0000;
    assert Pow2(48) == 0x1_0000_0000_0000;
    assert Pow2(56) == 0x100_0000_0000_0000;
    assert Pow2(64) == TWO_64;
  }

  // ------------------------------------------------ little-endian encodings

  /** Unsigned little-endian value of a byte string. */
  function LeNat(bs: seq<byte>): (n: nat)
    ensures n < Pow256(|bs|)
  {
    if |bs| == 0 then 0 else bs[0] + 256 * LeNat(bs[1..])
  }

  /** The `w` little-endian bytes of `n`. */
  function LeBytes(n: nat, w: nat): (bs: seq<byte>)
    requires n < Pow256(w)
    ensures |bs| == w
  {
    if w == 0 then [] else [n % 256] + LeBytes(n / 256, w - 1)
  }

  lemma {:induction false} LeNatOfLeBytes(n: nat, w: nat)
    requires n < Pow256(w)
    ensures LeNat(LeBytes(n, w)) == n
  {
    if w > 0 {
      LeNatOfLeBytes(n / 256, w - 1);
      assert LeBytes(n, w)[1..] == LeBytes(n / 256, w - 1);
    }
  }

  lemma {:induction false} LeBytesOfLeNat(bs: seq<byte>)
    ensures LeBytes(LeNat(bs), |bs|) == bs
  {
    if |bs| > 0 {
      LeBytesOfLeNat(bs[1..]);
      var n := LeNat(bs);
      assert n % 256 == bs[0];
      assert n / 256 == LeNat(bs[1..]);
    }
  }

  /** `x` is representable in `w` bytes of two's complement. */
  predicate FitsSigned(x: int, w: nat) { 0 <= 2 * x + Pow256(w) && 2 * x < Pow256(w) }

  /** A two's-complement field of `|bs|` bytes, read little-endian. */
  function LeSigned(bs: seq<byte>): (v: int)
    ensures FitsSigned(v, |bs|)
  {
    var n := LeNat(bs);
    if 2 * n >= Pow256(|bs|) then n - Pow256(|bs|) else n
  }

  /** The `w`-byte two's-complement little-endian encoding of `x`. */
  function SignedBytes(x: int, w: nat): (bs: seq<byte>)
    requires FitsSigned(x, w)
    ensures |bs| == w
    ensures LeSigned(bs) == x
  {
    var n := if x >= 0 then x else x + Pow256(w);
    LeNatOfLeBytes(n, w);
    LeBytes(n, w)
  }

  lemma SignedBytesOfLeSigned(bs: seq<byte>)
    ensures FitsSigned(LeSigned(bs), |bs|)
    ensures SignedBytes(LeSigned(bs), |bs|) == bs
  {
    LeBytesOfLeNat(bs);
  }

  lemma FitsI64(x: i64)
    ensures FitsSigned(x, 8)
  {
    Pow256Values();
  }

  lemma FitsI32(x: int)
    requires InI32(x)
    ensures FitsSigned(x, 4)
  {
    Pow256Values();
  }

  // ------------------------------------------------------- C++ arithmetic

  /** C++ `/` on signed integers: the quotient rounded toward zero. */
  function TruncDiv(a: int, b: int): int
    requires b != 0
  {
    var q := Abs(a) / Abs(b);
    if (a < 0) == (b < 0) then q else -q
  }

  /** C++ `%` on signed integers: the remainder takes the dividend's sign. */
  function TruncMod(a: int, b: int): int
    requires b != 0
  {
    a - b * TruncDiv(a, b)
  }

  /** `x / 2` in C++ undoes `x * 2` whenever the product does not overflow. */
  lemma {:induction false} HalveOfDouble(x: int)
    ensures TruncDiv(2 * x, 2) == x
  {
    if x < 0 {
      assert Abs(2 * x) == 2 * (-x);
    }
  }

  /** Euclidean remainders are unique. */
  lemma ModUnique(x: int, q: int, r: int, L: int)
    requires L > 0 && 0 <= r < L && x == q * L + r
    ensures x % L == r
  {
    var q', r' := x / L, x % L;
    assert q' * L + r' == q * L + r;
    var d := q - q';
    assert d * L == r' - r;
    if d > 0 {
      MulAtLeast(d, L);
    } else if d < 0 {
      MulAtLeast(-d, L);
    }
  }

  lemma {:induction false} MulAtLeast(d: int, L: int)
    requires d >= 1 && L > 0
    ensures d * L >= L
  {
    if d > 1 {
      MulAtLeast(d - 1, L);
      assert d * L == (d - 1) * L + L;
    }
  }

  /** The quotient of a C++ division never exceeds the dividend in size. */
  lemma DivNoLarger(x: nat, d: nat)
    requires d >= 1
    ensures x / d <= x
    ensures d >= 2 ==> 2 * (x / d) <= x
  {
    var q := x / d;
    assert q * d + x % d == x;
    if q > 0 {
      MulAtLeast(d, q);
      assert d * q == q * d;
      if d >= 2 {
        assert q * d == q * 2 + q * (d - 2);
        MulNonNegative(q, d - 2);
      }
    }
  }

  lemma MulNonNegative(x: nat, y: nat)
    ensures x * y >= 0
  {
  }

  /** Signed 64-bit division stays in range except for INT64_MIN / -1 (the
      one quotient that overflows, undefined in C++). */
  lemma TruncDivInRange(a: i64, b: i64)
    requires b != 0 && !(a == I64_MIN && b == -1)
    ensures InI64(TruncDiv(a, b))
  {
    DivNoLarger(Abs(a), Abs(b));
  }

  /** The C++ remainder: its magnitude is the remainder of the magnitudes and
      it takes the dividend's sign. */
  lemma TruncModShape(a: int, b: int)
    requires b != 0
    ensures TruncMod(a, b) == (if a < 0 then -(Abs(a) % Abs(b)) else Abs(a) % Abs(b))
    ensures Abs(TruncMod(a, b)) < Abs(b)
  {
    var x, d := Abs(a), Abs(b);
    var q: int, r: int := x / d, x % d;
    var p := d * q;
    assert x == p + r;
    var t := TruncDiv(a, b);
    ProductOfSigns(b, t, d, q);
    if a >= 0 {
      assert b * t == p;
      assert TruncMod(a, b) == x - p;
    } else {
      assert b * t == -p;
      assert TruncMod(a, b) == -x + p;
    }
  }

  /** `b * t` when `t` is `q` or `-q` according to the signs. */
  lemma ProductOfSigns(b: int, t: int, d: int, q: int)
    requires d == Abs(b) && (t == q || t == -q)
    ensures b * t == (if (b < 0) == (t == -q) then d * q else -(d * q))
  {
    if b < 0 {
      assert b == -d;
    }
  }

  lemma TruncModInRange(a: i64, b: i64)
    requires b != 0
    ensures InI64(TruncMod(a, b))
  {
    TruncModShape(a, b);
  }

  /** Left shift of a signed 64-bit value (C++20: defined as wrap-around). */
  function Shl64(x: i64, n: nat): i64
    requires n < 64
  {
    Wrap64(x * Pow2(n))
  }

  /** Arithmetic right shift of a signed value: `n` halvings, each rounding
      toward minus infinity. */
  function Shr64(x: i64, n: nat): (r: i64)
    requires n < 64
    ensures r == x / Pow2(n)
    ensures x >= 0 ==> 0 <= r <= x
    ensures x < 0 ==> x <= r < 0
    decreases n
  {
    if n == 0 then x else HalveThenDivide(x, Pow2(n - 1)); Shr64(x / 2, n - 1)
  }

  /** Halving and then dividing by `p` is dividing by `2 * p` (both floor). */
  lemma HalveThenDivide(x: int, p: nat)
    requires p > 0
    ensures x / 2 / p == x / (2 * p)
  {
    var q := x / 2;
    var q2, r2 := q / p, q % p;
    assert x == 2 * q + x % 2;
    assert q == p * q2 + r2;
    assert x == (2 * p) * q2 + (2 * r2 + x % 2);
    DivOfSum(x, 2 * p, q2, 2 * r2 + x % 2);
  }

  /** Euclidean division is determined by quotient and remainder. */
  lemma DivOfSum(x: int, d: int, q: int, r: int)
    requires 0 <= r < d && x == d * q + r
    ensures x / d == q
  {
    var q', r' := x / d, x % d;
    if q' < q {
      MulGap(d, q', q);
    } else if q' > q {
      MulGap(d, q, q');
    }
  }

  /** Multiples of `d` with different factors are at least `d` apart. */
  lemma MulGap(d: int, a: int, b: int)
    requires 0 < d && a < b
    ensures d * a + d <= d * b
  {
    var k := b - a;
    assert d * b == d * a + d * k;
    assert d * k == d + d * (k - 1);
    assert d * (k - 1) >= 0;
  }

  // ------------------------------------------------------ bitwise operators

  datatype BitOp = Or | And | Xor

  function BitOf(op: BitOp, p: bool, q: bool): bool {
    match op
    case Or => p || q
    case And => p && q
    case Xor => p != q
  }

  /** The low `w` bits of `a op b`, bit by bit. */
  function Bits(op: BitOp, a: nat, b: nat, w: nat): (r: nat)
    ensures r < Pow2(w)
  {
    if w == 0 then 0
    else (if BitOf(op, a % 2 == 1, b % 2 == 1) then 1 else 0) + 2 * Bits(op, a / 2, b / 2, w - 1)
  }

  /** The bit pattern of an int64 as an unsigned value below 2^64. */
  function U64(x: i64): (n: nat)
    ensures n < TWO_64
  {
    if x >= 0 then x else x + TWO_64
  }

  function S64(n: nat): i64
    requires n < TWO_64
  {
    if n <= I64_MAX then n else n - TWO_64
  }

  /** `x | y`, `x & y` or `x ^ y` on two int64 values. */
  function Bitwise64(op: BitOp, x: i64, y: i64): i64 {
    Pow2Of64();
    S64(Bits(op, U64(x), U64(y), 64))
  }

  lemma {:induction false} BitsXorTwice(a: nat, b: nat, w: nat)
    requires a < Pow2(w)
    ensures Bits(Xor, Bits(Xor, a, b, w), b, w) == a
  {
    if w > 0 {
      var x := Bits(Xor, a, b, w);
      assert x % 2 == (if a % 2 != b % 2 then 1 else 0);
      assert x / 2 == Bits(Xor, a / 2, b / 2, w - 1);
      BitsXorTwice(a / 2, b / 2, w - 1);
    }
  }

  lemma {:induction false} BitsOrAbsorbs(a: nat, b: nat, w: nat)
    ensures Bits(Or, Bits(Or, a, b, w), b, w) == Bits(Or, a, b, w)
  {
    if w > 0 {
      var x := Bits(Or, a, b, w);
      assert x % 2 == (if a % 2 == 1 || b % 2 == 1 then 1 else 0);
      assert x / 2 == Bits(Or, a / 2, b / 2, w - 1);
      BitsOrAbsorbs(a / 2, b / 2, w - 1);
    }
  }

  /** XOR-ing twice with the same value restores the original word. */
  lemma XorTwice(x: i64, y: i64)
    ensures Bitwise64(Xor, Bitwise64(Xor, x, y), y) == x
  {
    Pow2Of64();
    var z := Bits(Xor, U64(x), U64(y), 64);
    assert U64(S64(z)) == z;
    BitsXorTwice(U64(x), U64(y), 64);
  }

  /** OR-ing the same value a second time changes nothing. */
  lemma OrAbsorbs(x: i64, y: i64)
    ensures Bitwise64(Or, Bitwise64(Or, x, y), y) == Bitwise64(Or, x, y)
  {
    Pow2Of64();
    var z := Bits(Or, U64(x), U64(y), 64);
    assert U64(S64(z)) == z;
    BitsOrAbsorbs(U64(x), U64(y), 64);
  }
}
