// Integer semantics of the C++ operators the engine relies on.
// Dafny's `/` and `%` are Euclidean and its integers are unbounded; the
// engine uses truncating division, `std::clamp` and 8/16-bit storage.

module CppInt {

  /** `std::clamp(v, lo, hi)` for `lo <= hi`. */
  function Clamp(v: int, lo: int, hi: int): (r: int)
    requires lo <= hi
    ensures lo <= r <= hi
    ensures lo <= v <= hi ==> r == v
    ensures v < lo ==> r == lo
    ensures v > hi ==> r == hi
  {
    if v < lo then lo else if hi < v then hi else v
  }

  function Abs(x: int): (r: nat)
    ensures r == x || r == -x
  {
    if x < 0 then -x else x
  }

  /**
   * C++ integer division: the quotient is truncated toward zero, so the
   * remainder `a - q * b` is zero or has the sign of `a`, and is smaller
   * than `b` in magnitude.
   */
  function Quot(a: int, b: int): (q: int)
    requires b != 0
    ensures var r := a - q * b;
      (r == 0 || (r > 0) == (a > 0)) && (if b > 0 then -b < r < b else b < r < -b)
  {
    if a >= 0 then (if b > 0 then a / b else -(a / -b))
    else (if b > 0 then -((-a) / b) else (-a) / (-b))
  }

  /** The range of `int16_t`. */
  predicate IsI16(x: int)
  {
    -32768 <= x < 32768
  }

  /** The range of `int32_t` (the engine's `int`). */
  predicate IsI32(x: int)
  {
    -0x8000_0000 <= x < 0x8000_0000
  }

  /** Conversion of an `int` to `uint8_t`: reduction modulo 2^8. */
  function U8(x: int): (r: int)
    ensures 0 <= r < 256
    ensures 0 <= x < 256 ==> r == x
  {
    x % 256
  }

  /** Conversion of an `int` to `int16_t` (two's complement wrap-around). */
  function I16(x: int): (r: int)
    ensures IsI16(r)
    ensures -32768 <= x < 32768 ==> r == x
    ensures (r - x) % 65536 == 0
  {
    (x + 32768) % 65536 - 32768
  }

  /** Wrapping a value that differs from a 16-bit one by a multiple of 2^16. */
  lemma {:induction false} I16Congruent(x: int, y: int)
    requires (x - y) % 65536 == 0
    ensures I16(x) == I16(y)
  {
    var k := (x - y) / 65536;
    assert x == y + 65536 * k;
    assert (x + 32768) % 65536 == (y + 32768 + 65536 * k) % 65536;
    ModMultiple(y + 32768, k);
  }

  lemma {:induction false} ModMultiple(a: int, k: int)
    ensures (a + 65536 * k) % 65536 == a % 65536
  {
    var q := a / 65536;
    var r := a % 65536;
    assert a == 65536 * q + r;
    assert a + 65536 * k == 65536 * (q + k) + r;
  }

  /** Sixteen-bit wrap-around undoes itself: subtracting what was added gives the start back. */
  lemma {:induction false} I16AddSub(v: int, w: int)
    requires -32768 <= v < 32768
    ensures I16(I16(v + w) - w) == v
  {
    var s := I16(v + w);
    assert (s - (v + w)) % 65536 == 0;
    assert ((s - w) - v) % 65536 == 0;
    I16Congruent(s - w, v);
  }

  // Bitwise operators on non-negative integers, bit by bit from the least
  // significant end. They agree with C++ `&`, `|` and `^` on non-negative
  // operands.

  /** 2^n */
  function Pow2(n: nat): (p: nat)
    ensures p >= 1
  {
    if n == 0 then 1 else 2 * Pow2(n - 1)
  }

  /** Bit `k` of `x`, as `(x & (1 << k)) != 0` reads it (for negative `x` too, in two's complement). */
  predicate Bit(x: int, k: nat)
  {
    (x / Pow2(k)) % 2 == 1
  }

  function BitAnd(a: nat, b: nat): (r: nat)
    ensures r <= a && r <= b
    decreases a
  {
    if a == 0 || b == 0 then 0
    else 2 * BitAnd(a / 2, b / 2) + (if a % 2 == 1 && b % 2 == 1 then 1 else 0)
  }

  function BitOr(a: nat, b: nat): (r: nat)
    ensures r >= a && r >= b
    decreases a + b
  {
    if a == 0 then b
    else if b == 0 then a
    else 2 * BitOr(a / 2, b / 2) + (if a % 2 == 1 || b % 2 == 1 then 1 else 0)
  }

  function BitXor(a: nat, b: nat): (r: nat)
    decreases a + b
  {
    if a == 0 then b
    else if b == 0 then a
    else 2 * BitXor(a / 2, b / 2) + (if (a % 2 == 1) != (b % 2 == 1) then 1 else 0)
  }

  lemma {:induction false} BitShift(x: nat, k: nat)
    ensures k > 0 ==> Bit(x, k) == Bit(x / 2, k - 1)
    ensures Bit(x, 0) == (x % 2 == 1)
  {
    if k > 0 {
      assert Pow2(k) == 2 * Pow2(k - 1);
      DivDiv(x, 2, Pow2(k - 1));
    }
  }

  lemma {:induction false} MulAtLeast(d: int, k: int)
    requires d > 0 && k >= 1
    ensures d * k >= d
  {
    assert d * k == d * (k - 1) + d;
    assert d * (k - 1) >= 0;
  }

  /** Euclidean division is determined by quotient and remainder. */
  lemma {:induction false} DivUnique(x: int, d: int, q: int, r: int)
    requires d > 0 && 0 <= r < d && x == d * q + r
    ensures x / d == q && x % d == r
  {
    var q0 := x / d;
    var r0 := x % d;
    assert x == d * q0 + r0;
    assert d * q - d * q0 == r0 - r;
    assert d * (q - q0) == r0 - r;
    if q > q0 {
      MulAtLeast(d, q - q0);
    } else if q < q0 {
      MulAtLeast(d, q0 - q);
    }
  }

  lemma {:induction false} DivDiv(x: nat, a: nat, b: nat)
    requires a > 0 && b > 0
    ensures x / (a * b) == (x / a) / b
  {
    var q := x / a;
    var r := x % a;
    var q2 := q / b;
    var r2 := q % b;
    NestedQuotient(x, a, b, q, r, q2, r2);
    DivUnique(x, a * b, q2, a * r2 + r);
  }

  /** Dividing by `a` and then by `b` leaves a remainder below `a * b`. */
  lemma {:induction false} NestedQuotient(x: int, a: int, b: int, q: int, r: int, q2: int, r2: int)
    requires a > 0 && b > 0 && 0 <= r < a && 0 <= r2 < b
    requires x == a * q + r && q == b * q2 + r2
    ensures x == (a * b) * q2 + (a * r2 + r)
    ensures 0 <= a * r2 + r < a * b
  {
    assert a * q == (a * b) * q2 + a * r2;
    MulAtLeast(a, b - r2);
    assert a * (b - r2) == a * b - a * r2;
  }

  /** Bit `k` of `a & b` is set exactly when it is set in both. */
  lemma {:induction false} BitAndBit(a: nat, b: nat, k: nat)
    ensures Bit(BitAnd(a, b), k) <==> Bit(a, k) && Bit(b, k)
    decreases a
  {
    var r := BitAnd(a, b);
    BitShift(r, k);
    BitShift(a, k);
    BitShift(b, k);
    if a == 0 || b == 0 {
      ZeroHasNoBits(k);
    } else {
      assert r / 2 == BitAnd(a / 2, b / 2);
      if k > 0 {
        BitAndBit(a / 2, b / 2, k - 1);
      }
    }
  }

  /** Bit `k` of `a | b` is set exactly when it is set in either. */
  lemma {:induction false} BitOrBit(a: nat, b: nat, k: nat)
    ensures Bit(BitOr(a, b), k) <==> Bit(a, k) || Bit(b, k)
    decreases a + b
  {
    var r := BitOr(a, b);
    BitShift(r, k);
    BitShift(a, k);
    BitShift(b, k);
    if a == 0 || b == 0 {
      ZeroHasNoBits(k);
    } else {
      assert r / 2 == BitOr(a / 2, b / 2);
      if k > 0 {
        BitOrBit(a / 2, b / 2, k - 1);
      }
    }
  }

  /** Bit `k` of `a ^ b` is set exactly when it is set in one of them. */
  lemma {:induction false} BitXorBit(a: nat, b: nat, k: nat)
    ensures Bit(BitXor(a, b), k) <==> Bit(a, k) != Bit(b, k)
    decreases a + b
  {
    var r := BitXor(a, b);
    BitShift(r, k);
    BitShift(a, k);
    BitShift(b, k);
    if a == 0 || b == 0 {
      ZeroHasNoBits(k);
    } else {
      assert r / 2 == BitXor(a / 2, b / 2);
      if k > 0 {
        BitXorBit(a / 2, b / 2, k - 1);
      }
    }
  }

  lemma {:induction false} ZeroHasNoBits(k: nat)
    ensures !Bit(0, k)
  {
  }

  /** Two non-negative numbers with the same bits are equal. */
  lemma {:induction false} BitsEqual(a: nat, b: nat)
    requires forall k: nat :: Bit(a, k) == Bit(b, k)
    ensures a == b
    decreases a + b
  {
    BitShift(a, 0);
    BitShift(b, 0);
    if a != 0 || b != 0 {
      forall k: nat
        ensures Bit(a / 2, k) == Bit(b / 2, k)
      {
        BitShift(a, k + 1);
        BitShift(b, k + 1);
      }
      BitsEqual(a / 2, b / 2);
    }
  }

  /** `(a ^ b) ^ b == a` */
  lemma {:induction false} XorInvolutive(a: nat, b: nat)
    ensures BitXor(BitXor(a, b), b) == a
  {
    forall k: nat
      ensures Bit(BitXor(BitXor(a, b), b), k) == Bit(a, k)
    {
      BitXorBit(BitXor(a, b), b, k);
      BitXorBit(a, b, k);
    }
    BitsEqual(BitXor(BitXor(a, b), b), a);
  }

  /** `(a ^ b) ^ c == a ^ (b ^ c)` */
  lemma {:induction false} XorAssoc(a: nat, b: nat, c: nat)
    ensures BitXor(BitXor(a, b), c) == BitXor(a, BitXor(b, c))
  {
    forall k: nat
      ensures Bit(BitXor(BitXor(a, b), c), k) == Bit(BitXor(a, BitXor(b, c)), k)
    {
      BitXorBit(BitXor(a, b), c, k);
      BitXorBit(a, b, k);
      BitXorBit(a, BitXor(b, c), k);
      BitXorBit(b, c, k);
    }
    BitsEqual(BitXor(BitXor(a, b), c), BitXor(a, BitXor(b, c)));
  }

  /** `a ^ b == b ^ a` */
  lemma {:induction false} XorComm(a: nat, b: nat)
    ensures BitXor(a, b) == BitXor(b, a)
  {
    forall k: nat
      ensures Bit(BitXor(a, b), k) == Bit(BitXor(b, a), k)
    {
      BitXorBit(a, b, k);
      BitXorBit(b, a, k);
    }
    BitsEqual(BitXor(a, b), BitXor(b, a));
  }

  /** `a ^ a == 0` */
  lemma {:induction false} XorSelf(a: nat)
    ensures BitXor(a, a) == 0
  {
    forall k: nat
      ensures Bit(BitXor(a, a), k) == Bit(0, k)
    {
      BitXorBit(a, a, k);
      ZeroHasNoBits(k);
    }
    BitsEqual(BitXor(a, a), 0);
  }

  /** Storing a sum in `int16_t` step by step or once gives the same value. */
  lemma {:induction false} I16AddWrapped(a: int, b: int)
    ensures I16(I16(a) + b) == I16(a + b)
  {
    assert (I16(a) - a) % 65536 == 0;
    assert (I16(a) + b - (a + b)) == I16(a) - a;
    I16Congruent(I16(a) + b, a + b);
  }

  /** Splitting off the lowest bit of a remainder by an even modulus. */
  lemma {:induction false} ModSplit(x: nat, m: nat)
    requires m > 0
    ensures x % (2 * m) == x % 2 + 2 * ((x / 2) % m)
  {
    var h := x / 2;
    assert x == 2 * h + x % 2;
    assert h == m * (h / m) + h % m;
    assert x == (2 * m) * (h / m) + (2 * (h % m) + x % 2);
    DivUnique(x, 2 * m, h / m, 2 * (h % m) + x % 2);
  }

  /** One step of `^`: the lowest bits and the rest are combined separately. */
  lemma {:induction false} XorStep(a: nat, b: nat)
    ensures BitXor(a, b) == 2 * BitXor(a / 2, b / 2) + (if (a % 2 == 1) != (b % 2 == 1) then 1 else 0)
  {
    if a == 0 {
      assert BitXor(0, b / 2) == b / 2;
    } else if b == 0 {
      assert BitXor(a / 2, 0) == a / 2;
    }
  }

  /** `x ^ 7` reverses the three low bits: it maps `x % 8` to `7 - x % 8`. */
  lemma {:induction false} XorSeven(x: nat)
    ensures BitXor(x, 7) == 8 * (x / 8) + 7 - x % 8
  {
    XorStep(x, 7);
    XorStep(x / 2, 3);
    XorStep(x / 4, 1);
    DivDiv(x, 2, 2);
    DivDiv(x, 4, 2);
    assert BitXor(x / 8, 0) == x / 8;
    ModSplit(x, 4);
    ModSplit(x / 2, 2);
  }

  /** `x ^ 56` leaves the three low bits and applies `^ 7` to the rest. */
  lemma {:induction false} XorFiftySix(x: nat)
    ensures BitXor(x, 56) == 8 * BitXor(x / 8, 7) + x % 8
  {
    XorStep(x, 56);
    XorStep(x / 2, 28);
    XorStep(x / 4, 14);
    DivDiv(x, 2, 2);
    DivDiv(x, 4, 2);
    ModSplit(x, 4);
    ModSplit(x / 2, 2);
  }

  /** `a | b` is `a + b` when the two share no bit. */
  lemma {:induction false} OrDisjointIsSum(a: nat, b: nat)
    requires BitAnd(a, b) == 0
    ensures BitOr(a, b) == a + b
    decreases a + b
  {
    if a != 0 && b != 0 {
      assert BitAnd(a, b) == 2 * BitAnd(a / 2, b / 2) + (if a % 2 == 1 && b % 2 == 1 then 1 else 0);
      OrDisjointIsSum(a / 2, b / 2);
    }
  }

  /** A value shifted left by `k` shares no bit with a value below `2^k`. */
  lemma {:induction false} ShiftedDisjoint(v: nat, b: nat, k: nat)
    requires b < Pow2(k)
    ensures BitAnd(Pow2(k) * v, b) == 0
    decreases k
  {
    if k > 0 && Pow2(k) * v != 0 && b != 0 {
      assert Pow2(k) * v == 2 * (Pow2(k - 1) * v);
      assert (Pow2(k) * v) / 2 == Pow2(k - 1) * v;
      ShiftedDisjoint(v, b / 2, k - 1);
    }
  }

  /** Truncating division by a positive number is monotone. */
  lemma {:induction false} QuotMonotone(a1: int, a2: int, b: int)
    requires b > 0 && a1 <= a2
    ensures Quot(a1, b) <= Quot(a2, b)
  {
    if a1 >= 0 {
      DivMonotone(a1, a2, b);
    } else if a2 < 0 {
      DivMonotone(-a2, -a1, b);
    } else {
      DivMonotone(0, -a1, b);
      DivMonotone(0, a2, b);
    }
  }

  lemma {:induction false} DivMonotone(x: nat, y: nat, b: int)
    requires b > 0 && x <= y
    ensures x / b <= y / b
  {
    var qx, qy := x / b, y / b;
    assert x == b * qx + x % b && y == b * qy + y % b;
    if qx > qy {
      MulAtLeast(b, qx - qy);
      assert false;
    }
  }
}
