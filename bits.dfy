/**
 * Integer model of the bit-level operations the drivers apply to non-negative
 * Python integers: shifts, `&`, `|`, sign extension, and the bit-field read and
 * write of the register helper (a field is a (bit offset, bit width) slice of one
 * register byte; a multi-byte read assembles the bytes least significant first).
 */
module Bits {

  type byte = x: int | 0 <= x < 256

  function Pow2(n: nat): (r: nat)
    ensures r >= 1
  {
    if n == 0 then 1 else 2 * Pow2(n - 1)
  }

  // ---------------------------------------------------------------------------
  // Arithmetic helpers (kept small: Z3 handles nonlinear facts only in isolation)
  // ---------------------------------------------------------------------------

  /** The powers of two the drivers use. */
  lemma Pow2Values()
    ensures Pow2(1) == 2 && Pow2(2) == 4 && Pow2(3) == 8 && Pow2(5) == 32
    ensures Pow2(4) == 16 && Pow2(7) == 128 && Pow2(8) == 256
    ensures Pow2(12) == 4096 && Pow2(15) == 32768 && Pow2(16) == 65536
    ensures Pow2(20) == 1048576 && Pow2(23) == 8388608 && Pow2(24) == 16777216
  {
  }

  lemma {:induction false} Pow2Add(a: nat, b: nat)
    ensures Pow2(a + b) == Pow2(a) * Pow2(b)
  {
    if a > 0 {
      Pow2Add(a - 1, b);
      assert Pow2(a + b) == 2 * Pow2(a - 1 + b);
    }
  }

  lemma {:induction false} Pow2Mono(a: nat, b: nat)
    requires a <= b
    ensures Pow2(a) <= Pow2(b)
  {
    if a < b {
      Pow2Mono(a, b - 1);
    }
  }

  lemma MulAtLeast(k: int, d: int)
    requires d > 0 && k >= 1
    ensures k * d >= d
  {
    var j := k - 1;
    assert k * d == j * d + d;
    assert j * d >= 0;
  }

  /** Euclidean division is determined by quotient and remainder. */
  lemma DivModUnique(x: int, d: int, q: int, r: int)
    requires d > 0 && 0 <= r < d && x == q * d + r
    ensures x / d == q && x % d == r
  {
    var q', r' := x / d, x % d;
    assert x == q' * d + r';
    assert (q - q') * d == r' - r;
    if q > q' {
      MulAtLeast(q - q', d);
    } else if q < q' {
      MulAtLeast(q' - q, d);
    }
  }

  lemma RegroupProduct(q: int, b: int, m: int, a: int)
    ensures (q * b + m) * a == q * (a * b) + a * m
  {
  }

  lemma MixedBound(lo: int, m: int, a: int, b: int)
    requires a > 0 && b > 0 && 0 <= lo < a && 0 <= m < b
    ensures 0 <= lo + a * m < a * b
  {
    MulNonneg(a, b - 1 - m);
    MulNonneg(a, m);
    MulSubDistrib(a, b, m);
  }

  lemma MulNonneg(a: int, c: int)
    requires a >= 0 && c >= 0
    ensures a * c >= 0
  {
  }

  lemma MulSubDistrib(a: int, b: int, m: int)
    ensures a * (b - 1 - m) == a * b - a - a * m
  {
  }

  lemma DivDiv(x: nat, a: nat, b: nat)
    requires a > 0 && b > 0
    ensures x / a / b == x / (a * b)
  {
    var y := x / a;
    var q := y / b;
    var m := y % b;
    var lo := x % a;
    assert x == y * a + lo;
    assert y == q * b + m;
    RegroupProduct(q, b, m, a);
    MixedBound(lo, m, a, b);
    DivModUnique(x, a * b, q, lo + a * m);
  }

  lemma ModOfMultiplePlus(k: int, d: int, s: int)
    requires d > 0
    ensures (k * d + s) % d == s % d
  {
    var q, r := s / d, s % d;
    assert s == q * d + r;
    assert k * d + s == (k + q) * d + r;
    DivModUnique(k * d + s, d, k + q, r);
  }

  // ---------------------------------------------------------------------------
  // Python bit operators on non-negative integers
  // ---------------------------------------------------------------------------

  /** `x << k` */
  function Shl(x: nat, k: nat): nat
  {
    x * Pow2(k)
  }

  /** `x >> k` */
  function Shr(x: nat, k: nat): nat
  {
    DivNonneg(x, Pow2(k));
    x / Pow2(k)
  }

  /** Dividing a natural number by a positive one gives a natural number. */
  lemma DivNonneg(x: nat, d: int)
    requires d >= 1
    ensures x / d >= 0
  {
    DivModSplit(x, d);
    MulNegBelow(x / d, d);
  }

  lemma MulNegBelow(q: int, d: int)
    requires d > 0
    ensures q <= -1 ==> q * d <= -d
  {
    if q <= -1 {
      MulAtLeast(-q, d);
    }
  }

  /** `x & y`, bit by bit from the least significant bit */
  function And(x: nat, y: nat): nat
    decreases x
  {
    if x == 0 || y == 0 then 0
    else 2 * And(x / 2, y / 2) + (if x % 2 == 1 && y % 2 == 1 then 1 else 0)
  }

  /** `x | y`, bit by bit from the least significant bit */
  function Or(x: nat, y: nat): nat
    decreases x + y
  {
    if x == 0 then y
    else if y == 0 then x
    else 2 * Or(x / 2, y / 2) + (if x % 2 == 1 || y % 2 == 1 then 1 else 0)
  }

  /** One step of `And` against an even mask. */
  lemma AndEven(x: nat, y: nat)
    requires y % 2 == 0
    ensures And(x, y) == 2 * And(x / 2, y / 2)
  {
    if x == 0 || y == 0 {
      assert And(x / 2, y / 2) == 0;
    }
  }

  /** One step of `And` against an odd mask. */
  lemma AndOdd(x: nat, y: nat)
    requires y % 2 == 1
    ensures And(x, y) == 2 * And(x / 2, y / 2) + x % 2
  {
    if x == 0 {
      assert And(x / 2, y / 2) == 0;
    }
  }

  lemma ModPow2Step(x: nat, k: nat)
    ensures x % Pow2(k + 1) == 2 * ((x / 2) % Pow2(k)) + x % 2
  {
    var q := x / 2;
    var b := x % 2;
    var c := q % Pow2(k);
    var a := q / Pow2(k);
    assert x == 2 * q + b;
    assert q == a * Pow2(k) + c;
    assert Pow2(k + 1) == 2 * Pow2(k);
    assert x == a * Pow2(k + 1) + (2 * c + b);
    DivModUnique(x, Pow2(k + 1), a, 2 * c + b);
  }

  lemma DivPow2Step(x: nat, k: nat)
    ensures x / Pow2(k + 1) == (x / 2) / Pow2(k)
  {
    DivDiv(x, 2, Pow2(k));
  }

  /** Masking with `2^k - 1` keeps the low k bits: `x & 0xFF`, `x & 0xFFFF`. */
  lemma {:induction false} AndLowMask(x: nat, k: nat)
    ensures And(x, Pow2(k) - 1) == x % Pow2(k)
  {
    if k == 0 {
    } else if x == 0 {
    } else {
      LowMaskHalf(k);
      AndLowMask(x / 2, k - 1);
      AndOdd(x, Pow2(k) - 1);
      ModPow2Step(x, k - 1);
    }
  }

  lemma LowMaskHalf(k: nat)
    requires k > 0
    ensures (Pow2(k) - 1) % 2 == 1 && (Pow2(k) - 1) / 2 == Pow2(k - 1) - 1
  {
    var p := Pow2(k - 1);
    assert Pow2(k) - 1 == 2 * (p - 1) + 1;
    DivModUnique(Pow2(k) - 1, 2, p - 1, 1);
  }

  /** `x & (1 << k)` isolates bit k. */
  lemma {:induction false} AndSingleBit(x: nat, k: nat)
    ensures And(x, Pow2(k)) == (Shr(x, k) % 2) * Pow2(k)
  {
    if x == 0 {
      assert Shr(x, k) == 0;
    } else if k == 0 {
      AndLowestBit(x);
    } else {
      AndSingleBit(x / 2, k - 1);
      AndSingleBitStep(x, k);
    }
  }

  lemma AndLowestBit(x: nat)
    ensures And(x, 1) == x % 2
  {
    AndOdd(x, 1);
    assert And(x / 2, 0) == 0;
  }

  /** The step of AndSingleBit: bit k of x is bit k - 1 of x / 2. */
  lemma AndSingleBitStep(x: nat, k: nat)
    requires k > 0
    requires And(x / 2, Pow2(k - 1)) == (Shr(x / 2, k - 1) % 2) * Pow2(k - 1)
    ensures And(x, Pow2(k)) == (Shr(x, k) % 2) * Pow2(k)
  {
    var p := Pow2(k - 1);
    var pk := Pow2(k);
    assert pk == 2 * p;
    DivModUnique(pk, 2, p, 0);
    AndEven(x, pk);
    DivPow2Step(x, k - 1);
    assert Shr(x, k) == Shr(x / 2, k - 1);
    ScaleStep(And(x, pk), And(x / 2, p), Shr(x, k) % 2, p, pk);
  }

  lemma ScaleStep(a: int, b: int, q: int, p: int, pk: int)
    requires a == 2 * b && b == q * p && pk == 2 * p
    ensures a == q * pk
  {
  }

  /** `(a << k) | b` adds when b fits below bit k. */
  lemma {:induction false} OrDisjoint(a: nat, b: nat, k: nat)
    requires b < Pow2(k)
    ensures Or(Shl(a, k), b) == Shl(a, k) + b
  {
    if a == 0 || b == 0 || k == 0 {
    } else {
      var x := Shl(a, k);
      assert x == 2 * (a * Pow2(k - 1));
      assert x % 2 == 0 && x / 2 == Shl(a, k - 1);
      OrDisjoint(a, b / 2, k - 1);
    }
  }

  /** Clearing the bits below w: `x & (2^n - 2^w)` for an n-bit x. */
  lemma {:induction false} AndHighMask(x: nat, n: nat, w: nat, m: nat)
    requires w <= n && x < Pow2(n) && m + Pow2(w) == Pow2(n)
    ensures And(x, m) == x - x % Pow2(w)
  {
    if w == 0 {
      AndHighMaskAll(x, n, m);
    } else if x == 0 {
    } else if w == n {
      DivModUnique(x, Pow2(w), 0, x);
    } else {
      HighMaskHalf(n, w, m);
      AndHighMask(x / 2, n - 1, w - 1, m / 2);
      AndHighMaskStep(x, w, m, And(x / 2, m / 2));
    }
  }

  /** With no bits cleared the mask is all ones and keeps x. */
  lemma AndHighMaskAll(x: nat, n: nat, m: nat)
    requires x < Pow2(n) && m + Pow2(0) == Pow2(n)
    ensures And(x, m) == x - x % Pow2(0)
  {
    AndLowMask(x, n);
    DivModUnique(x, Pow2(n), 0, x);
  }

  lemma HighMaskHalf(n: nat, w: nat, m: nat)
    requires 0 < w < n && m + Pow2(w) == Pow2(n)
    ensures m % 2 == 0 && m / 2 + Pow2(w - 1) == Pow2(n - 1)
  {
    var pn := Pow2(n - 1);
    var pw := Pow2(w - 1);
    assert Pow2(n) == 2 * pn && Pow2(w) == 2 * pw;
    DivModUnique(m, 2, pn - pw, 0);
  }

  /** The step of AndHighMask: clearing the bits below w of x is clearing the
      bits below w - 1 of x / 2, shifted back up. */
  lemma AndHighMaskStep(x: nat, w: nat, m: nat, h: nat)
    requires w > 0 && m % 2 == 0
    requires h == And(x / 2, m / 2) && h == x / 2 - (x / 2) % Pow2(w - 1)
    ensures And(x, m) == x - x % Pow2(w)
  {
    AndEven(x, m);
    ModPow2Step(x, w - 1);
  }

  lemma ClearFieldMaskStep(n: nat, off: nat, w: nat, m: nat)
    requires 0 < off && off + w <= n
    requires m + (Pow2(w) - 1) * Pow2(off) + 1 == Pow2(n)
    ensures m % 2 == 1
    ensures m / 2 + (Pow2(w) - 1) * Pow2(off - 1) + 1 == Pow2(n - 1)
  {
    var po := Pow2(off - 1);
    var pn := Pow2(n - 1);
    assert Pow2(off) == 2 * po && Pow2(n) == 2 * pn;
    MaskHalf(m, Pow2(w) - 1, po, pn);
  }

  lemma MaskHalf(m: int, c: int, po: int, pn: int)
    requires m + c * (2 * po) + 1 == 2 * pn
    ensures m % 2 == 1
    ensures m / 2 + c * po + 1 == pn
  {
    var k := c * po;
    MulAssoc(c, 2, po);
    assert c * (2 * po) == 2 * k;
    DivModUnique(m, 2, pn - 1 - k, 1);
  }

  lemma FieldGetHalf(x: nat, off: nat, w: nat)
    requires off > 0
    ensures FieldGet(x / 2, off - 1, w) == FieldGet(x, off, w)
  {
    DivPow2Step(x, off - 1);
  }

  lemma ClearFieldRecombine(x: nat, off: nat, f: nat)
    requires off > 0
    ensures 2 * (x / 2 - f * Pow2(off - 1)) + x % 2 == x - f * Pow2(off)
  {
    assert Pow2(off) == 2 * Pow2(off - 1);
    assert f * Pow2(off) == 2 * (f * Pow2(off - 1));
  }

  /** A mask with a zero field (off, w) in an n-bit word clears just that field:
      this is `ctrl & 0xE3` (field 2..4) and `ctrl & 0x1F` (field 5..7) on a byte. */
  lemma {:induction false} AndClearField(x: nat, n: nat, off: nat, w: nat, m: nat)
    requires off + w <= n && x < Pow2(n)
    requires m + (Pow2(w) - 1) * Pow2(off) + 1 == Pow2(n)
    ensures And(x, m) == x - FieldGet(x, off, w) * Pow2(off)
  {
    if off == 0 {
      AndClearLowField(x, n, w, m);
    } else if x == 0 {
      FieldOfZero(off, w);
    } else {
      ClearFieldMaskStep(n, off, w, m);
      HalfBelow(x, n);
      AndClearField(x / 2, n - 1, off - 1, w, m / 2);
      AndClearFieldStep(x, off, w, m);
    }
  }

  lemma FieldOfZero(off: nat, w: nat)
    ensures FieldGet(0, off, w) == 0
  {
    DivModUnique(0, Pow2(off), 0, 0);
    DivModUnique(0, Pow2(w), 0, 0);
  }

  lemma HalfBelow(x: nat, n: nat)
    requires n > 0 && x < Pow2(n)
    ensures x / 2 < Pow2(n - 1)
  {
    assert Pow2(n) == 2 * Pow2(n - 1);
  }

  /** A field at bit 0 is cleared by a mask of the high bits. */
  lemma AndClearLowField(x: nat, n: nat, w: nat, m: nat)
    requires w <= n && x < Pow2(n)
    requires m + (Pow2(w) - 1) * Pow2(0) + 1 == Pow2(n)
    ensures And(x, m) == x - FieldGet(x, 0, w) * Pow2(0)
  {
    assert Pow2(0) == 1;
    assert FieldGet(x, 0, w) == x % Pow2(w);
    AndHighMask(x, n, w, m);
  }

  /** The step of AndClearField: the field (off, w) of x is the field
      (off - 1, w) of x / 2. */
  lemma AndClearFieldStep(x: nat, off: nat, w: nat, m: nat)
    requires off > 0 && m % 2 == 1
    requires And(x / 2, m / 2) == x / 2 - FieldGet(x / 2, off - 1, w) * Pow2(off - 1)
    ensures And(x, m) == x - FieldGet(x, off, w) * Pow2(off)
  {
    AndOdd(x, m);
    FieldGetHalf(x, off, w);
    ClearFieldRecombine(x, off, FieldGet(x, off, w));
  }

  // ---------------------------------------------------------------------------
  // Register bit fields
  // ---------------------------------------------------------------------------

  /** Value of the w-bit field starting at bit off. */
  function FieldGet(x: nat, off: nat, w: nat): nat
  {
    (x / Pow2(off)) % Pow2(w)
  }

  lemma FieldGetBound(x: nat, off: nat, w: nat)
    ensures FieldGet(x, off, w) < Pow2(w)
  {
  }

  /** x split into the bits above the field, the field, and the bits below it. */
  lemma FieldDecompose(x: nat, off: nat, w: nat)
    ensures x == (x / Pow2(off + w)) * Pow2(off + w) + FieldGet(x, off, w) * Pow2(off) + x % Pow2(off)
  {
    Pow2Add(off, w);
    ThreeWaySplit(x, Pow2(off), Pow2(w));
  }

  /** The same split with the powers of two as plain divisors. */
  lemma ThreeWaySplit(x: nat, a: nat, b: nat)
    requires a > 0 && b > 0
    ensures x == (x / (a * b)) * (a * b) + ((x / a) % b) * a + x % a
  {
    var y := x / a;
    DivModSplit(x, a);
    DivModSplit(y, b);
    DivDiv(x, a, b);
    RegroupProduct(y / b, b, y % b, a);
  }

  lemma HighPartBound(b: byte, n: nat)
    requires n <= 8
    ensures b / Pow2(n) < Pow2(8 - n)
  {
    Pow2Add(n, 8 - n);
    assert Pow2(8) == 256;
    DivDiv(b, Pow2(n), Pow2(8 - n));
    assert b / Pow2(8) == 0;
  }

  lemma ThreePartBound(hi: int, f: int, lo: int, a: int, b: int, c: int)
    requires a > 0 && b > 0 && c > 0
    requires 0 <= lo < a && 0 <= f < b && 0 <= hi < c
    ensures 0 <= hi * (a * b) + f * a + lo < (a * b) * c
  {
    MixedBound(lo, f, a, b);
    MixedBound(lo + a * f, hi, a * b, c);
  }

  lemma FieldPutBound(b: byte, off: nat, w: nat, v: nat)
    requires off + w <= 8
    ensures 0 <= (b / Pow2(off + w)) * Pow2(off + w) + (v % Pow2(w)) * Pow2(off) + b % Pow2(off) < 256
  {
    var n := off + w;
    HighPartBound(b, n);
    Pow2Add(off, w);
    Pow2Add(n, 8 - n);
    Pow2Values();
    ThreePartBound(b / Pow2(n), v % Pow2(w), b % Pow2(off), Pow2(off), Pow2(w), Pow2(8 - n));
  }

  /** Write v into the w-bit field at bit off of byte b, keeping every other bit;
      a value wider than the field is cut to its low w bits. */
  function FieldPut(b: byte, off: nat, w: nat, v: nat): (r: byte)
    requires off + w <= 8
  {
    FieldPutBound(b, off, w, v);
    (b / Pow2(off + w)) * Pow2(off + w) + (v % Pow2(w)) * Pow2(off) + b % Pow2(off)
  }

  /** The bits above and below the written field are those of b. */
  lemma FieldPutParts(b: byte, off: nat, w: nat, v: nat)
    requires off + w <= 8
    ensures FieldPut(b, off, w, v) / Pow2(off + w) == b / Pow2(off + w)
    ensures FieldPut(b, off, w, v) % Pow2(off) == b % Pow2(off)
    ensures FieldGet(FieldPut(b, off, w, v), off, w) == v % Pow2(w)
  {
    var n := off + w;
    var hi := b / Pow2(n);
    var lo := b % Pow2(off);
    var f := v % Pow2(w);
    var x := FieldPut(b, off, w, v);
    Pow2Add(off, w);
    MixedBound(lo, f, Pow2(off), Pow2(w));
    DivModUnique(x, Pow2(n), hi, lo + Pow2(off) * f);
    RegroupProduct(hi, Pow2(w), f, Pow2(off));
    DivModUnique(x, Pow2(off), hi * Pow2(w) + f, lo);
    DivModUnique(hi * Pow2(w) + f, Pow2(w), hi, f);
  }

  /** Reading the field back gives the value written (cut to the field width). */
  lemma FieldGetPut(b: byte, off: nat, w: nat, v: nat)
    requires off + w <= 8
    ensures FieldGet(FieldPut(b, off, w, v), off, w) == v % Pow2(w)
  {
    FieldPutParts(b, off, w, v);
  }

  /** Writing back the value just read leaves the byte as it was. */
  lemma FieldPutSame(b: byte, off: nat, w: nat)
    requires off + w <= 8
    ensures FieldPut(b, off, w, FieldGet(b, off, w)) == b
  {
    var f := FieldGet(b, off, w);
    DivModUnique(f, Pow2(w), 0, f);
    assert f % Pow2(w) == f;
    FieldDecompose(b, off, w);
  }

  /** A second write of the same field overrides the first. */
  lemma FieldPutPut(b: byte, off: nat, w: nat, v1: nat, v2: nat)
    requires off + w <= 8
    ensures FieldPut(FieldPut(b, off, w, v1), off, w, v2) == FieldPut(b, off, w, v2)
  {
    FieldPutParts(b, off, w, v1);
  }

  lemma DivOfMultiplePlus(k: int, d: int, s: int)
    requires d > 0
    ensures (k * d + s) / d == k + s / d
  {
    var q, r := s / d, s % d;
    assert s == q * d + r;
    assert k * d + s == (k + q) * d + r;
    DivModUnique(k * d + s, d, k + q, r);
  }

  lemma DivModSplit(x: int, d: int)
    requires d > 0
    ensures x == (x / d) * d + x % d
  {
  }

  lemma MulAssoc(a: int, b: int, c: int)
    ensures a * (b * c) == (a * b) * c
  {
  }

  /** Shifting right by off2 <= off1 splits at bit off1 into a high and a low part. */
  lemma FieldBelowShift(x: nat, off1: nat, off2: nat)
    requires off2 <= off1
    ensures x / Pow2(off2) == (x / Pow2(off1)) * Pow2(off1 - off2) + (x % Pow2(off1)) / Pow2(off2)
  {
    var q := x / Pow2(off1);
    var r := x % Pow2(off1);
    DivModSplit(x, Pow2(off1));
    Pow2Add(off1 - off2, off2);
    MulAssoc(q, Pow2(off1 - off2), Pow2(off2));
    DivOfMultiplePlus(q * Pow2(off1 - off2), Pow2(off2), r);
  }

  lemma FieldBelowMod(q: int, y: int, d: nat, w2: nat)
    requires w2 <= d
    ensures (q * Pow2(d) + y) % Pow2(w2) == y % Pow2(w2)
  {
    Pow2Add(d - w2, w2);
    MulAssoc(q, Pow2(d - w2), Pow2(w2));
    ModOfMultiplePlus(q * Pow2(d - w2), Pow2(w2), y);
  }

  /** A field lying below bit off1 only depends on the bits below off1. */
  lemma FieldBelow(x: nat, off1: nat, off2: nat, w2: nat)
    requires off2 + w2 <= off1
    ensures FieldGet(x, off2, w2) == FieldGet(x % Pow2(off1), off2, w2)
  {
    FieldBelowShift(x, off1, off2);
    FieldBelowMod(x / Pow2(off1), (x % Pow2(off1)) / Pow2(off2), off1 - off2, w2);
  }

  lemma FieldAbove(x: nat, n1: nat, off2: nat, w2: nat)
    requires n1 <= off2
    ensures FieldGet(x, off2, w2) == FieldGet(Shr(x, n1), off2 - n1, w2)
  {
    DivDiv(x, Pow2(n1), Pow2(off2 - n1));
    Pow2Add(n1, off2 - n1);
  }

  /** Writing one field leaves a disjoint field of the same byte unchanged. */
  lemma FieldPutOther(b: byte, off1: nat, w1: nat, v: nat, off2: nat, w2: nat)
    requires off1 + w1 <= 8
    requires off1 + w1 <= off2 || off2 + w2 <= off1
    ensures FieldGet(FieldPut(b, off1, w1, v), off2, w2) == FieldGet(b, off2, w2)
  {
    var x := FieldPut(b, off1, w1, v);
    FieldPutParts(b, off1, w1, v);
    if off1 + w1 <= off2 {
      FieldAbove(x, off1 + w1, off2, w2);
      FieldAbove(b, off1 + w1, off2, w2);
    } else {
      FieldBelow(x, off1, off2, w2);
      FieldBelow(b, off1, off2, w2);
    }
  }

  /** Clearing a field with the complementary mask and adding the new value
      shifted into place, `(b & m) + (v << off)`, is a write of that field. */
  lemma MaskedInsert(b: byte, off: nat, w: nat, m: nat, v: nat)
    requires off + w <= 8 && v < Pow2(w)
    requires m + (Pow2(w) - 1) * Pow2(off) + 1 == Pow2(8)
    ensures And(b, m) + Shl(v, off) == FieldPut(b, off, w, v)
  {
    Pow2Values();
    AndClearField(b, 8, off, w, m);
    FieldDecompose(b, off, w);
    DivModUnique(v, Pow2(w), 0, v);
  }

  /** A field as wide as the byte is the byte. */
  lemma FieldWholeByte(b: byte)
    ensures FieldGet(b, 0, 8) == b
    ensures forall v: byte :: FieldPut(b, 0, 8, v) == v
  {
    assert Pow2(8) == 256;
  }

  // ---------------------------------------------------------------------------
  // Multi-byte reads and sign extension
  // ---------------------------------------------------------------------------

  /** Bytes assembled least significant first (the byte at the lowest register
      address is the least significant). */
  function LittleEndian(s: seq<byte>): nat
  {
    if s == [] then 0 else s[0] + 256 * LittleEndian(s[1..])
  }

  lemma {:induction false} LittleEndianBound(s: seq<byte>)
    ensures LittleEndian(s) < Pow2(8 * |s|)
  {
    if s != [] {
      LittleEndianBound(s[1..]);
      Pow2Add(8, 8 * (|s| - 1));
      assert Pow2(8) == 256;
      assert 8 * |s| == 8 + 8 * (|s| - 1);
      MixedBound(s[0], LittleEndian(s[1..]), 256, Pow2(8 * (|s| - 1)));
    }
  }

  /** Byte i of a little-endian value is found at shift 8*i. */
  lemma {:induction false} LittleEndianByte(s: seq<byte>, i: nat)
    requires i < |s|
    ensures (LittleEndian(s) / Pow2(8 * i)) % 256 == s[i]
  {
    var x := LittleEndian(s);
    if i == 0 {
      DivModUnique(x, 256, LittleEndian(s[1..]), s[0]);
    } else {
      DivModUnique(x, 256, LittleEndian(s[1..]), s[0]);
      Pow2Add(8, 8 * (i - 1));
      assert Pow2(8) == 256;
      assert 8 * i == 8 + 8 * (i - 1);
      DivDiv(x, 256, Pow2(8 * (i - 1)));
      LittleEndianByte(s[1..], i - 1);
    }
  }

  /** `_twos_comp(val, bits)`: sign extension of a bits-wide unsigned value. */
  function TwosComp(val: nat, bits: nat): (r: int)
    requires bits >= 1
    ensures r == val || r == val - Pow2(bits)
    ensures val < Pow2(bits) ==> -(Pow2(bits - 1) as int) <= r < Pow2(bits - 1)
    ensures val < Pow2(bits) ==> (r < 0 <==> val >= Pow2(bits - 1))
  {
    AndSingleBit(val, bits - 1);
    assert Pow2(bits) == 2 * Pow2(bits - 1);
    assert val < Pow2(bits) ==> Shr(val, bits - 1) == (if val >= Pow2(bits - 1) then 1 else 0) by {
      if val < Pow2(bits) {
        if val >= Pow2(bits - 1) {
          DivModUnique(val, Pow2(bits - 1), 1, val - Pow2(bits - 1));
        } else {
          DivModUnique(val, Pow2(bits - 1), 0, val);
        }
      }
    }
    if And(val, Shl(1, bits - 1)) != 0 then val - Shl(1, bits) else val
  }

  /** Sign extension keeps the value modulo 2^bits. */
  lemma TwosCompCongruent(val: nat, bits: nat)
    requires bits >= 1
    ensures TwosComp(val, bits) % Pow2(bits) == val % Pow2(bits)
  {
    if TwosComp(val, bits) != val {
      ModOfMultiplePlus(-1, Pow2(bits), val);
    }
  }

  /** Sign extension inverts the two's-complement encoding `s mod 2^bits`. */
  lemma TwosCompInverts(s: int, bits: nat)
    requires bits >= 1
    requires -(Pow2(bits - 1) as int) <= s < Pow2(bits - 1)
    ensures TwosComp(s % Pow2(bits), bits) == s
  {
    assert Pow2(bits) == 2 * Pow2(bits - 1);
    if s >= 0 {
      DivModUnique(s, Pow2(bits), 0, s);
    } else {
      DivModUnique(s, Pow2(bits), -1, s + Pow2(bits));
    }
  }

  /** The encoding of a sign-extended value is the raw value. */
  lemma TwosCompEncodes(val: nat, bits: nat)
    requires bits >= 1 && val < Pow2(bits)
    ensures TwosComp(val, bits) % Pow2(bits) == val
  {
    TwosCompCongruent(val, bits);
    DivModUnique(val, Pow2(bits), 0, val);
  }
}
