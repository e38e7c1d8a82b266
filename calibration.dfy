/**
 * Trimming coefficients read from the calibration registers: the BMP390
 * `par_*` properties and the BMP280 `dig_*` properties. Each coefficient is one
 * or two register bytes combined with shifts and masks into an unsigned 16-bit,
 * signed 16-bit or signed 8-bit integer.
 */
module Calibration {
  import opened Wrappers
  import opened Bits
  import opened RegisterFile

  predicate U16(v: int) { 0 <= v < 65536 }
  predicate S16(v: int) { -32768 <= v < 32768 }
  predicate S8(v: int) { -128 <= v < 128 }

  /** The byte of one calibration register. */
  function RegByte(r: Regs, reg: nat): byte
    requires reg < 256
  {
    r[reg]
  }

  /** The calibration bytes are read through whole-register descriptors
      `CBits(8, reg, 0)`, and such a read is the register's byte. */
  lemma RegByteIsWholeField(r: Regs, reg: nat)
    requires reg < 256
    ensures Get(r, Field(8, reg, 0)) == RegByte(r, reg)
  {
    FieldWholeByte(r[reg]);
  }

  lemma ShiftOrByte(msb: byte, lsb: byte)
    ensures Or(Shl(msb, 8), lsb) == msb * 256 + lsb
  {
    Pow2Values();
    OrDisjoint(msb, lsb, 8);
  }

  /** `(msb << 8) | lsb`: the unmasked combination of `par_p5` and `par_p6`. */
  function Combine(msb: byte, lsb: byte): (r: nat)
    ensures r == msb * 256 + lsb
    ensures U16(r)
  {
    ShiftOrByte(msb, lsb);
    Or(Shl(msb, 8), lsb)
  }

  /** `((msb << 8) | lsb) & 0xFFFF`: `par_t1`, `par_t2`, `_combine_unsigned`
      and the older revision's `dig_t1`, `dig_p1`. The mask changes nothing. */
  function CombineMasked(msb: byte, lsb: byte): (r: nat)
    ensures r == Combine(msb, lsb)
  {
    var x := Or(Shl(msb, 8), lsb);
    ShiftOrByte(msb, lsb);
    Pow2Values();
    AndLowMask(x, 16);
    DivModUnique(x, 65536, 0, x);
    And(x, 0xFFFF)
  }

  /** `par_p1`, `par_p2`, `par_p9`: subtract 0x10000 from the combination when
      it is at least 0x8000, giving the one value of [-32768, 32768) that is
      congruent to the combination modulo 2^16. */
  function Signed16(msb: byte, lsb: byte): (r: int)
    ensures S16(r)
    ensures r == Combine(msb, lsb) || r == Combine(msb, lsb) - 65536
    ensures r < 0 <==> msb >= 128
  {
    var c := Or(Shl(msb, 8), lsb);
    ShiftOrByte(msb, lsb);
    if c >= 0x8000 then c - 0x10000 else c
  }

  /** The combiners' sign extension is `_twos_comp(combined, 16)`. */
  lemma Signed16IsTwosComp(msb: byte, lsb: byte)
    ensures Signed16(msb, lsb) == TwosComp(Combine(msb, lsb), 16)
  {
    Pow2Values();
  }

  /** `_combine_signed` and the older revision's `dig_p2` .. `dig_p9`: the same
      sign extension, testing bit 15 with `& 0x8000`. */
  function CombineSigned(msb: byte, lsb: byte): (r: int)
    ensures r == Signed16(msb, lsb)
  {
    var c := Or(Shl(msb, 8), lsb);
    ShiftOrByte(msb, lsb);
    Pow2Values();
    AndSingleBit(c, 15);
    assert Shr(c, 15) == (if c >= 0x8000 then 1 else 0) by {
      if c >= 0x8000 {
        DivModUnique(c, 32768, 1, c - 32768);
      } else {
        DivModUnique(c, 32768, 0, c);
      }
    }
    if And(c, 0x8000) != 0 then c - 0x10000 else c
  }

  /** `par_t3`, `par_p3`, `par_p4`, `par_p7`, `par_p8`, `par_p10`, `par_p11`:
      `b if b <= 127 else b - 256`, the one value of [-128, 128) congruent to b
      modulo 2^8. */
  function Signed8(b: byte): (r: int)
    ensures S8(r)
    ensures r == b || r == b - 256
    ensures r < 0 <==> b >= 128
  {
    if b <= 127 then b else b - 256
  }

  /** Single-byte sign extension is `_twos_comp(b, 8)`. */
  lemma Signed8IsTwosComp(b: byte)
    ensures Signed8(b) == TwosComp(b, 8)
  {
    Pow2Values();
  }

  // ---------------------------------------------------------------------------
  // Encodings: each decoder is inverted by the encoding the sensor stores
  // ---------------------------------------------------------------------------

  function Msb(v: nat): byte
    requires v < 65536
  {
    v / 256
  }

  function Lsb(v: nat): byte
  {
    v % 256
  }

  /** Two's-complement encoding of a signed 16-bit value. */
  function Enc16(s: int): (v: nat)
    requires S16(s)
    ensures U16(v)
  {
    if s < 0 then s + 65536 else s
  }

  /** Two's-complement encoding of a signed 8-bit value. */
  function Enc8(s: int): (v: byte)
    requires S8(s)
  {
    if s < 0 then s + 256 else s
  }

  /** Splitting a 16-bit value into its two bytes and combining them gives it back. */
  lemma CombineInverts(v: nat)
    requires v < 65536
    ensures Combine(Msb(v), Lsb(v)) == v
  {
  }

  /** Distinct byte pairs give distinct combinations. */
  lemma CombineInjective(m1: byte, l1: byte, m2: byte, l2: byte)
    requires Combine(m1, l1) == Combine(m2, l2)
    ensures m1 == m2 && l1 == l2
  {
    DivModUnique(Combine(m1, l1), 256, m1, l1);
    DivModUnique(Combine(m2, l2), 256, m2, l2);
  }

  /** Signed 16-bit decoding inverts two's-complement encoding. */
  lemma Signed16Inverts(s: int)
    requires S16(s)
    ensures Signed16(Msb(Enc16(s)), Lsb(Enc16(s))) == s
  {
    CombineInverts(Enc16(s));
  }

  lemma Signed16Injective(m1: byte, l1: byte, m2: byte, l2: byte)
    requires Signed16(m1, l1) == Signed16(m2, l2)
    ensures m1 == m2 && l1 == l2
  {
    CombineInjective(m1, l1, m2, l2);
  }

  lemma Signed8Inverts(s: int)
    requires S8(s)
    ensures Signed8(Enc8(s)) == s
  {
  }

  /** Registers reg and reg + 1 hold the 16-bit value v, least significant
      byte first. */
  predicate Holds16(r: Regs, reg: nat, v: nat)
  {
    reg + 1 < 256 && (r[reg] as int) + 256 * (r[reg + 1] as int) == v
  }

  // ---------------------------------------------------------------------------
  // BMP390 par_* coefficients
  // ---------------------------------------------------------------------------

  datatype Bmp390Par = Bmp390Par(
    t1: int, t2: int, t3: int,
    p1: int, p2: int, p3: int, p4: int, p5: int, p6: int,
    p7: int, p8: int, p9: int, p10: int, p11: int)

  /** The ranges the BMP390 coefficients can take. */
  predicate Bmp390ParInRange(c: Bmp390Par)
  {
    U16(c.t1) && U16(c.t2) && S8(c.t3) &&
    S16(c.p1) && S16(c.p2) && S8(c.p3) && S8(c.p4) && U16(c.p5) && U16(c.p6) &&
    S8(c.p7) && S8(c.p8) && S16(c.p9) && S8(c.p10) && S8(c.p11)
  }

  /** All fourteen BMP390 coefficients, read from registers 0x31 .. 0x45. */
  function Bmp390Calibration(r: Regs): (c: Bmp390Par)
    ensures Bmp390ParInRange(c)
  {
    Bmp390Par(
      CombineMasked(RegByte(r, 0x32), RegByte(r, 0x31)),
      CombineMasked(RegByte(r, 0x34), RegByte(r, 0x33)),
      Signed8(RegByte(r, 0x35)),
      Signed16(RegByte(r, 0x37), RegByte(r, 0x36)),
      Signed16(RegByte(r, 0x39), RegByte(r, 0x38)),
      Signed8(RegByte(r, 0x3A)),
      Signed8(RegByte(r, 0x3B)),
      Combine(RegByte(r, 0x3D), RegByte(r, 0x3C)),
      Combine(RegByte(r, 0x3F), RegByte(r, 0x3E)),
      Signed8(RegByte(r, 0x40)),
      Signed8(RegByte(r, 0x41)),
      Signed16(RegByte(r, 0x43), RegByte(r, 0x42)),
      Signed8(RegByte(r, 0x44)),
      Signed8(RegByte(r, 0x45)))
  }

  /** r holds the encoding of c in the BMP390 calibration registers. */
  predicate Bmp390Stores(r: Regs, c: Bmp390Par)
    requires Bmp390ParInRange(c)
  {
    Holds16(r, 0x31, c.t1) && Holds16(r, 0x33, c.t2) && r[0x35] == Enc8(c.t3) &&
    Holds16(r, 0x36, Enc16(c.p1)) && Holds16(r, 0x38, Enc16(c.p2)) &&
    r[0x3A] == Enc8(c.p3) && r[0x3B] == Enc8(c.p4) &&
    Holds16(r, 0x3C, c.p5) && Holds16(r, 0x3E, c.p6) &&
    r[0x40] == Enc8(c.p7) && r[0x41] == Enc8(c.p8) &&
    Holds16(r, 0x42, Enc16(c.p9)) && r[0x44] == Enc8(c.p10) && r[0x45] == Enc8(c.p11)
  }

  /** Decoding inverts encoding: every in-range coefficient set is read back
      from registers that store it. */
  lemma Bmp390CalibrationRoundTrip(r: Regs, c: Bmp390Par)
    requires Bmp390ParInRange(c) && Bmp390Stores(r, c)
    ensures Bmp390Calibration(r) == c
  {
  }

  // ---------------------------------------------------------------------------
  // BMP280 dig_* coefficients
  // ---------------------------------------------------------------------------

  datatype Bmp280Dig = Bmp280Dig(
    t1: int, t2: int, t3: int,
    p1: int, p2: int, p3: int, p4: int, p5: int, p6: int, p7: int, p8: int, p9: int)

  predicate Bmp280DigInRange(c: Bmp280Dig)
  {
    U16(c.t1) && S16(c.t2) && S16(c.t3) && U16(c.p1) &&
    S16(c.p2) && S16(c.p3) && S16(c.p4) && S16(c.p5) && S16(c.p6) &&
    S16(c.p7) && S16(c.p8) && S16(c.p9)
  }

  /** A signed coefficient stored lsb at reg, msb at reg + 1. */
  function SignedAt(r: Regs, reg: nat): int
    requires reg + 1 < 256
  {
    CombineSigned(RegByte(r, reg + 1), RegByte(r, reg))
  }

  /** The twelve BMP280 coefficients, registers 0x88 .. 0x9F, each stored
      least significant byte first; only `dig_t1` and `dig_p1` are unsigned. */
  function Bmp280Calibration(r: Regs): (c: Bmp280Dig)
    ensures Bmp280DigInRange(c)
  {
    Bmp280Dig(
      CombineMasked(RegByte(r, 0x89), RegByte(r, 0x88)),
      SignedAt(r, 0x8A),
      SignedAt(r, 0x8C),
      CombineMasked(RegByte(r, 0x8F), RegByte(r, 0x8E)),
      SignedAt(r, 0x90),
      SignedAt(r, 0x92),
      SignedAt(r, 0x94),
      SignedAt(r, 0x96),
      SignedAt(r, 0x98),
      SignedAt(r, 0x9A),
      SignedAt(r, 0x9C),
      SignedAt(r, 0x9E))
  }

  /** r holds the encoding of c in the BMP280 calibration registers. */
  predicate Bmp280Stores(r: Regs, c: Bmp280Dig)
    requires Bmp280DigInRange(c)
  {
    Holds16(r, 0x88, c.t1) && Holds16(r, 0x8A, Enc16(c.t2)) && Holds16(r, 0x8C, Enc16(c.t3)) &&
    Holds16(r, 0x8E, c.p1) && Holds16(r, 0x90, Enc16(c.p2)) && Holds16(r, 0x92, Enc16(c.p3)) &&
    Holds16(r, 0x94, Enc16(c.p4)) && Holds16(r, 0x96, Enc16(c.p5)) && Holds16(r, 0x98, Enc16(c.p6)) &&
    Holds16(r, 0x9A, Enc16(c.p7)) && Holds16(r, 0x9C, Enc16(c.p8)) && Holds16(r, 0x9E, Enc16(c.p9))
  }

  /** Decoding inverts encoding for every in-range BMP280 coefficient set. */
  lemma Bmp280CalibrationRoundTrip(r: Regs, c: Bmp280Dig)
    requires Bmp280DigInRange(c) && Bmp280Stores(r, c)
    ensures Bmp280Calibration(r) == c
  {
  }

  /** The older revision's coefficients: `dig_t2` and `dig_t3` compute the
      signed value into a local and fall off the end, so they return None. */
  datatype LegacyBmp280Dig = LegacyBmp280Dig(
    t1: int, t2: Option<int>, t3: Option<int>,
    p1: int, p2: int, p3: int, p4: int, p5: int, p6: int, p7: int, p8: int, p9: int)

  /** `dig_t2` / `dig_t3` of the older revision: the sign-extended value is
      assigned to `combined` and never returned. */
  function LegacyDigT(msb: byte, lsb: byte): (r: Option<int>)
    ensures r.None?
  {
    None
  }

  function LegacyBmp280Calibration(r: Regs): (c: LegacyBmp280Dig)
    ensures c.t2 == None && c.t3 == None
    ensures var d := Bmp280Calibration(r);
      c.t1 == d.t1 && c.p1 == d.p1 && c.p2 == d.p2 && c.p3 == d.p3 && c.p4 == d.p4 &&
      c.p5 == d.p5 && c.p6 == d.p6 && c.p7 == d.p7 && c.p8 == d.p8 && c.p9 == d.p9
  {
    LegacyBmp280Dig(
      CombineMasked(RegByte(r, 0x89), RegByte(r, 0x88)),
      LegacyDigT(RegByte(r, 0x8B), RegByte(r, 0x8A)),
      LegacyDigT(RegByte(r, 0x8D), RegByte(r, 0x8C)),
      CombineMasked(RegByte(r, 0x8F), RegByte(r, 0x8E)),
      SignedAt(r, 0x90),
      SignedAt(r, 0x92),
      SignedAt(r, 0x94),
      SignedAt(r, 0x96),
      SignedAt(r, 0x98),
      SignedAt(r, 0x9A),
      SignedAt(r, 0x9C),
      SignedAt(r, 0x9E))
  }
}
