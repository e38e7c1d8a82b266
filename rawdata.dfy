/**
 * The BMP280's measurement block: one 48-bit read of registers 0xF7 .. 0xFC
 * split by shifts and masks into a 20-bit pressure count and a 20-bit
 * temperature count (`_get_raw_temp_pressure`).
 */
module RawData {
  import opened Bits
  import opened RegisterFile

  /** `(raw >> (8 * k)) & 0xFF`: byte k of a multi-byte read. */
  function ByteAt(raw: nat, k: nat): (b: byte)
    ensures b == (raw / Pow2(8 * k)) % 256
  {
    Pow2Values();
    AndLowMask(Shr(raw, 8 * k), 8);
    And(Shr(raw, 8 * k), 0xFF)
  }

  /** `(msb << 12) | (lsb << 4) | (xlsb >> 4)`: a 20-bit count whose low
      four bits are the top nibble of the xlsb byte. */
  function Raw20(msb: byte, lsb: byte, xlsb: byte): (v: nat)
    ensures v == msb * 4096 + lsb * 16 + xlsb / 16
    ensures v < Pow2(20)
  {
    Pow2Values();
    OrDisjoint(msb, Shl(lsb, 4), 12);
    assert Shl(msb, 12) + Shl(lsb, 4) == Shl(msb * 256 + lsb, 4);
    OrDisjoint(msb * 256 + lsb, Shr(xlsb, 4), 4);
    Or(Or(Shl(msb, 12), Shl(lsb, 4)), Shr(xlsb, 4))
  }

  /** The two counts of one read of the measurement block. */
  datatype RawCounts = RawCounts(t: nat, p: nat)

  /** The shift-and-mask half of `_get_raw_temp_pressure`: the pressure count
      from the bytes at shifts 0, 8, 16 and the temperature count from those at
      shifts 24, 32, 40, both out of the same value. */
  function DecodeRaw(raw: nat): (c: RawCounts)
    ensures c.t < Pow2(20) && c.p < Pow2(20)
  {
    var t_xlsb := ByteAt(raw, 5);
    var t_lsb := ByteAt(raw, 4);
    var t_msb := ByteAt(raw, 3);
    var p_xlsb := ByteAt(raw, 2);
    var p_lsb := ByteAt(raw, 1);
    var p_msb := ByteAt(raw, 0);
    RawCounts(Raw20(t_msb, t_lsb, t_xlsb), Raw20(p_msb, p_lsb, p_xlsb))
  }

  /** Read as six bytes least significant first, the block yields the pressure
      count from its first three bytes and the temperature count from the next
      three, each in msb, lsb, xlsb order. */
  lemma DecodeRawBytes(s: seq<byte>)
    requires |s| == 6
    ensures DecodeRaw(LittleEndian(s)) == RawCounts(Raw20(s[3], s[4], s[5]), Raw20(s[0], s[1], s[2]))
  {
    var x := LittleEndian(s);
    LittleEndianByte(s, 0);
    LittleEndianByte(s, 1);
    LittleEndianByte(s, 2);
    LittleEndianByte(s, 3);
    LittleEndianByte(s, 4);
    LittleEndianByte(s, 5);
    assert ByteAt(x, 0) == s[0] && ByteAt(x, 1) == s[1] && ByteAt(x, 2) == s[2];
    assert ByteAt(x, 3) == s[3] && ByteAt(x, 4) == s[4] && ByteAt(x, 5) == s[5];
  }

  /** The register-level reading: pressure msb, lsb, xlsb at 0xF7, 0xF8, 0xF9
      and temperature msb, lsb, xlsb at 0xFA, 0xFB, 0xFC. */
  lemma DecodeRawRegisters(r: Regs)
    ensures DecodeRaw(Span(r, 0xF7, 6)) ==
      RawCounts(Raw20(r[0xFA], r[0xFB], r[0xFC]), Raw20(r[0xF7], r[0xF8], r[0xF9]))
  {
    DecodeRawBytes(r[0xF7..0xFD]);
  }

  /** Only the top nibble of the xlsb byte contributes; msb, lsb and that
      nibble are all recovered from the count. */
  lemma Raw20Injective(m1: byte, l1: byte, x1: byte, m2: byte, l2: byte, x2: byte)
    requires Raw20(m1, l1, x1) == Raw20(m2, l2, x2)
    ensures m1 == m2 && l1 == l2 && x1 / 16 == x2 / 16
  {
    var v := Raw20(m1, l1, x1);
    DivModUnique(v, 4096, m1, l1 * 16 + x1 / 16);
    DivModUnique(v, 4096, m2, l2 * 16 + x2 / 16);
    DivModUnique(l1 * 16 + x1 / 16, 16, l1, x1 / 16);
    DivModUnique(l2 * 16 + x2 / 16, 16, l2, x2 / 16);
  }

  /** The three bytes the sensor stores for a 20-bit count, the unused low
      nibble of xlsb zero. */
  function Encode20(v: nat): (b: (byte, byte, byte))
    requires v < 1048576
    ensures b.2 % 16 == 0
  {
    (v / 4096, (v / 16) % 256, (v % 16) * 16)
  }

  /** Decoding inverts encoding for every 20-bit count. */
  lemma Raw20Inverts(v: nat)
    requires v < 1048576
    ensures var b := Encode20(v); Raw20(b.0, b.1, b.2) == v
  {
    DivDiv(v, 16, 256);
    DivModSplit(v / 16, 256);
    DivModSplit(v, 16);
    DivModUnique((v % 16) * 16, 16, v % 16, 0);
  }

  /** The six bytes of the measurement block for a pair of counts. */
  function EncodeBlock(c: RawCounts): (s: seq<byte>)
    requires c.t < 1048576 && c.p < 1048576
    ensures |s| == 6
  {
    var p := Encode20(c.p);
    var t := Encode20(c.t);
    [p.0, p.1, p.2, t.0, t.1, t.2]
  }

  /** Every pair of 20-bit counts is read back from the block that stores it. */
  lemma DecodeRawInverts(c: RawCounts)
    requires c.t < 1048576 && c.p < 1048576
    ensures DecodeRaw(LittleEndian(EncodeBlock(c))) == c
  {
    var s := EncodeBlock(c);
    DecodeRawBytes(s);
    Raw20Inverts(c.p);
    Raw20Inverts(c.t);
  }
}
