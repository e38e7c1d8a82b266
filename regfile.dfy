/**
 * The sensor's register map as the drivers see it through their bit-field
 * descriptors: 256 byte-wide registers, each field a (width, register, bit
 * offset) slice of one byte, and multi-byte data blocks read as one integer
 * assembled least significant byte first.
 */
module RegisterFile {
  import opened Bits

  type Regs = s: seq<byte> | |s| == 256 witness seq(256, i => 0)

  /** A field descriptor `CBits(width, register, offset)` inside one byte. */
  datatype Field = Field(width: nat, reg: nat, off: nat)
  {
    predicate Valid()
    {
      reg < 256 && off + width <= 8
    }
  }

  /** Two fields that share no bit. */
  predicate Disjoint(f: Field, g: Field)
  {
    f.reg != g.reg || f.off + f.width <= g.off || g.off + g.width <= f.off
  }

  /** Reading a field: its bits of its register, shifted down. */
  function Get(r: Regs, f: Field): (v: nat)
    requires f.Valid()
    ensures v < Pow2(f.width)
  {
    FieldGetBound(r[f.reg], f.off, f.width);
    FieldGet(r[f.reg], f.off, f.width)
  }

  /** Writing a field: the register keeps every bit outside the field; the
      value is cut to the field width. */
  function Set(r: Regs, f: Field, v: nat): (r': Regs)
    requires f.Valid()
    ensures Get(r', f) == v % Pow2(f.width)
    ensures forall i :: 0 <= i < 256 && i != f.reg ==> r'[i] == r[i]
  {
    FieldGetPut(r[f.reg], f.off, f.width, v);
    r[f.reg := FieldPut(r[f.reg], f.off, f.width, v)]
  }

  /** Writing a field leaves every disjoint field as it was. */
  lemma SetKeepsOther(r: Regs, f: Field, g: Field, v: nat)
    requires f.Valid() && g.Valid() && Disjoint(f, g)
    ensures Get(Set(r, f, v), g) == Get(r, g)
  {
    if f.reg == g.reg {
      FieldPutOther(r[f.reg], f.off, f.width, v, g.off, g.width);
    }
  }

  /** Writing back what was read changes nothing. */
  lemma SetGet(r: Regs, f: Field)
    requires f.Valid()
    ensures Set(r, f, Get(r, f)) == r
  {
    FieldPutSame(r[f.reg], f.off, f.width);
  }

  /** A second write of a field overrides the first. */
  lemma SetSet(r: Regs, f: Field, v1: nat, v2: nat)
    requires f.Valid()
    ensures Set(Set(r, f, v1), f, v2) == Set(r, f, v2)
  {
    FieldPutPut(r[f.reg], f.off, f.width, v1, v2);
  }

  /** Writes to fields of different registers commute. */
  lemma SetCommute(r: Regs, f: Field, g: Field, a: nat, b: nat)
    requires f.Valid() && g.Valid() && f.reg != g.reg
    ensures Set(Set(r, f, a), g, b) == Set(Set(r, g, b), f, a)
  {
  }

  /** A write to another register does not change a field's value. */
  lemma GetSetOther(r: Regs, f: Field, g: Field, a: nat)
    requires f.Valid() && g.Valid() && f.reg != g.reg
    ensures Get(Set(r, f, a), g) == Get(r, g)
  {
  }

  /** A read of n consecutive registers starting at reg, the byte at the
      lowest address being the least significant. */
  function Span(r: Regs, reg: nat, n: nat): (v: nat)
    requires reg + n <= 256
    ensures v < Pow2(8 * n)
  {
    LittleEndianBound(r[reg..reg + n]);
    LittleEndian(r[reg..reg + n])
  }
}
