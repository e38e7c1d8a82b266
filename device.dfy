/**
 * The sensor classes' properties as transitions of one device: the register
 * file behind the bus, plus the ordered record of field writes and delays
 * the driver issues. A setter validates its argument against the class's
 * tuple, raising ValueError, and then writes one or more register fields; a
 * getter indexes a name tuple with a field's value. Construction resolves
 * the bus address, checks the device ID and runs the class's start-up
 * writes.
 */
module Device {
  import opened Wrappers
  import opened Bits
  import opened RegisterFile
  import opened Tables
  import opened Layout

  /** What the driver does to the device, in order. */
  datatype Event = Write(field: Field, value: nat) | Sleep(ms: nat)

  /** The device's registers and the driver's traffic so far. */
  datatype Dev = Dev(regs: Regs, log: seq<Event>)

  datatype Status = Ok | Raised(error: Error)

  /** The device after a property assignment, and whether it raised. */
  datatype Outcome = Outcome(dev: Dev, status: Status)

  /** Assigning a `CBits` field. */
  function Put(d: Dev, f: Field, v: nat): Dev
    requires f.Valid()
  {
    Dev(Set(d.regs, f, v), d.log + [Write(f, v)])
  }

  function Pause(d: Dev, ms: nat): Dev
  {
    Dev(d.regs, d.log + [Sleep(ms)])
  }

  /** `names[self._field]`: a code past the end of the tuple raises IndexError. */
  function NameOf(names: seq<string>, r: Regs, f: Field): Result<string>
    requires f.Valid()
  {
    var code := Get(r, f);
    if code < |names| then Success(names[code]) else Failure(IndexError)
  }

  // ---------------------------------------------------------------------------
  // Getters
  // ---------------------------------------------------------------------------

  function PowerNamesOf(c: Chip, rev: Revision): seq<string>
  {
    match c
    case BMP390 => Bmp390PowerNames
    case BMP280 => if rev.Current? then Bmp280PowerNames else LegacyBmp280PowerNames
    case _ => PowerNames
  }

  function OsrNamesOf(c: Chip, rev: Revision): seq<string>
  {
    match c
    case BMP390 => Bmp390OsrNames
    case BMP280 => if rev.Current? then Bmp280OsrNames else LegacyBmp280OsrNames
    case _ => OsrNames
  }

  /** The `power_mode` getter. The BMP581/585 table and the current BMP280
      table name every 2-bit code; the three-entry BMP390 table and the older
      BMP280 table have no name for code 3, the normal mode of both. */
  function PowerModeName(c: Chip, rev: Revision, r: Regs): (res: Result<string>)
    ensures Is58x(c) ==> res == Success(PowerNames[Get(r, PowerField(c))])
    ensures c == BMP280 && rev.Current? ==> res == Success(Bmp280PowerNames[Get(r, PowerField(c))])
    ensures c == BMP390 ==> (res.Success? <==> Get(r, PowerField(c)) < 3)
    ensures c == BMP280 && rev.Legacy? ==> (res.Success? <==> Get(r, PowerField(c)) < 3)
    ensures res.Failure? ==> res.error == IndexError
  {
    Pow2Values();
    NameOf(PowerNamesOf(c, rev), r, PowerField(c))
  }

  /** The measured quantity an oversampling property belongs to. */
  datatype Quantity = Pressure | Temperature

  function OsrField(c: Chip, q: Quantity): (f: Field)
    ensures f.Valid() && f.width == 3
  {
    if q == Pressure then PressureOsrField(c) else TemperatureOsrField(c)
  }

  /** The `pressure_oversample_rate` and `temperature_oversample_rate`
      getters. Only the BMP581/585 table names all eight 3-bit codes. */
  function OsrName(c: Chip, rev: Revision, q: Quantity, r: Regs): (res: Result<string>)
    ensures Is58x(c) ==> res == Success(OsrNames[Get(r, OsrField(c, q))])
    ensures !Is58x(c) ==> (res.Success? <==> Get(r, OsrField(c, q)) < 6)
    ensures res.Failure? ==> res.error == IndexError
  {
    NameOf(OsrNamesOf(c, rev), r, OsrField(c, q))
  }

  /** The `iir_coefficient` getter: its table names every 3-bit code. */
  function IirName(c: Chip, rev: Revision, r: Regs): (res: Result<string>)
    ensures res == Success(IirNames[Get(r, IirField(c, rev))])
  {
    NameOf(IirNames, r, IirField(c, rev))
  }

  /** The `output_data_rate` getter returns the field. */
  function OutputDataRate(c: Chip, r: Regs): (v: nat)
    ensures v < 32
  {
    Pow2Values();
    Get(r, OdrField(c))
  }

  /** The BMP581/585 `_temperature` and `_pressure` reads: three registers
      least significant first, sign-extended from 24 bits (`_twos_comp`). */
  function SignedCount(r: Regs, reg: nat): (v: int)
    requires reg + 3 <= 256
    ensures -8388608 <= v < 8388608
  {
    Pow2Values();
    TwosComp(Span(r, reg, 3), 24)
  }

  /** The first registers of the BMP581/585 `_temperature` and `_pressure`
      descriptors. */
  const TemperatureRegister := 0x1D
  const PressureRegister := 0x20

  /** The BMP581/585 temperature and pressure counts occupy disjoint register
      runs, so any pair of signed counts stored there is read back, each
      by its own property. */
  lemma Bmp58xCountsReadBack(r: Regs, t: int, p: int)
    requires -8388608 <= t < 8388608 && -8388608 <= p < 8388608
    requires Span(r, TemperatureRegister, 3) == t % 16777216
    requires Span(r, PressureRegister, 3) == p % 16777216
    ensures TemperatureRegister + 3 <= PressureRegister
    ensures SignedCount(r, TemperatureRegister) == t && SignedCount(r, PressureRegister) == p
  {
    SignedCountInverts(r, TemperatureRegister, t);
    SignedCountInverts(r, PressureRegister, p);
  }

  /** Every signed 24-bit count stored in its three registers is read back. */
  lemma SignedCountInverts(r: Regs, reg: nat, s: int)
    requires reg + 3 <= 256 && -8388608 <= s < 8388608
    requires Span(r, reg, 3) == s % 16777216
    ensures SignedCount(r, reg) == s
  {
    Pow2Values();
    TwosCompInverts(s, 24);
  }

  // ---------------------------------------------------------------------------
  // Power mode
  // ---------------------------------------------------------------------------

  /** The `power_mode` setter. In the older revision the BMP390 and BMP280
      setters name the bare `power_mode_values`, which is not defined there,
      and raise NameError before anything else. The current BMP280 setter
      passes the value through `Bmp280PowerRemap`. */
  function SetPowerMode(c: Chip, rev: Revision, d: Dev, v: int): (o: Outcome)
    ensures o.status == Ok <==> (rev.Current? || Is58x(c)) && v in PowerModeValues(c)
    ensures o.status.Raised? ==> o.dev == d
    ensures o.status.Raised? ==>
      o.status.error == (if rev.Legacy? && !Is58x(c) then NameError else ValueError)
    ensures o.status == Ok ==> 0 <= v && o.dev == Put(d, PowerField(c), v)
  {
    PowerModeValuesRange(c, v);
    if rev.Legacy? && !Is58x(c) then Outcome(d, Raised(NameError))
    else if v !in PowerModeValues(c) then Outcome(d, Raised(ValueError))
    else
      var code := if c == BMP280 then Bmp280PowerRemap(v) else v;
      assert code == v;
      Outcome(Put(d, PowerField(c), code), Ok)
  }

  /** Setting a BMP581/585 power mode reads back under its own name. */
  lemma Bmp58xPowerModeRoundTrip(c: Chip, rev: Revision, d: Dev, v: int)
    requires Is58x(c) && v in PowerModeValues(c)
    ensures var o := SetPowerMode(c, rev, d, v);
      o.status == Ok && PowerModeName(c, rev, o.dev.regs) == Success(PowerNames[v])
  {
    PowerModeValuesRange(c, v);
    Pow2Values();
    var o := SetPowerMode(c, rev, d, v);
    assert Get(o.dev.regs, PowerField(c)) == v;
  }

  /** The BMP390 getter reads the NORMAL the setter writes as "FORCED" and
      FORCED as "NORMAL". */
  lemma Bmp390PowerModeReadsSwapped(d: Dev, v: int)
    requires v == NORMAL || v == FORCED
    ensures var o := SetPowerMode(BMP390, Current, d, v);
      o.status == Ok &&
      PowerModeName(BMP390, Current, o.dev.regs) == Success(PowerNames[3 - v])
  {
  }

  /** The current BMP280 setter never writes the BMP280's normal-mode code:
      NORMAL is written as 1, which the BMP280 getter names "FORCED". */
  lemma Bmp280PowerNeverNormal(d: Dev, v: int)
    ensures var o := SetPowerMode(BMP280, Current, d, v);
      Get(o.dev.regs, PowerField(BMP280)) == Get(d.regs, PowerField(BMP280)) ||
      Get(o.dev.regs, PowerField(BMP280)) != BMP280_NORMAL_POWER
    ensures var o := SetPowerMode(BMP280, Current, d, NORMAL);
      o.status == Ok && PowerModeName(BMP280, Current, o.dev.regs) == Success("FORCED")
  {
    Bmp280PowerWrittenAsIs(d, v);
    Bmp280PowerWrittenAsIs(d, NORMAL);
  }

  /** An accepted BMP280 power value lands in the field unchanged. */
  lemma Bmp280PowerWrittenAsIs(d: Dev, v: int)
    ensures var o := SetPowerMode(BMP280, Current, d, v);
      o.status == Ok ==> 0 <= v <= 2 && Get(o.dev.regs, PowerField(BMP280)) == v
  {
    var o := SetPowerMode(BMP280, Current, d, v);
    if o.status == Ok {
      PowerModeValuesRange(BMP280, v);
      Pow2Values();
      assert o.dev.regs == Set(d.regs, PowerField(BMP280), v);
      CodeWritten(d.regs, PowerField(BMP280), v);
    }
  }

  /** In the older revision the BMP390 and BMP280 power setters raise
      NameError for every value and leave the device alone. */
  lemma LegacyPowerModeNameError(c: Chip, d: Dev, v: int)
    requires c == BMP390 || c == BMP280
    ensures SetPowerMode(c, Legacy, d, v) == Outcome(d, Raised(NameError))
  {
  }

  /** The older BMP390 and BMP280 power setters as intended: the guard tests
      the class's own `power_mode_values`, and the BMP280 then applies the
      older single remap of NORMAL to its normal-mode code. */
  function CorrectedLegacySetPowerMode(c: Chip, d: Dev, v: int): (o: Outcome)
    requires c == BMP390 || c == BMP280
    ensures o.status == Ok <==> v in PowerModeValues(c)
    ensures o.status.Raised? ==> o == Outcome(d, Raised(ValueError))
  {
    if v !in PowerModeValues(c) then Outcome(d, Raised(ValueError))
    else
      PowerModeValuesRange(c, v);
      Outcome(Put(d, PowerField(c), if c == BMP280 then Bmp280PowerCode(v) else v), Ok)
  }

  /** The corrected older setters write exactly the intended code: on the
      BMP390 the current revision's transition, on the BMP280 NORMAL as the
      normal-mode code 3 and every other accepted mode as itself. */
  lemma CorrectedLegacyPowerModeWrites(c: Chip, d: Dev, v: int)
    requires (c == BMP390 || c == BMP280) && v in PowerModeValues(c)
    ensures var o := CorrectedLegacySetPowerMode(c, d, v);
      o.status == Ok &&
      (c == BMP390 ==> o == SetPowerMode(BMP390, Current, d, v)) &&
      (c == BMP280 ==> Get(o.dev.regs, PowerField(c)) == Bmp280PowerCode(v)) &&
      (c == BMP280 ==> (Get(o.dev.regs, PowerField(c)) == BMP280_NORMAL_POWER <==> v == NORMAL))
  {
    PowerModeValuesRange(c, v);
    if c == BMP280 {
      Pow2Values();
      var o := CorrectedLegacySetPowerMode(c, d, v);
      assert o.dev.regs == Set(d.regs, PowerField(c), Bmp280PowerCode(v));
      CodeWritten(d.regs, PowerField(c), Bmp280PowerCode(v));
    }
  }

  // ---------------------------------------------------------------------------
  // Oversampling
  // ---------------------------------------------------------------------------

  /** The masks and shifts of the BMP280 control-register update. */
  function ControlMask(q: Quantity): nat
  {
    if q == Pressure then 0xE3 else 0x1F
  }

  function ControlShift(q: Quantity): nat
  {
    if q == Pressure then 2 else 5
  }

  /** The control-register byte the current BMP280 setter builds:
      `(ctrl & mask) + (code << shift)`. It is the old byte with only the
      quantity's oversampling field replaced. */
  function Bmp280Control(ctrl: byte, q: Quantity, code: nat): (b: byte)
    requires code < 8
    ensures b == FieldPut(ctrl, ControlShift(q), 3, code)
  {
    Pow2Values();
    MaskedInsert(ctrl, ControlShift(q), 3, ControlMask(q), code);
    And(ctrl, ControlMask(q)) + Shl(code, ControlShift(q))
  }

  /** The `pressure_oversample_rate` and `temperature_oversample_rate`
      setters. The current BMP280 class translates the value, writes 0 to the
      config register and then the whole updated control register; the older
      one remaps the value in place and writes the field. */
  function SetOsr(c: Chip, rev: Revision, q: Quantity, d: Dev, v: int): (o: Outcome)
    ensures o.status == Ok <==> v in OsrValues(c, rev)
    ensures o.status.Raised? ==> o == Outcome(d, Raised(ValueError))
    ensures o.status == Ok && c != BMP280 ==> 0 <= v && o.dev == Put(d, OsrField(c, q), v)
    ensures o.status == Ok && c == BMP280 && rev.Legacy? ==>
      0 <= v && o.dev == Put(d, OsrField(c, q), v + 1)
    ensures o.status == Ok && c == BMP280 && rev.Current? ==>
      0 <= v && o.dev.regs == Set(Set(d.regs, ConfigRegister, 0), OsrField(c, q), v + 1) &&
      o.dev.log == d.log + [Write(ConfigRegister, 0), Write(ControlRegister, o.dev.regs[0xF4])]
  {
    OsrValuesRange(c, rev, v);
    if v !in OsrValues(c, rev) then Outcome(d, Raised(ValueError))
    else if c == BMP280 && rev.Current? then
      var ctrl := Get(d.regs, ControlRegister);
      FieldWholeByte(d.regs[0xF4]);
      var updated := Bmp280Control(ctrl as byte, q, TranslateOsr(v));
      var cleared := Put(d, ConfigRegister, 0);
      FieldWholeByte(cleared.regs[0xF4]);
      Outcome(Put(cleared, ControlRegister, updated), Ok)
    else if c == BMP280 then Outcome(Put(d, OsrField(c, q), LegacyOsrCode(v)), Ok)
    else Outcome(Put(d, OsrField(c, q), v), Ok)
  }

  /** In the current revision, and for the older BMP581/585 and BMP390
      classes, an accepted oversampling rate reads back under its own name. */
  lemma OsrRoundTrip(c: Chip, rev: Revision, q: Quantity, d: Dev, v: int)
    requires rev.Current? || c != BMP280
    requires v in OsrValues(c, rev)
    ensures var o := SetOsr(c, rev, q, d, v);
      o.status == Ok && 0 <= v < |OsrNames| && OsrName(c, rev, q, o.dev.regs) == Success(OsrNames[v])
  {
    OsrValuesRange(c, rev, v);
    var o := SetOsr(c, rev, q, d, v);
    var f := OsrField(c, q);
    if c == BMP280 {
      var base := Set(d.regs, ConfigRegister, 0);
      assert o.dev.regs == Set(base, f, v + 1);
      FieldWritten(base, f, v + 1);
      Bmp280OsrNameAgrees(v);
      OsrNameIs(c, rev, q, o.dev.regs, v + 1);
    } else {
      assert o.dev.regs == Set(d.regs, f, v);
      FieldWritten(d.regs, f, v);
      OsrNameIs(c, rev, q, o.dev.regs, v);
    }
  }

  /** A code that fits its field reads back unchanged. */
  lemma FieldWritten(r: Regs, f: Field, code: nat)
    requires f.Valid() && f.width == 3 && code < 8
    ensures Get(Set(r, f, code), f) == code
  {
    Pow2Values();
    CodeWritten(r, f, code);
  }

  lemma CodeWritten(r: Regs, f: Field, code: nat)
    requires f.Valid() && code < Pow2(f.width)
    ensures Get(Set(r, f, code), f) == code
  {
    DivModUnique(code, Pow2(f.width), 0, code);
  }

  /** The getter's name for a field holding `code`. */
  lemma OsrNameIs(c: Chip, rev: Revision, q: Quantity, r: Regs, code: nat)
    requires Get(r, OsrField(c, q)) == code && code < |OsrNamesOf(c, rev)|
    ensures OsrName(c, rev, q, r) == Success(OsrNamesOf(c, rev)[code])
  {
  }

  /** The older BMP280 getter reads every accepted rate under another name. */
  lemma LegacyBmp280OsrMisreads(q: Quantity, d: Dev, v: int)
    requires v in OsrValues(BMP280, Legacy)
    ensures var o := SetOsr(BMP280, Legacy, q, d, v);
      o.status == Ok && 0 <= v < |OsrNames| &&
      OsrName(BMP280, Legacy, q, o.dev.regs) != Success(OsrNames[v])
  {
    OsrValuesRange(BMP280, Legacy, v);
    LegacyBmp280OsrNameOffByOne(v);
  }

  /** The current BMP280 update keeps the power mode and the other rate, and
      writing 0 to the config register turns the IIR filter off. */
  lemma Bmp280OsrSideEffects(q: Quantity, d: Dev, v: int)
    requires v in OsrValues(BMP280, Current)
    ensures var o := SetOsr(BMP280, Current, q, d, v);
      var other := if q == Pressure then Temperature else Pressure;
      Get(o.dev.regs, PowerField(BMP280)) == Get(d.regs, PowerField(BMP280)) &&
      Get(o.dev.regs, OsrField(BMP280, other)) == Get(d.regs, OsrField(BMP280, other)) &&
      IirName(BMP280, Current, o.dev.regs) == Success("COEF_0")
  {
    OsrValuesRange(BMP280, Current, v);
    var other := if q == Pressure then Temperature else Pressure;
    var r1 := Set(d.regs, ConfigRegister, 0);
    SetKeepsOther(r1, OsrField(BMP280, q), PowerField(BMP280), v + 1);
    SetKeepsOther(r1, OsrField(BMP280, q), OsrField(BMP280, other), v + 1);
    FieldWholeByte(d.regs[0xF5]);
  }

  // ---------------------------------------------------------------------------
  // IIR filter
  // ---------------------------------------------------------------------------

  /** The `iir_coefficient` setter. The current BMP390 class writes the field
      alone. Every other class runs the BMP581 sequence: save the power mode
      field, set STANDBY through the `power_mode` setter unless it is already
      0, write both coefficient fields, and assign the saved field back
      through the `power_mode` setter, whose outcome is the result. */
  function SetIir(c: Chip, rev: Revision, d: Dev, v: int): (o: Outcome)
    ensures v !in IirValues ==> o == Outcome(d, Raised(ValueError))
    ensures c == BMP390 && rev.Current? && v in IirValues ==>
      0 <= v && o == Outcome(Put(d, IirField(c, rev), v), Ok)
  {
    IirValuesRange(v);
    if v !in IirValues then Outcome(d, Raised(ValueError))
    else if c == BMP390 && rev.Current? then Outcome(Put(d, IirField(c, rev), v), Ok)
    else
      var original := Get(d.regs, PowerField(c));
      var standby := if original != STANDBY then SetPowerMode(c, rev, d, STANDBY) else Outcome(d, Ok);
      if standby.status != Ok then standby
      else
        var written := Put(Put(standby.dev, IirField(c, rev), v), IirTempField(c), v);
        SetPowerMode(c, rev, written, original)
  }

  /** Writing both coefficient fields directly. */
  function WriteCoefficients(c: Chip, rev: Revision, r: Regs, v: nat): Regs
  {
    Set(Set(r, IirField(c, rev), v), IirTempField(c), v)
  }

  /** Restoring a saved power-mode field after writes to other registers
      leaves exactly those writes. */
  lemma RestoreAfterStandby(r: Regs, p: Field, i: Field, t: Field, v: nat)
    requires p.Valid() && i.Valid() && t.Valid() && p.reg != i.reg && p.reg != t.reg
    ensures Set(Set(Set(Set(r, p, 0), i, v), t, v), p, Get(r, p)) == Set(Set(r, i, v), t, v)
    ensures Set(Set(Set(r, i, v), t, v), p, Get(r, p)) == Set(Set(r, i, v), t, v)
  {
    var x := Set(Set(r, i, v), t, v);
    SetCommute(r, p, i, 0, v);
    SetCommute(Set(r, i, v), p, t, 0, v);
    SetSet(x, p, 0, Get(r, p));
    GetSetOther(r, i, p, v);
    GetSetOther(Set(r, i, v), t, p, v);
    SetGet(x, p);
  }

  /** On the BMP581/585 every accepted coefficient is written to both fields,
      the power mode ends as it was, and the traffic is the optional STANDBY
      write, the two coefficient writes and the restoring write. */
  lemma Bmp58xIirSequence(c: Chip, rev: Revision, d: Dev, v: int)
    requires Is58x(c) && v in IirValues
    ensures 0 <= v && SetIir(c, rev, d, v).status == Ok
    ensures SetIir(c, rev, d, v).dev.regs == WriteCoefficients(c, rev, d.regs, v)
    ensures var original := Get(d.regs, PowerField(c));
      SetIir(c, rev, d, v).dev.log ==
        d.log + (if original != STANDBY then [Write(PowerField(c), STANDBY)] else []) +
        [Write(IirField(c, rev), v), Write(IirTempField(c), v), Write(PowerField(c), original)]
    ensures IirName(c, rev, SetIir(c, rev, d, v).dev.regs) == Success(IirNames[v])
  {
    IirValuesRange(v);
    var p, i, t := PowerField(c), IirField(c, rev), IirTempField(c);
    var original := Get(d.regs, p);
    assert original < 4 by { Pow2Values(); }
    PowerModeValuesRange(c, original);
    RestoreAfterStandby(d.regs, p, i, t, v);
    if original != STANDBY {
      Bmp58xIirFrom(c, rev, d, Put(d, p, STANDBY), v);
    } else {
      Bmp58xIirFrom(c, rev, d, d, v);
    }
    CoefficientsReadBack(c, rev, d.regs, v);
  }

  /** The sequence once the device is in STANDBY. */
  lemma Bmp58xIirFrom(c: Chip, rev: Revision, d: Dev, standby: Dev, v: int)
    requires Is58x(c) && v in IirValues
    requires standby == (if Get(d.regs, PowerField(c)) != STANDBY then Put(d, PowerField(c), STANDBY) else d)
    ensures 0 <= v && SetIir(c, rev, d, v) ==
      Outcome(Put(Put(Put(standby, IirField(c, rev), v), IirTempField(c), v), PowerField(c), Get(d.regs, PowerField(c))), Ok)
  {
    IirValuesRange(v);
    var original := Get(d.regs, PowerField(c));
    assert original < 4 by { Pow2Values(); }
    PowerModeValuesRange(c, original);
  }

  lemma CoefficientsReadBack(c: Chip, rev: Revision, r: Regs, v: int)
    requires v in IirValues
    ensures 0 <= v && IirName(c, rev, WriteCoefficients(c, rev, r, v)) == Success(IirNames[v])
  {
    IirValuesRange(v);
    Pow2Values();
    var i, t := IirField(c, rev), IirTempField(c);
    var x := Set(r, i, v);
    assert Get(x, i) == v;
    assert Disjoint(t, i);
    SetKeepsOther(x, t, i, v);
    assert Get(Set(x, t, v), i) == v;
  }

  /** The current BMP280 class inherits that sequence, but its power field
      holds the BMP280's normal-mode code 3 after construction, and 3 is not
      an accepted `power_mode`: the restoring assignment raises ValueError and
      the device is left in STANDBY. */
  lemma Bmp280IirFromNormalFails(d: Dev, v: int)
    requires v in IirValues && Get(d.regs, PowerField(BMP280)) == BMP280_NORMAL_POWER
    ensures var o := SetIir(BMP280, Current, d, v);
      0 <= v && o.status == Raised(ValueError) &&
      Get(o.dev.regs, PowerField(BMP280)) == STANDBY &&
      o.dev.log == d.log + [Write(PowerField(BMP280), STANDBY), Write(IirField(BMP280, Current), v),
        Write(IirTempField(BMP280), v)]
  {
    IirValuesRange(v);
    var r1 := Set(d.regs, PowerField(BMP280), 0);
    var r2 := Set(r1, IirField(BMP280, Current), v);
    GetSetOther(r1, IirField(BMP280, Current), PowerField(BMP280), v);
    GetSetOther(r2, IirTempField(BMP280), PowerField(BMP280), v);
  }

  /** From any power code the BMP280 setter accepts (0 .. 2), the inherited
      sequence succeeds: both coefficient fields are written, the power field
      ends as it was, and the traffic is the optional STANDBY write, the two
      coefficient writes and the restoring write. */
  lemma Bmp280IirFromAcceptedMode(d: Dev, v: int)
    requires v in IirValues && Get(d.regs, PowerField(BMP280)) <= 2
    ensures var o := SetIir(BMP280, Current, d, v);
      0 <= v && o.status == Ok && o.dev.regs == WriteCoefficients(BMP280, Current, d.regs, v) &&
      Get(o.dev.regs, PowerField(BMP280)) == Get(d.regs, PowerField(BMP280))
    ensures var original := Get(d.regs, PowerField(BMP280));
      SetIir(BMP280, Current, d, v).dev.log ==
        d.log + (if original != STANDBY then [Write(PowerField(BMP280), STANDBY)] else []) +
        [Write(IirField(BMP280, Current), v), Write(IirTempField(BMP280), v), Write(PowerField(BMP280), original)]
  {
    IirValuesRange(v);
    var p, i, t := PowerField(BMP280), IirField(BMP280, Current), IirTempField(BMP280);
    var original := Get(d.regs, p);
    PowerModeValuesRange(BMP280, original);
    PowerModeValuesRange(BMP280, STANDBY);
    RestoreAfterStandby(d.regs, p, i, t, v);
    var x := Set(d.regs, i, v);
    GetSetOther(d.regs, i, p, v);
    GetSetOther(x, t, p, v);
  }

  /** In the older revision the BMP390 and BMP280 classes inherit the BMP581
      sequence, and its `power_mode` assignments raise NameError: from any
      mode but STANDBY nothing is written, from STANDBY both coefficient fields
      are written first. */
  lemma LegacyIirNameError(c: Chip, d: Dev, v: int)
    requires (c == BMP390 || c == BMP280) && v in IirValues
    ensures var o := SetIir(c, Legacy, d, v);
      0 <= v && o.status == Raised(NameError) &&
      o.dev == (if Get(d.regs, PowerField(c)) != STANDBY then d
                else Put(Put(d, IirField(c, Legacy), v), IirTempField(c), v))
  {
    IirValuesRange(v);
  }

  /** The sequence as intended: the saved field is restored as it was read,
      not through the validating `power_mode` setter. */
  function SetIirRestoring(c: Chip, rev: Revision, d: Dev, v: int): (o: Outcome)
    ensures v !in IirValues ==> o == Outcome(d, Raised(ValueError))
    ensures v in IirValues ==>
      o.status == Ok && 0 <= v && o.dev.regs == WriteCoefficients(c, rev, d.regs, v)
  {
    IirValuesRange(v);
    if v !in IirValues then Outcome(d, Raised(ValueError))
    else
      var p := PowerField(c);
      var original := Get(d.regs, p);
      var standby := if original != STANDBY then Put(d, p, STANDBY) else d;
      var written := Put(Put(standby, IirField(c, rev), v), IirTempField(c), v);
      RestoreAfterStandby(d.regs, p, IirField(c, rev), IirTempField(c), v);
      Outcome(Put(written, p, original), Ok)
  }

  /** With the restoring sequence the BMP280 coefficient reads back and the
      normal mode survives. */
  lemma SetIirRestoringKeepsMode(c: Chip, rev: Revision, d: Dev, v: int)
    requires v in IirValues
    ensures var o := SetIirRestoring(c, rev, d, v);
      Get(o.dev.regs, PowerField(c)) == Get(d.regs, PowerField(c)) &&
      IirName(c, rev, o.dev.regs) == Success(IirNames[v])
  {
    IirValuesRange(v);
    var r1 := Set(d.regs, IirField(c, rev), v);
    GetSetOther(d.regs, IirField(c, rev), PowerField(c), v);
    GetSetOther(r1, IirTempField(c), PowerField(c), v);
    CoefficientsReadBack(c, rev, d.regs, v);
  }

  // ---------------------------------------------------------------------------
  // Output data rate
  // ---------------------------------------------------------------------------

  /** The `output_data_rate` setter accepts `range(0, 32)`. */
  function SetOdr(c: Chip, d: Dev, v: int): (o: Outcome)
    ensures o.status == Ok <==> 0 <= v < 32
    ensures o.status.Raised? ==> o == Outcome(d, Raised(ValueError))
    ensures o.status == Ok ==> OutputDataRate(c, o.dev.regs) == v
  {
    Pow2Values();
    if !(0 <= v < 32) then Outcome(d, Raised(ValueError))
    else Outcome(Put(d, OdrField(c), v), Ok)
  }

  /** The rate shares a register with the power mode on the BMP581/585 and
      keeps it. */
  lemma SetOdrKeepsPowerMode(c: Chip, d: Dev, v: int)
    ensures Get(SetOdr(c, d, v).dev.regs, PowerField(c)) == Get(d.regs, PowerField(c))
  {
    if 0 <= v < 32 {
      SetKeepsOther(d.regs, OdrField(c), PowerField(c), v);
    }
  }

  // ---------------------------------------------------------------------------
  // Construction
  // ---------------------------------------------------------------------------

  /** The address the constructor settles on. `responds` is the set of bus
      addresses at which a device acknowledges an empty write. In the current
      revision a given address must respond and otherwise the default and
      then the secondary address are probed. The older revision takes a given
      address unchecked, and its BMP581/585 classes have no `_check_address`,
      so probing raises AttributeError. */
  function ResolveAddress(c: Chip, rev: Revision, responds: set<int>, address: Option<int>): (res: Result<int>)
    requires Supported(c, rev)
    ensures rev.Current? && res.Success? ==> res.value in responds
    ensures address.Some? ==> (res.Success? <==> rev.Legacy? || address.value in responds)
    ensures address.Some? && res.Success? ==> res.value == address.value
    ensures address.None? && !(rev.Legacy? && Is58x(c)) ==>
      (res.Success? <==> DefaultAddress(c) in responds || SecondaryAddress(c) in responds)
    ensures address.None? && res.Success? ==>
      res.value == (if DefaultAddress(c) in responds then DefaultAddress(c) else SecondaryAddress(c))
    ensures res.Failure? ==> res.error == (if rev.Legacy? && Is58x(c) then AttributeError else RuntimeError)
  {
    if address.Some? then
      if rev.Legacy? || address.value in responds then Success(address.value) else Failure(RuntimeError)
    else if rev.Legacy? && Is58x(c) then Failure(AttributeError)
    else if DefaultAddress(c) in responds then Success(DefaultAddress(c))
    else if SecondaryAddress(c) in responds then Success(SecondaryAddress(c))
    else Failure(RuntimeError)
  }

  /** The older BMP581/585 constructors cannot be called without an address. */
  lemma LegacyAddressAttributeError(c: Chip, responds: set<int>)
    requires Is58x(c)
    ensures ResolveAddress(c, Legacy, responds, None) == Failure(AttributeError)
    ensures DefaultAddress(c) in responds ==>
      ResolveAddress(c, Current, responds, None) == Success(DefaultAddress(c))
  {
  }

  /** The BMP581/585 start-up: STANDBY, both IIR coefficients 0, NORMAL and
      the pressure measurement enabled; the current revision waits 5 ms after
      each mode change. */
  function Bmp58xStartup(c: Chip, rev: Revision, d: Dev): (e: Dev)
    ensures |d.log| < |e.log| && e.log[..|d.log|] == d.log
  {
    var a := Put(d, PowerField(c), STANDBY);
    var b := if rev.Current? then Pause(a, 5) else a;
    var e := Put(Put(b, IirField(c, rev), COEF_0), IirTempField(c), COEF_0);
    var f := Put(e, PowerField(c), NORMAL);
    var g := if rev.Current? then Pause(f, 5) else f;
    Put(g, PressureEnabledField(c), 1)
  }

  /** The BMP390 start-up: NORMAL and the pressure measurement enabled. */
  function Bmp390Startup(rev: Revision, d: Dev): (e: Dev)
    ensures |d.log| < |e.log| && e.log[..|d.log|] == d.log
  {
    var a := Put(d, PowerField(BMP390), NORMAL);
    var b := if rev.Current? then Pause(a, 4) else a;
    Put(b, PressureEnabledField(BMP390), 1)
  }

  /** The BMP280 start-up: config 0, then the whole control register with
      both rates OSR1 and the BMP280's normal-mode code, then 4 and 63 ms. */
  function Bmp280Startup(d: Dev): (e: Dev)
    ensures |d.log| < |e.log| && e.log[..|d.log|] == d.log
    ensures forall i :: 0 <= i < 256 && i != 0xF4 && i != 0xF5 ==> e.regs[i] == d.regs[i]
  {
    var a := Put(d, ConfigRegister, 0x00);
    var control := Shl(TranslateOsr(OSR1), 5) + Shl(TranslateOsr(OSR1), 2) + BMP280_NORMAL_POWER;
    Pause(Pause(Put(a, ControlRegister, control), 4), 63)
  }

  /** The register writes and delays after the device-ID check. */
  function Startup(c: Chip, rev: Revision, d: Dev): (e: Dev)
    ensures |d.log| < |e.log| && e.log[..|d.log|] == d.log
  {
    match c
    case BMP390 => Bmp390Startup(rev, d)
    case BMP280 => Bmp280Startup(d)
    case _ => Bmp58xStartup(c, rev, d)
  }

  /** A constructed driver. */
  datatype Opened = Opened(address: int, dev: Dev)

  /** The device as the constructor finds it; the current revision first
      waits 3 ms for power-up. */
  function Boot(rev: Revision, r: Regs): (d: Dev)
    ensures d.regs == r && |d.log| <= 1
  {
    if rev.Current? then Dev(r, [Sleep(3)]) else Dev(r, [])
  }

  /** The constructor, on a device whose registers are `r`. */
  function Init(c: Chip, rev: Revision, responds: set<int>, address: Option<int>, r: Regs): (res: Result<Opened>)
    requires Supported(c, rev)
    ensures res.Success? <==>
      ResolveAddress(c, rev, responds, address).Success? && r[DeviceIdRegister(c, rev)] == ChipId(c)
    ensures res.Success? ==> res.value.address == ResolveAddress(c, rev, responds, address).value
    ensures ResolveAddress(c, rev, responds, address).Failure? ==>
      res == Failure(ResolveAddress(c, rev, responds, address).error)
    ensures ResolveAddress(c, rev, responds, address).Success? && r[DeviceIdRegister(c, rev)] != ChipId(c) ==>
      res == Failure(RuntimeError)
    ensures res.Success? ==> res.value.dev == Startup(c, rev, Boot(rev, r))
  {
    match ResolveAddress(c, rev, responds, address)
    case Failure(e) => Failure(e)
    case Success(a) =>
      if r[DeviceIdRegister(c, rev)] != ChipId(c) then Failure(RuntimeError)
      else Success(Opened(a, Startup(c, rev, Boot(rev, r))))
  }

  /** After its start-up a BMP581/585 runs in NORMAL mode with both IIR
      filters off and the pressure measurement enabled, and the traffic is
      the constructor's list of writes and delays. */
  lemma Bmp58xStartupState(c: Chip, rev: Revision, d: Dev)
    requires Is58x(c)
    ensures PowerModeName(c, rev, Bmp58xStartup(c, rev, d).regs) == Success("NORMAL")
    ensures IirName(c, rev, Bmp58xStartup(c, rev, d).regs) == Success("COEF_0")
    ensures Get(Bmp58xStartup(c, rev, d).regs, IirTempField(c)) == 0
    ensures Get(Bmp58xStartup(c, rev, d).regs, PressureEnabledField(c)) == 1
    ensures Bmp58xStartup(c, rev, d).log == d.log + [Write(PowerField(c), STANDBY)] +
      (if rev.Current? then [Sleep(5)] else []) +
      [Write(IirField(c, rev), 0), Write(IirTempField(c), 0), Write(PowerField(c), NORMAL)] +
      (if rev.Current? then [Sleep(5)] else []) + [Write(PressureEnabledField(c), 1)]
  {
    Pow2Values();
    var p, i, t, e := PowerField(c), IirField(c, rev), IirTempField(c), PressureEnabledField(c);
    var r0 := Set(Set(d.regs, p, 0), i, 0);
    assert Disjoint(t, i) && Disjoint(p, i) && Disjoint(p, t) && Disjoint(e, i) && Disjoint(e, t) && Disjoint(e, p);
    var r1 := Set(r0, t, 0);
    var r2 := Set(r1, p, NORMAL);
    SetKeepsOther(r0, t, i, 0);
    SetKeepsOther(r1, p, i, NORMAL);
    SetKeepsOther(r1, p, t, NORMAL);
    SetKeepsOther(r2, e, i, 1);
    SetKeepsOther(r2, e, t, 1);
    SetKeepsOther(r2, e, p, 1);
    assert Bmp58xStartup(c, rev, d).regs == Set(r2, e, 1);
  }

  /** The BMP390 start-up writes NORMAL, the BMP390's code for forced mode,
      which its own getter names "FORCED". */
  lemma Bmp390StartupReadsForced(rev: Revision, d: Dev)
    ensures PowerModeName(BMP390, rev, Bmp390Startup(rev, d).regs) == Success("FORCED")
    ensures Get(Bmp390Startup(rev, d).regs, PressureEnabledField(BMP390)) == 1
  {
    Pow2Values();
    var r1 := Set(d.regs, PowerField(BMP390), NORMAL);
    assert Disjoint(PressureEnabledField(BMP390), PowerField(BMP390));
    SetKeepsOther(r1, PressureEnabledField(BMP390), PowerField(BMP390), 1);
    assert Bmp390Startup(rev, d).regs == Set(r1, PressureEnabledField(BMP390), 1);
  }

  /** The BMP280 start-up leaves control register 0x27: both rates OSR1 and
      the power field the BMP280's normal-mode code; the config register,
      and with it the IIR coefficient, is 0. */
  lemma Bmp280StartupState(d: Dev)
    ensures Bmp280Startup(d).regs[0xF4] == 0x27 && Bmp280Startup(d).regs[0xF5] == 0
    ensures Get(Bmp280Startup(d).regs, PowerField(BMP280)) == BMP280_NORMAL_POWER
    ensures PowerModeName(BMP280, Current, Bmp280Startup(d).regs) == Success("NORMAL")
    ensures OsrName(BMP280, Current, Pressure, Bmp280Startup(d).regs) == Success("OSR1")
    ensures OsrName(BMP280, Current, Temperature, Bmp280Startup(d).regs) == Success("OSR1")
    ensures IirName(BMP280, Current, Bmp280Startup(d).regs) == Success("COEF_0")
  {
    Bmp280StartupRegisters(d);
    Bmp280ControlReads(Bmp280Startup(d).regs);
  }

  /** The BMP280 start-up leaves the measurement block at 0xF7 .. 0xFC, so the
      raw read it performs decodes the bytes the device held. */
  lemma Bmp280StartupKeepsData(d: Dev)
    ensures Span(Bmp280Startup(d).regs, 0xF7, 6) == Span(d.regs, 0xF7, 6)
  {
    var e := Bmp280Startup(d).regs;
    assert e[0xF7..0xFD] == d.regs[0xF7..0xFD];
  }

  /** The two bytes the BMP280 start-up writes. */
  lemma Bmp280StartupRegisters(d: Dev)
    ensures Bmp280Startup(d).regs[0xF4] == 0x27 && Bmp280Startup(d).regs[0xF5] == 0
  {
    Pow2Values();
    var r1 := Set(d.regs, ConfigRegister, 0);
    FieldWholeByte(d.regs[0xF5]);
    FieldWholeByte(r1[0xF4]);
  }

  /** What the getters read from control byte 0x27 and config byte 0. */
  lemma Bmp280ControlReads(e: Regs)
    requires e[0xF4] == 0x27 && e[0xF5] == 0
    ensures Get(e, PowerField(BMP280)) == BMP280_NORMAL_POWER
    ensures PowerModeName(BMP280, Current, e) == Success("NORMAL")
    ensures OsrName(BMP280, Current, Pressure, e) == Success("OSR1")
    ensures OsrName(BMP280, Current, Temperature, e) == Success("OSR1")
    ensures IirName(BMP280, Current, e) == Success("COEF_0")
  {
    Pow2Values();
    assert Get(e, PowerField(BMP280)) == 0x27 % 4;
    assert Get(e, OsrField(BMP280, Pressure)) == (0x27 / 4) % 8;
    assert Get(e, OsrField(BMP280, Temperature)) == (0x27 / 32) % 8;
    assert Get(e, IirField(BMP280, Current)) == 0;
  }

  /** Consequently, on a freshly constructed BMP280 every `iir_coefficient`
      assignment raises ValueError and leaves the sensor in STANDBY. */
  lemma Bmp280IirAfterInitFails(responds: set<int>, address: Option<int>, r: Regs, v: int)
    requires Init(BMP280, Current, responds, address, r).Success? && v in IirValues
    ensures var o := SetIir(BMP280, Current, Init(BMP280, Current, responds, address, r).value.dev, v);
      o.status == Raised(ValueError) && Get(o.dev.regs, PowerField(BMP280)) == STANDBY
  {
    var d := Bmp280Startup(Boot(Current, r));
    Bmp280StartupState(Boot(Current, r));
    Bmp280IirFromNormalFails(d, v);
  }
}
