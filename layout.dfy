/**
 * What distinguishes the four sensor classes: where each configuration field
 * lives, the device-ID register and value, the two bus addresses, and the
 * tuples of values each setter accepts. The BMP585, BMP390 and BMP280 classes
 * inherit from the BMP581 class, so a field a subclass does not redefine is
 * the BMP581's.
 */
module Layout {
  import opened RegisterFile
  import opened Tables

  datatype Chip = BMP581 | BMP585 | BMP390 | BMP280

  /** Current is micropython_bmpxxx/bmpxxx.py, Legacy the older
      micropython_bmp58x/bmp58x.py. */
  datatype Revision = Current | Legacy

  /** The classes whose construction is modelled: all but the older BMP280. */
  predicate Supported(c: Chip, rev: Revision)
  {
    !(c == BMP280 && rev == Legacy)
  }

  predicate Is58x(c: Chip)
  {
    c == BMP581 || c == BMP585
  }

  function PowerField(c: Chip): (f: Field)
    ensures f.Valid() && f.width == 2
  {
    match c
    case BMP390 => Field(2, 0x1B, 4)
    case BMP280 => Field(2, 0xF4, 0)
    case _ => Field(2, 0x37, 0)
  }

  function PressureOsrField(c: Chip): (f: Field)
    ensures f.Valid() && f.width == 3
  {
    match c
    case BMP390 => Field(3, 0x1C, 0)
    case BMP280 => Field(3, 0xF4, 2)
    case _ => Field(3, 0x36, 3)
  }

  function TemperatureOsrField(c: Chip): (f: Field)
    ensures f.Valid() && f.width == 3
  {
    match c
    case BMP390 => Field(3, 0x1C, 3)
    case BMP280 => Field(3, 0xF4, 5)
    case _ => Field(3, 0x36, 0)
  }

  /** `_iir_coefficient`. The older BMP280 class names the BMP390's config
      register 0x1F, which the substitution of `const()` names resolves. */
  function IirField(c: Chip, rev: Revision): (f: Field)
    ensures f.Valid() && f.width == 3
  {
    match c
    case BMP390 => Field(3, 0x1F, 1)
    case BMP280 => if rev == Current then Field(3, 0xF5, 0) else Field(3, 0x1F, 0)
    case _ => Field(3, 0x31, 3)
  }

  /** `_iir_temp_coefficient`: defined by the BMP581 class only. */
  function IirTempField(c: Chip): (f: Field)
    ensures f.Valid() && f.width == 3
  {
    Field(3, 0x31, 0)
  }

  /** `_output_data_rate`: the BMP280 class keeps the BMP581's. */
  function OdrField(c: Chip): (f: Field)
    ensures f.Valid() && f.width == 5
  {
    if c == BMP390 then Field(5, 0x1D, 0) else Field(5, 0x37, 2)
  }

  /** `_pressure_enabled`: the BMP280 class keeps the BMP581's. */
  function PressureEnabledField(c: Chip): (f: Field)
    ensures f.Valid() && f.width == 1
  {
    if c == BMP390 then Field(1, 0x1B, 0) else Field(1, 0x36, 6)
  }

  /** The BMP280's whole control (0xF4) and config (0xF5) registers. */
  const ControlRegister := Field(8, 0xF4, 0)
  const ConfigRegister := Field(8, 0xF5, 0)

  /** The register holding the device ID (`_device_id`). */
  function DeviceIdRegister(c: Chip, rev: Revision): (reg: nat)
    ensures reg < 256
  {
    match c
    case BMP390 => 0x00
    case BMP280 => if rev == Current then 0xD0 else 0x00
    case _ => 0x01
  }

  /** The device ID each constructor demands. */
  function ChipId(c: Chip): nat
  {
    match c
    case BMP581 => 0x50
    case BMP585 => 0x51
    case BMP390 => 0x60
    case BMP280 => 0x58
  }

  function DefaultAddress(c: Chip): int
  {
    match c
    case BMP390 => 0x7F
    case BMP280 => 0x77
    case _ => 0x47
  }

  function SecondaryAddress(c: Chip): int
  {
    match c
    case BMP390 => 0x7E
    case BMP280 => 0x76
    case _ => 0x46
  }

  /** `power_mode_values`. */
  function PowerModeValues(c: Chip): seq<int>
  {
    if Is58x(c) then [STANDBY, NORMAL, FORCED, NON_STOP] else [STANDBY, FORCED, NORMAL]
  }

  /** `pressure_oversample_rate_values`, equal to
      `temperature_oversample_rate_values` in every class. */
  function OsrValues(c: Chip, rev: Revision): seq<int>
  {
    match c
    case BMP390 => [OSR1, OSR2, OSR4, OSR8, OSR16, 5]
    case BMP280 =>
      if rev == Current then [OSR1, OSR2, OSR4, OSR8, OSR16]
      else [LEGACY_OSR_SKIP, OSR1, OSR2, OSR4, OSR8, OSR16]
    case _ => [OSR1, OSR2, OSR4, OSR8, OSR16, 5, 6, 7]
  }

  /** `iir_coefficient_values`: COEF_0 .. COEF_127 are 0 .. 7. */
  const IirValues: seq<int> := [0, 1, 2, 3, 4, 5, 6, 7]

  /** The accepted power modes fit the power field. */
  lemma PowerModeValuesRange(c: Chip, v: int)
    ensures v in PowerModeValues(c) <==> (if Is58x(c) then 0 <= v <= 3 else 0 <= v <= 2)
  {
  }

  /** The accepted oversampling rates, as ranges; the older BMP280 tuple
      names 0 twice (OSR_SKIP and OSR1), so it accepts OSR1 .. OSR16 only. */
  lemma OsrValuesRange(c: Chip, rev: Revision, v: int)
    ensures v in OsrValues(c, rev) <==>
      0 <= v <= (match c case BMP390 => 5 case BMP280 => 4 case _ => 7)
  {
  }

  lemma IirValuesRange(v: int)
    ensures v in IirValues <==> 0 <= v <= 7
  {
  }
}
