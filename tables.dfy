/**
 * The drivers' named constants and lookup tables: the `const()` values the
 * setters take, the name tuples the getters index with a register field, and
 * the BMP280 remaps between the family's constants and the BMP280's own codes.
 */
module Tables {

  // Power modes, as every class names them (`STANDBY` .. `NON_STOP`).
  const STANDBY := 0
  const NORMAL := 1
  const FORCED := 2
  const NON_STOP := 3

  // The BMP280's own codes for normal and forced mode (current revision).
  const BMP280_NORMAL_POWER := 3
  const BMP280_FORCED_POWER := 1

  // Oversampling rates `OSR1` .. `OSR16`; `OSR_SKIP` is 5 in the current
  // revision's BMP280 class and 0 in the older one.
  const OSR1 := 0
  const OSR2 := 1
  const OSR4 := 2
  const OSR8 := 3
  const OSR16 := 4
  const OSR_SKIP := 5
  const LEGACY_OSR_SKIP := 0

  /** The getter names of the power constants 0 .. 3, and the BMP581/585 table. */
  const PowerNames: seq<string> := ["STANDBY", "NORMAL", "FORCED", "NON_STOP"]
  const Bmp390PowerNames: seq<string> := ["STANDBY", "FORCED", "NORMAL"]
  const Bmp280PowerNames: seq<string> := ["STANDBY", "FORCED", "FORCED", "NORMAL"]
  const LegacyBmp280PowerNames: seq<string> := ["STANDBY", "NORMAL", "FORCED"]

  /** The getter names of the oversampling constants 0 .. 7, and the BMP581/585 table. */
  const OsrNames: seq<string> := ["OSR1", "OSR2", "OSR4", "OSR8", "OSR16", "OSR32", "OSR64", "OSR128"]
  const Bmp390OsrNames: seq<string> := ["OSR1", "OSR2", "OSR4", "OSR8", "OSR16", "OSR32"]
  const Bmp280OsrNames: seq<string> := ["OSR_SKIP", "OSR1", "OSR2", "OSR4", "OSR8", "OSR16"]
  const LegacyBmp280OsrNames: seq<string> := ["OSR1", "OSR2", "OSR4", "OSR8", "OSR16", "OSR_SKIP"]

  // The IIR coefficients COEF_0 .. COEF_127 are the codes 0 .. 7.
  const COEF_0 := 0

  const IirNames: seq<string> :=
    ["COEF_0", "COEF_1", "COEF_3", "COEF_7", "COEF_15", "COEF_31", "COEF_63", "COEF_127"]

  // ---------------------------------------------------------------------------
  // BMP280 oversampling codes
  // ---------------------------------------------------------------------------

  /** `osr_map` of `_translate_osr_bmp280`. */
  const OsrMap: map<int, nat> := map[OSR1 := 1, OSR2 := 2, OSR4 := 3, OSR8 := 4, OSR16 := 5, OSR_SKIP := 0]

  /** `_translate_osr_bmp280`: `osr_map.get(value, 0)`. The family's OSR1 ..
      OSR16 become the BMP280 codes 1 .. 5; OSR_SKIP and every other value
      become 0, the code that switches the measurement off. */
  function TranslateOsr(v: int): (code: nat)
    ensures 0 <= v <= 4 ==> code == v + 1
    ensures !(0 <= v <= 4) ==> code == 0
    ensures code < 8
  {
    if v in OsrMap then OsrMap[v] else 0
  }

  /** The older revision's in-place remap in the BMP280 OSR setters:
      `0 if value == 6 else value + 1`. */
  function LegacyOsrCode(v: int): int
  {
    if v == 6 then 0 else v + 1
  }

  /** On OSR1 .. OSR16 the two revisions write the same code. */
  lemma LegacyOsrCodeAgrees(v: int)
    requires OSR1 <= v <= OSR16
    ensures LegacyOsrCode(v) == TranslateOsr(v)
  {
  }

  /** The current BMP280 getter names the code of OSRk "OSRk". */
  lemma Bmp280OsrNameAgrees(v: int)
    requires OSR1 <= v <= OSR16
    ensures TranslateOsr(v) < |Bmp280OsrNames| && v < |OsrNames|
    ensures Bmp280OsrNames[TranslateOsr(v)] == OsrNames[v]
  {
    if v == 0 {
    } else if v == 1 {
    } else if v == 2 {
    } else if v == 3 {
    } else {
    }
  }

  /** The older BMP280 getter reads the code of OSRk one entry too far on:
      OSR1 .. OSR8 come back as the next rate up, and OSR16 as "OSR_SKIP". */
  lemma LegacyBmp280OsrNameOffByOne(v: int)
    requires OSR1 <= v <= OSR16
    ensures LegacyOsrCode(v) < |LegacyBmp280OsrNames|
    ensures LegacyBmp280OsrNames[LegacyOsrCode(v)] == (if v < OSR16 then OsrNames[v + 1] else "OSR_SKIP")
    ensures LegacyBmp280OsrNames[LegacyOsrCode(v)] != OsrNames[v]
  {
    if v == 0 {
    } else if v == 1 {
    } else if v == 2 {
    } else if v == 3 {
    } else {
    }
  }

  /** With the current revision's table, the older setter's codes read back
      correctly. */
  lemma LegacyOsrCodeWithCurrentNames(v: int)
    requires OSR1 <= v <= OSR16
    ensures LegacyOsrCode(v) < |Bmp280OsrNames|
    ensures Bmp280OsrNames[LegacyOsrCode(v)] == OsrNames[v]
  {
    LegacyOsrCodeAgrees(v);
    Bmp280OsrNameAgrees(v);
  }

  // ---------------------------------------------------------------------------
  // BMP280 power codes
  // ---------------------------------------------------------------------------

  /** The current BMP280 power setter's two sequential remaps: 1 becomes 3,
      then 3 becomes 1. The second undoes the first, so nothing ever becomes
      the BMP280's normal-mode code 3. */
  function Bmp280PowerRemap(v: int): (w: int)
    ensures w != BMP280_NORMAL_POWER
    ensures v != BMP280_NORMAL_POWER ==> w == v
  {
    var a := if v == 0x01 then BMP280_NORMAL_POWER else v;
    if a == 0x03 then BMP280_FORCED_POWER else a
  }

  /** The remap the BMP280 needs: NORMAL to the device's normal code 3, the
      other modes unchanged. The older revision's setter remaps exactly so. */
  function Bmp280PowerCode(v: int): int
  {
    if v == 0x01 then 0x03 else v
  }

  /** As written, setting NORMAL on a BMP280 writes code 1, which its own
      getter calls "FORCED". */
  lemma Bmp280PowerRemapMisnames()
    ensures Bmp280PowerNames[Bmp280PowerRemap(NORMAL)] == "FORCED"
    ensures PowerNames[NORMAL] == "NORMAL"
  {
  }

  /** With the intended remap every accepted mode reads back under its own
      name. */
  lemma Bmp280PowerCodeNames(v: int)
    requires v == STANDBY || v == FORCED || v == NORMAL
    ensures 0 <= Bmp280PowerCode(v) < |Bmp280PowerNames| && v < |PowerNames|
    ensures Bmp280PowerNames[Bmp280PowerCode(v)] == PowerNames[v]
  {
    if v == STANDBY {
    } else if v == FORCED {
    } else {
    }
  }

  /** The BMP390 getter names code 1 (the NORMAL constant the setter writes)
      "FORCED" and code 2 (FORCED) "NORMAL". */
  lemma Bmp390PowerNamesSwapped()
    ensures Bmp390PowerNames[NORMAL] == PowerNames[FORCED]
    ensures Bmp390PowerNames[FORCED] == PowerNames[NORMAL]
  {
  }
}
