# Bosch BMP581 / BMP585 / BMP390 / BMP280 MicroPython drivers — integer model

This project models the integer and bit-level half of a MicroPython driver
family for four Bosch barometric pressure sensors. It covers two revisions:

- `micropython_bmpxxx/bmpxxx.py` is the current revision (`Revision.Current`).
- `micropython_bmp58x/bmp58x.py` is an older revision of the same classes
  (`Revision.Legacy`).

In both, `BMP585`, `BMP390` and `BMP280` subclass `BMP581`. A subclass
inherits every field descriptor, property and setter it does not redefine.

The model has these parts, one Dafny module each:

- **Bits**: Python's `&`, `|`, `<<`, `>>` on non-negative integers.
  - They are written as arithmetic on `nat`.
  - A `CBits(width, reg, off)` field read and write is a slice of one byte.
  - A multi-byte read assembles its bytes least significant first.
  - `_twos_comp` sign extension.
- **RegisterFile**: the 256 byte-wide registers the drivers reach through
  their `CBits` descriptors, and the laws of field reads and writes.
- **Calibration**: the BMP390 `par_*` and BMP280 `dig_*` trimming
  coefficients decoded from their register bytes. Each current-revision
  decoder is proved in range and inverse to the encoding the sensor stores;
  the older BMP280 decoder returns None for `dig_t2` and `dig_t3`.
- **RawData**: the BMP280's 48-bit measurement block split into two 20-bit
  counts (`_get_raw_temp_pressure`).
- **Tables**: the `const()` values, the name tuples the getters index, the
  BMP280 oversampling translation table, and the BMP280 power remaps.
- **Layout**: per class, where each field lives; the tuples of accepted
  values; the device-ID register and value; the default and secondary bus
  address.
- **Device**: every property setter and getter as a pure transition on a
  device. A device is its registers plus the ordered log of field writes and
  delays the driver issues. Construction is a transition too: address
  resolution, the device-ID check and the start-up writes.
- **Driver**: a `Sensor` class whose fields are the register file, the log,
  `sea_level_pressure`, `t_fine` and the raw counts. Its methods assign
  fields one step at a time, in the drivers' order. The property setters
  `SetPowerMode`, `SetOsr`, `SetIir` and `SetOdr` are each proved to produce
  exactly the Device transition of the same name; `Start` produces
  `Device.Startup` and `Open` produces `Device.Init`. `WriteField` and
  `SleepMs` are `Device.Put` and `Device.Pause`, and `GetRawTempPressure`
  stores the counts of `RawData.DecodeRaw`.

Modelling assumptions:

- MicroPython substitutes `const()` names used bare inside methods by their
  values. So `STANDBY`=0, `NORMAL`=1, `FORCED`=2, `NON_STOP`=3, `OSR1`..`OSR128`=0..7
  and `COEF_0`..`COEF_127`=0..7.
- `OSR_SKIP` is 5 in the current revision and 0 in the older one.
- `BMP280_NORMAL_POWER` is 3 and `BMP280_FORCED_POWER` is 1.
- A name that is not a `const()` and not defined where it is looked up
  raises NameError (the bare `power_mode_values` of the older BMP390 and
  BMP280 setters).
- The `CBits` and `RegisterStruct` helpers are not part of this model; their
  behaviour is an assumption:
  - a field read is `(byte >> off) & (2^width - 1)`;
  - a field write replaces those bits and keeps the others, storing the value
    modulo 2^width;
  - a read of n registers is little-endian from the lowest address, which the
    BMP280 decode of the block at 0xF7 implies.
- Python exceptions are the `Error` values ValueError, RuntimeError,
  NameError, AttributeError and IndexError. A getter that indexes a name
  tuple past its end yields IndexError.
- The bus probe `_check_address` is the set `responds` of addresses that
  acknowledge an empty write.

Beyond the findings below, the model shows one more thing about the current
BMP390 class. Its `power_mode` setter accepts `NORMAL` = 1, and its own getter
names that code "FORCED" (`Device.Bmp390PowerModeReadsSwapped`). The
constructor writes that same code (`Device.Bmp390StartupReadsForced`).

## Model

| member | source | states |
|---|---|---|
| Bits.TwosComp | micropython_bmpxxx/bmpxxx.py:339-343 | the result is `val` or `val - 2^bits`; for `val < 2^bits` it lies in [-2^(bits-1), 2^(bits-1)) and is negative exactly when bit bits-1 of `val` is set |
| Bits.TwosCompCongruent | micropython_bmpxxx/bmpxxx.py:339-343 | the sign-extended value is congruent to `val` modulo 2^bits |
| Bits.TwosCompEncodes | micropython_bmpxxx/bmpxxx.py:339-343 | for `val < 2^bits`, reducing the result modulo 2^bits gives `val` back |
| Bits.TwosCompInverts | micropython_bmpxxx/bmpxxx.py:339-343 | every signed value in [-2^(bits-1), 2^(bits-1)), encoded modulo 2^bits, is recovered |
| Bits.AndLowMask | micropython_bmpxxx/bmpxxx.py:1195-1200 | masking with `2^k - 1` (`& 0xFF`, `& 0xFFFF`) keeps the value modulo 2^k |
| Bits.AndSingleBit | micropython_bmpxxx/bmpxxx.py:1040-1043 | masking with the single bit 2^k (`& 0x8000`, `& (1 << (bits-1))`) gives that bit's value times 2^k |
| Bits.OrDisjoint | micropython_bmpxxx/bmpxxx.py:1036-1038 | or-ing a value shifted past the other operand's bits is addition (`(msb << 8) \| lsb`) |
| Bits.AndClearField | micropython_bmpxxx/bmpxxx.py:1156 | and-ing with a mask that has only one field's bits clear subtracts that field's contribution |
| Bits.MaskedInsert | micropython_bmpxxx/bmpxxx.py:1187 | `(byte & mask) + (v << off)`, with the mask clearing exactly a w-bit field at off and `v < 2^w`, is the field write of v |
| Bits.FieldGetPut | micropython_bmpxxx/bmpxxx.py:142-152 | a field write reads back as the value modulo 2^width |
| Bits.FieldPutSame | micropython_bmpxxx/bmpxxx.py:142-152 | writing back a field's own value leaves the byte unchanged |
| Bits.FieldPutPut | micropython_bmpxxx/bmpxxx.py:142-152 | a second write of a field overrides the first |
| Bits.FieldPutOther | micropython_bmpxxx/bmpxxx.py:143-146 | a field write leaves a non-overlapping field of the same byte as it was (`_power_mode` and `_output_data_rate` share 0x37) |
| Bits.FieldWholeByte | micropython_bmpxxx/bmpxxx.py:954-955 | an 8-bit field at offset 0 (`_control_register`, `_config_register`, the calibration bytes) reads as the byte and is overwritten by the value |
| Bits.LittleEndianBound | micropython_bmpxxx/bmpxxx.py:151-152 | a read of n bytes is below 2^(8n) |
| Bits.LittleEndianByte | micropython_bmpxxx/bmpxxx.py:959 | byte i of a multi-byte read is the byte at the i-th register from the lowest address |
| RegisterFile.Get | micropython_bmpxxx/bmpxxx.py:142-152 | a field read is below 2^width |
| RegisterFile.Set | micropython_bmpxxx/bmpxxx.py:142-152 | after a field write the field reads as the value modulo 2^width and every other register is unchanged |
| RegisterFile.SetKeepsOther | micropython_bmpxxx/bmpxxx.py:143-149 | a field write leaves every disjoint field unchanged |
| RegisterFile.SetGet | micropython_bmpxxx/bmpxxx.py:142-152 | writing back what was read changes no register |
| RegisterFile.SetSet | micropython_bmpxxx/bmpxxx.py:142-152 | two writes of one field amount to the second |
| RegisterFile.SetCommute | micropython_bmpxxx/bmpxxx.py:142-152 | writes to fields of different registers commute |
| RegisterFile.GetSetOther | micropython_bmpxxx/bmpxxx.py:142-152 | a write to another register does not change a field |
| RegisterFile.Span | micropython_bmpxxx/bmpxxx.py:151-152 | a read of n consecutive registers is below 2^(8n) |
| Calibration.RegByteIsWholeField | micropython_bmpxxx/bmpxxx.py:573-594 | a calibration byte read through `CBits(8, reg, 0)` is the register's byte |
| Calibration.ShiftOrByte | micropython_bmpxxx/bmpxxx.py:1036-1038 | `(msb << 8) \| lsb` is `msb * 256 + lsb` |
| Calibration.Combine | micropython_bmpxxx/bmpxxx.py:673-685 | `par_p5`, `par_p6`: the combination is `msb * 256 + lsb`, an unsigned 16-bit value |
| Calibration.CombineMasked | micropython_bmpxxx/bmpxxx.py:1036-1038 | `_combine_unsigned`, `par_t1`, `par_t2`: the `& 0xFFFF` mask changes nothing, the result is the unmasked combination |
| Calibration.Signed16 | micropython_bmpxxx/bmpxxx.py:640-662 | `par_p1`, `par_p2`, `par_p9`: the result is in [-32768, 32768), equal to the combination or the combination minus 65536, and negative exactly when msb >= 128 |
| Calibration.Signed16IsTwosComp | micropython_bmpxxx/bmpxxx.py:640-651 | the 16-bit decode is `_twos_comp(combined, 16)` |
| Calibration.CombineSigned | micropython_bmpxxx/bmpxxx.py:1040-1043 | `_combine_signed`, testing bit 15 with `& 0x8000`, equals the `>= 0x8000` decode of `par_p1` |
| Calibration.Signed8 | micropython_bmpxxx/bmpxxx.py:635-637 | `par_t3` and the other single-byte coefficients: the result is in [-128, 128), equal to b or b - 256, and negative exactly when b >= 128 |
| Calibration.Signed8IsTwosComp | micropython_bmpxxx/bmpxxx.py:635-637 | the 8-bit decode is `_twos_comp(b, 8)` |
| Calibration.CombineInverts | micropython_bmpxxx/bmpxxx.py:1036-1038 | every 16-bit value split into its two bytes combines back to itself |
| Calibration.CombineInjective | micropython_bmpxxx/bmpxxx.py:1036-1038 | distinct (msb, lsb) pairs give distinct unsigned combinations |
| Calibration.Signed16Inverts | micropython_bmpxxx/bmpxxx.py:1040-1043 | every signed 16-bit value stored in two's complement decodes to itself |
| Calibration.Signed16Injective | micropython_bmpxxx/bmpxxx.py:1040-1043 | distinct (msb, lsb) pairs give distinct signed decodes |
| Calibration.Signed8Inverts | micropython_bmpxxx/bmpxxx.py:635-637 | every signed 8-bit value stored in two's complement decodes to itself |
| Calibration.Bmp390Calibration | micropython_bmpxxx/bmpxxx.py:620-715 | all fourteen BMP390 coefficients from registers 0x31..0x45, each within its range (u16, s16 or s8) |
| Calibration.Bmp390CalibrationRoundTrip | micropython_bmpxxx/bmpxxx.py:573-594 | every in-range coefficient set is read back from registers that store it |
| Calibration.Bmp280Calibration | micropython_bmpxxx/bmpxxx.py:1049-1091 | the twelve BMP280 coefficients from registers 0x88..0x9F: `dig_t1` and `dig_p1` unsigned, the rest signed 16-bit |
| Calibration.Bmp280CalibrationRoundTrip | micropython_bmpxxx/bmpxxx.py:962-986 | every in-range coefficient set is read back from registers that store it |
| Calibration.LegacyDigT | micropython_bmp58x/bmp58x.py:962-976 | the older `dig_t2` and `dig_t3` return None |
| Calibration.LegacyBmp280Calibration | micropython_bmp58x/bmp58x.py:955-1063 | the older `dig_*`: `dig_t2` and `dig_t3` are None, the other ten equal the current revision's |
| RawData.ByteAt | micropython_bmpxxx/bmpxxx.py:1195-1200 | `(raw >> 8k) & 0xFF` is byte k of the value |
| RawData.Raw20 | micropython_bmpxxx/bmpxxx.py:1201-1202 | the count is `msb * 4096 + lsb * 16 + xlsb / 16`, below 2^20 |
| RawData.DecodeRaw | micropython_bmpxxx/bmpxxx.py:1193-1203 | both counts of one read are below 2^20 |
| RawData.DecodeRawBytes | micropython_bmpxxx/bmpxxx.py:1193-1203 | pressure comes from the bytes at shifts 0, 8, 16 and temperature from those at 24, 32, 40, each in msb, lsb, xlsb order |
| RawData.DecodeRawRegisters | micropython_bmpxxx/bmpxxx.py:959 | pressure msb/lsb/xlsb are registers 0xF7..0xF9 and temperature 0xFA..0xFC of the one block read |
| RawData.Raw20Injective | micropython_bmpxxx/bmpxxx.py:1201-1202 | only the top nibble of xlsb contributes: equal counts have equal msb, lsb and xlsb top nibble |
| RawData.Encode20 | micropython_bmpxxx/bmpxxx.py:1201-1202 | the stored xlsb byte of a count has a zero low nibble |
| RawData.Raw20Inverts | micropython_bmpxxx/bmpxxx.py:1201-1202 | every 20-bit count is decoded from the bytes that store it |
| RawData.EncodeBlock | micropython_bmpxxx/bmpxxx.py:959 | the measurement block of a pair of counts is six bytes |
| RawData.DecodeRawInverts | micropython_bmpxxx/bmpxxx.py:1193-1203 | every pair of 20-bit counts is decoded from the block that stores it |
| Tables.TranslateOsr | micropython_bmpxxx/bmpxxx.py:1023-1034 | OSR1..OSR16 become codes 1..5; OSR_SKIP and every other key become 0; every code fits 3 bits |
| Tables.LegacyOsrCodeAgrees | micropython_bmp58x/bmp58x.py:1114-1122 | on OSR1..OSR16 the older `0 if value == 6 else value + 1` equals `_translate_osr_bmp280` |
| Tables.LegacyOsrCode | micropython_bmp58x/bmp58x.py:1114-1122 | the older in-place remap `0 if value == 6 else value + 1`; its properties are `Tables.LegacyOsrCodeAgrees` and `Tables.LegacyBmp280OsrNameOffByOne` |
| Tables.Bmp280OsrNameAgrees | micropython_bmpxxx/bmpxxx.py:1146 | the current BMP280 getter names the translated code of OSRk "OSRk" |
| Tables.LegacyBmp280OsrNameOffByOne | micropython_bmp58x/bmp58x.py:1111 | the older getter names the code of OSRk as the next rate up, and that of OSR16 "OSR_SKIP": never "OSRk" |
| Tables.LegacyOsrCodeWithCurrentNames | micropython_bmp58x/bmp58x.py:1114-1122 | with the current table, the older setter's codes read back under their own names |
| Tables.Bmp280PowerRemap | micropython_bmpxxx/bmpxxx.py:1119-1122 | the two sequential remaps never produce the normal-mode code 3, and change no value other than 3 |
| Tables.Bmp280PowerRemapMisnames | micropython_bmpxxx/bmpxxx.py:1109-1122 | NORMAL is written as the code the BMP280 getter names "FORCED" |
| Tables.Bmp280PowerCodeNames | micropython_bmp58x/bmp58x.py:1086-1089 | with the single remap 1 -> 3, STANDBY, FORCED and NORMAL read back under their own names in the current BMP280 table |
| Tables.Bmp280PowerCode | micropython_bmp58x/bmp58x.py:1086-1088 | the older single remap of NORMAL to 3; its property is `Tables.Bmp280PowerCodeNames` |
| Tables.Bmp390PowerNamesSwapped | micropython_bmpxxx/bmpxxx.py:731 | the BMP390 table names code NORMAL "FORCED" and code FORCED "NORMAL" |
| Layout.PowerField | micropython_bmpxxx/bmpxxx.py:143 | `_power_mode`: a 2-bit field, bits 0-1 of 0x37 on the BMP581/585, bits 4-5 of 0x1B on the BMP390 (bmpxxx.py 563), bits 0-1 of 0xF4 on the BMP280 (951) |
| Layout.PressureOsrField | micropython_bmpxxx/bmpxxx.py:145 | `_pressure_oversample_rate`: a 3-bit field, bits 3-5 of 0x36, bits 0-2 of 0x1C on the BMP390 (565), bits 2-4 of 0xF4 on the BMP280 (952) |
| Layout.TemperatureOsrField | micropython_bmpxxx/bmpxxx.py:144 | `_temperature_oversample_rate`: a 3-bit field, bits 0-2 of 0x36, bits 3-5 of 0x1C on the BMP390 (564), bits 5-7 of 0xF4 on the BMP280 (953) |
| Layout.IirField | micropython_bmpxxx/bmpxxx.py:148 | `_iir_coefficient`: a 3-bit field, bits 3-5 of 0x31, bits 1-3 of 0x1F on the BMP390 (566), bits 0-2 of 0xF5 on the current BMP280 (956) and of 0x1F on the older one |
| Layout.IirTempField | micropython_bmpxxx/bmpxxx.py:149 | `_iir_temp_coefficient`: a 3-bit field, bits 0-2 of 0x31, which no subclass redefines |
| Layout.OdrField | micropython_bmpxxx/bmpxxx.py:146 | `_output_data_rate`: a 5-bit field, bits 2-6 of 0x37, bits 0-4 of 0x1D on the BMP390 (567); the BMP280 keeps the BMP581's |
| Layout.PressureEnabledField | micropython_bmpxxx/bmpxxx.py:147 | `_pressure_enabled`: a 1-bit field, bit 6 of 0x36, bit 0 of 0x1B on the BMP390 (568); the BMP280 keeps the BMP581's |
| Layout.DeviceIdRegister | micropython_bmpxxx/bmpxxx.py:141 | `_device_id`: register 0x01, 0x00 on the BMP390 (561), 0xD0 on the current BMP280 (949) and 0x00 on the older one; always a register of the file |
| Layout.PowerModeValuesRange | micropython_bmpxxx/bmpxxx.py:104 | `power_mode_values` is {0..3} on the BMP581/585 and {0..2} on the BMP390 and BMP280 |
| Layout.OsrValuesRange | micropython_bmpxxx/bmpxxx.py:937-938 | the oversampling tuples are 0..7 (BMP581/585), 0..5 (BMP390) and 0..4 (BMP280, both revisions, the older tuple naming 0 twice) |
| Layout.IirValuesRange | micropython_bmpxxx/bmpxxx.py:129 | `iir_coefficient_values` is 0..7 |
| Device.PowerModeName | micropython_bmpxxx/bmpxxx.py:208-222 | the BMP581/585 getter and the current BMP280 getter (bmpxxx.py 1109) name every 2-bit code from their tables; the BMP390 getter and the older BMP280 getter (bmp58x.py 1080) succeed exactly for codes below 3; any failure is IndexError |
| Device.OsrName | micropython_bmpxxx/bmpxxx.py:1126-1147 | the BMP581/585 getters name every 3-bit code; the others succeed exactly for codes below 6; any failure is IndexError |
| Device.IirName | micropython_bmpxxx/bmpxxx.py:346-364 | the getter names every 3-bit code |
| Device.OutputDataRate | micropython_bmpxxx/bmpxxx.py:388-392 | the rate is below 32 |
| Device.SignedCount | micropython_bmpxxx/bmpxxx.py:294-309 | the BMP581/585 temperature and pressure counts are in [-2^23, 2^23) |
| Device.SignedCountInverts | micropython_bmpxxx/bmpxxx.py:294-309 | every signed 24-bit count stored in its three registers is read back |
| Device.Bmp58xCountsReadBack | micropython_bmpxxx/bmpxxx.py:151-152 | the `_temperature` run 0x1D..0x1F lies below the `_pressure` run 0x20..0x22, and any pair of signed 24-bit counts stored there is read back by the two properties |
| Device.SetPowerMode | micropython_bmpxxx/bmpxxx.py:224-232 | every class's `power_mode` setter (the BMP581's here, the BMP390's at bmpxxx.py 734-738, the BMP280's at 1112-1123, the older ones at bmp58x.py 711-714 and 1083-1090): the setter succeeds exactly for an accepted value in a class that defines its tuple; on failure nothing changes and the error is NameError (older BMP390/BMP280) or ValueError; on success the device is the one with the power field written |
| Device.Bmp58xPowerModeRoundTrip | micropython_bmpxxx/bmpxxx.py:208-232 | every accepted BMP581/585 mode reads back under its own name |
| Device.Bmp390PowerModeReadsSwapped | micropython_bmpxxx/bmpxxx.py:718-738 | setting NORMAL on the BMP390 reads back "FORCED" and FORCED reads back "NORMAL" |
| Device.Bmp280PowerNeverNormal | micropython_bmpxxx/bmpxxx.py:1094-1123 | the BMP280 setter never changes the power field to 3; setting NORMAL reads back "FORCED" |
| Device.Bmp280PowerWrittenAsIs | micropython_bmpxxx/bmpxxx.py:1094-1123 | an accepted BMP280 power value is one of 0 .. 2 and reads back from the power field unchanged |
| Device.LegacyPowerModeNameError | micropython_bmp58x/bmp58x.py:711-714 | the older BMP390 and BMP280 setters raise NameError for every value and leave the device alone |
| Device.CorrectedLegacySetPowerMode | micropython_bmp58x/bmp58x.py:1083-1090 | the older BMP390/BMP280 setter as intended: it succeeds exactly for a value in the class's `power_mode_values`, and otherwise raises ValueError with the device unchanged |
| Device.CorrectedLegacyPowerModeWrites | micropython_bmp58x/bmp58x.py:1083-1090 | the corrected older setter succeeds on every accepted value; on the BMP390 it is the current revision's transition; on the BMP280 the field holds `Bmp280PowerCode(v)`, which is the normal-mode code 3 exactly when NORMAL was set |
| Device.Bmp280Control | micropython_bmpxxx/bmpxxx.py:1154-1156 | the read-modify-write byte is the old control byte with only the quantity's oversampling field replaced |
| Device.SetOsr | micropython_bmpxxx/bmpxxx.py:1149-1190 | success exactly for an accepted value, else ValueError with nothing written; the field write (value, older BMP280 value + 1), or on the current BMP280 config := 0 then the whole control register with the field at value + 1 |
| Device.OsrRoundTrip | micropython_bmpxxx/bmpxxx.py:1126-1190 | in the current revision, and for the older BMP581/585/BMP390, every accepted rate reads back under its own name |
| Device.LegacyBmp280OsrMisreads | micropython_bmp58x/bmp58x.py:1093-1151 | in the older BMP280 every accepted rate reads back under another name |
| Device.Bmp280OsrSideEffects | micropython_bmpxxx/bmpxxx.py:1149-1190 | the BMP280 OSR update keeps the power mode and the other rate, and the IIR coefficient reads "COEF_0" afterwards |
| Device.SetIir | micropython_bmpxxx/bmpxxx.py:366-386 | an invalid value raises ValueError with nothing written; the current BMP390 writes the one field; the inherited sequence of every other class is stated by `Device.Bmp58xIirSequence`, `Device.Bmp280IirFromAcceptedMode`, `Device.Bmp280IirFromNormalFails` and `Device.LegacyIirNameError` |
| Device.RestoreAfterStandby | micropython_bmpxxx/bmpxxx.py:373-386 | STANDBY, the coefficient writes and the restore of the saved mode leave the registers as the two coefficient writes alone |
| Device.Bmp58xIirSequence | micropython_bmpxxx/bmpxxx.py:366-386 | on the BMP581/585 every accepted coefficient succeeds, the registers are the original with both coefficient fields written (the mode unchanged), the log is the optional STANDBY write, both coefficient writes and the restore, and the coefficient reads back |
| Device.Bmp58xIirFrom | micropython_bmp58x/bmp58x.py:348-369 | the outcome is the coefficient writes and restore on top of the optional STANDBY write |
| Device.Bmp280IirFromAcceptedMode | micropython_bmpxxx/bmpxxx.py:366-386 | on the current BMP280 from power code 0, 1 or 2 the inherited sequence succeeds, writes both coefficient fields, leaves the power field as it was, and logs the optional STANDBY write, the two coefficient writes and the restoring write |
| Device.CoefficientsReadBack | micropython_bmpxxx/bmpxxx.py:346-386 | after both coefficient writes the getter names the coefficient written |
| Device.Bmp280IirFromNormalFails | micropython_bmpxxx/bmpxxx.py:366-386 | on a BMP280 in mode 3 the inherited setter raises ValueError after writing STANDBY and both coefficient fields, leaving STANDBY |
| Device.LegacyIirNameError | micropython_bmp58x/bmp58x.py:348-369 | on the older BMP390 and BMP280 the setter raises NameError; it writes nothing, except both coefficient fields when the mode is already STANDBY |
| Device.SetIirRestoring | micropython_bmpxxx/bmpxxx.py:366-386 | the intended sequence: ValueError for an invalid value, otherwise success with exactly both coefficient fields changed |
| Device.SetIirRestoringKeepsMode | micropython_bmpxxx/bmpxxx.py:366-386 | with that sequence the power mode is kept and the coefficient reads back |
| Device.SetOdr | micropython_bmpxxx/bmpxxx.py:394-399 | success exactly for 0 <= v < 32, else ValueError with nothing written; on success the rate reads back as v |
| Device.SetOdrKeepsPowerMode | micropython_bmpxxx/bmpxxx.py:143-146 | writing the rate keeps the power mode that shares its register |
| Device.ResolveAddress | micropython_bmpxxx/bmpxxx.py:154-167 | a given address is taken exactly when it responds (always in the older revision); otherwise the default, then the secondary address, when one responds; RuntimeError when none does, AttributeError for the older BMP581/585 without an address |
| Device.LegacyAddressAttributeError | micropython_bmp58x/bmp58x.py:152-160 | the older BMP581/585 constructors fail with AttributeError without an address, where the current one finds a responding default |
| Device.Init | micropython_bmpxxx/bmpxxx.py:154-182 | construction succeeds exactly when an address is resolved and the device-ID register holds the class's ID; the address error propagates, a wrong ID is RuntimeError; the device is the start-up sequence applied to the booted device |
| Device.Bmp58xStartupState | micropython_bmpxxx/bmpxxx.py:175-181 | after start-up the BMP581/585 reads "NORMAL" and "COEF_0", the temperature IIR is 0, the pressure measurement enabled, and the log is the constructor's writes and delays |
| Device.Bmp390StartupReadsForced | micropython_bmpxxx/bmpxxx.py:615-617 | after start-up the BMP390 reads "FORCED" and the pressure measurement is enabled |
| Device.Bmp280StartupState | micropython_bmpxxx/bmpxxx.py:1013-1014 | after start-up 0xF4 is 0x27 and 0xF5 is 0: power code 3 ("NORMAL"), both rates "OSR1", IIR "COEF_0" |
| Device.Bmp280StartupKeepsData | micropython_bmpxxx/bmpxxx.py:1013-1015 | the start-up writes only 0xF4 and 0xF5, so the measurement block the constructor reads is the one the device held |
| Device.Bmp58xStartup | micropython_bmpxxx/bmpxxx.py:175-181 | the BMP581/585 start-up only appends to the traffic (its writes are stated by `Device.Bmp58xStartupState`) |
| Device.Bmp390Startup | micropython_bmpxxx/bmpxxx.py:615-617 | the BMP390 start-up only appends to the traffic (its effect is stated by `Device.Bmp390StartupReadsForced`) |
| Device.Bmp280Startup | micropython_bmpxxx/bmpxxx.py:1013-1021 | the BMP280 start-up only appends to the traffic and changes no register but the control and config registers |
| Device.Startup | micropython_bmpxxx/bmpxxx.py:175-181 | each class's start-up only appends to the traffic |
| Device.Boot | micropython_bmpxxx/bmpxxx.py:155 | the constructor finds the registers as the bus holds them, having logged at most the 3 ms power-up wait |
| Device.Bmp280IirAfterInitFails | micropython_bmpxxx/bmpxxx.py:1013-1014 | on a freshly constructed BMP280 every `iir_coefficient` assignment raises ValueError and leaves STANDBY |
| Driver.Sensor.Attach | micropython_bmpxxx/bmpxxx.py:169-170 | the object holds the class, the revision, the address and the device |
| Driver.Sensor.WriteField | micropython_bmpxxx/bmpxxx.py:142-152 | assigning a field is the field write plus its log entry |
| Driver.Sensor.SleepMs | micropython_bmpxxx/bmpxxx.py:176 | a delay adds its log entry and changes no register |
| Driver.Sensor.SetPowerMode | micropython_bmpxxx/bmpxxx.py:1112-1123 | the step-by-step setter, with its in-place remaps, ends in the state and status of `Device.SetPowerMode` |
| Driver.Sensor.SetOsr | micropython_bmpxxx/bmpxxx.py:1149-1190 | the step-by-step setters, with the read-modify-write of 0xF4, end in the state and status of `Device.SetOsr` |
| Driver.Sensor.SetIir | micropython_bmpxxx/bmpxxx.py:366-386 | the save/STANDBY/write/restore sequence through the object's own `power_mode` setter ends in the state and status of `Device.SetIir` |
| Driver.Sensor.SetOdr | micropython_bmpxxx/bmpxxx.py:394-399 | the setter ends in the state and status of `Device.SetOdr` |
| Driver.Sensor.GetRawTempPressure | micropython_bmpxxx/bmpxxx.py:1193-1203 | the stored and returned counts are the decode of the one block read at 0xF7, temperature from 0xFA..0xFC and pressure from 0xF7..0xF9 |
| Driver.Sensor.Start | micropython_bmpxxx/bmpxxx.py:175-182 | the start-up writes give the state of `Device.Startup` and set `sea_level_pressure` to 1013.25; the BMP280 also stores the raw counts of its initial read and `t_fine` = 0 |
| Driver.Sensor.StartBmp58x | micropython_bmpxxx/bmpxxx.py:175-181 | the BMP581/585 writes and delays give `Device.Bmp58xStartup` |
| Driver.Sensor.StartBmp390 | micropython_bmpxxx/bmpxxx.py:615-617 | the BMP390 writes and delay give `Device.Bmp390Startup` |
| Driver.Sensor.StartBmp280 | micropython_bmpxxx/bmpxxx.py:1013-1021 | the BMP280 writes, block read and delays give `Device.Bmp280Startup`, the raw counts of that read, and `t_fine` = 0 |
| Driver.Sensor.Open | micropython_bmpxxx/bmpxxx.py:154-182 | construction succeeds exactly when `Device.Init` does, with its error; the new object has the resolved address, the started device, `sea_level_pressure` 1013.25 and `t_fine` 0; a BMP280 holds the raw counts decoded from the block at 0xF7 the device held, every other class raw counts 0 |

## Left out

- Floating-point compensation: the BMP390 and BMP280 temperature and pressure
  polynomials, the `t_fine` truncation, the `/ 65536.0` and `/ 64 / 100`
  scalings and the altitude formula and its inverse. They are real-valued
  numerics. The model stops at the integer counts and calibration
  coefficients they consume. `t_fine` is kept only as the 0 the BMP280
  constructor stores.
- `sea_level_pressure` getter and setter, and the `altitude` setter: float
  attributes outside the register model. The constructors' assignment of
  1013.25 is modelled.
- The I2C bus: `i2c.writeto` probing is the `responds` set, and register
  contents are a static snapshot `Regs`. The device never changes its
  registers on its own, and every register read returns the last value
  written. Measurement registers therefore do not refresh.
- `time.sleep_ms` has no timing meaning; each delay is a `Sleep` entry in the
  log.
- `config` and the debug and diagnostic `print` calls: output only. That
  includes the BMP280 power setter's print and the older BMP585's warning
  messages.
- The BMP390 `temperature` and `pressure` properties, and the BMP280 ones:
  each reads raw data and then applies float compensation. The BMP280 block
  decode they share is modelled (`Driver.Sensor.GetRawTempPressure`).
- The older BMP280 constructor is not modelled, because as written it never
  succeeds. Without an address it reads `self.BMP390_I2C_ADDRESS_DEFAULT`,
  which the BMP280 class does not have (it subclasses BMP581), so it raises
  AttributeError before any probe (bmp58x.py:930). With an address and a
  matching ID it assigns the undefined name `BMP280_POWER_NORMAL`, which
  raises NameError (bmp58x.py:940). Its raw-data helper is also nested
  inside a setter.
  `Device.Init` and `Driver.Sensor.Open` require a supported class and
  revision pair. The older BMP280 setters and getters are modelled.
- The older revision's BMP581/585/BMP390 read, `par_*` and `_twos_comp` code
  is identical to the current one. It is modelled by the same members.
- `_pressure_enabled = True` is the write of 1 to that field.
- `_drdy_status`, `_iir_control` and the `_device_id` property are declared
  but not otherwise used by the modelled operations. The device ID is read as
  one register byte.

## Findings

| source | as written | input that shows it | evidently intended | confidence | as-written member | corrected member |
|---|---|---|---|---|---|---|
| micropython_bmpxxx/bmpxxx.py:1119-1122 | the BMP280 `power_mode` setter remaps 1 to 3 and then 3 to 1, which cancels itself | `power_mode = NORMAL` writes 1, which the getter names "FORCED" | NORMAL becomes the BMP280's normal-mode code 3 | high; not executed | Tables.Bmp280PowerRemapMisnames | Tables.Bmp280PowerCodeNames |
| micropython_bmpxxx/bmpxxx.py:366-386 | the BMP280 inherits the BMP581 IIR setter, whose restore assigns the saved code 3 through a setter that accepts only 0..2 | any `iir_coefficient` after construction, which left power code 3 | write the coefficient and keep normal mode | high; not executed | Device.Bmp280IirFromNormalFails | Device.SetIirRestoringKeepsMode |
| micropython_bmp58x/bmp58x.py:1111 | the older BMP280 OSR getter table starts at "OSR1" for code 0 while the setter writes value + 1 | set OSR1: the field holds 1, the getter says "OSR2" | the table starts with "OSR_SKIP", as the current revision's does | high; not executed | Tables.LegacyBmp280OsrNameOffByOne | Tables.LegacyOsrCodeWithCurrentNames |
| micropython_bmp58x/bmp58x.py:962-976 | the older `dig_t2` and `dig_t3` compute the signed value but never return it | any calibration bytes: the property is None | return the signed 16-bit coefficient | high; not executed | Calibration.LegacyBmp280Calibration | Calibration.Bmp280CalibrationRoundTrip |
| micropython_bmp58x/bmp58x.py:711-714 | the older BMP390 and BMP280 `power_mode` setters test a bare `power_mode_values`, which is not defined there | any value, e.g. `power_mode = STANDBY`, raises NameError | test `self.power_mode_values` | high; not executed | Device.LegacyPowerModeNameError | Device.CorrectedLegacyPowerModeWrites |
| micropython_bmp58x/bmp58x.py:152-160 | the older BMP581/585 constructors call `self._check_address`, which only the BMP390 and BMP280 classes define | BMP581 constructed without an address raises AttributeError | probe the default and secondary addresses | high; not executed | Device.LegacyAddressAttributeError | Device.ResolveAddress |

In each row the Device and Driver transitions model the code as written. The
corrected member states the intended behaviour beside them:

- `Device.SetIirRestoring`, with `Device.SetIirRestoringKeepsMode`, restores
  the saved power code directly.
- `Tables.Bmp280PowerCode` is the single remap of the older revision.
- `Calibration.Bmp280Calibration` returns every coefficient.
- `Device.CorrectedLegacySetPowerMode` is the older BMP390/BMP280 power
  setter with the guard on the class's own tuple. On the BMP390 it is the
  current revision's `Device.SetPowerMode`; on the BMP280 it writes
  `Tables.Bmp280PowerCode`, the older single remap, and not the current
  cancelling one (`Device.CorrectedLegacyPowerModeWrites`). The older
  BMP280 getter's three-entry table has no name for that code 3, so its
  getter raises IndexError after NORMAL is set (`Device.PowerModeName`).
- The current revision's `Device.ResolveAddress` is the corrected behaviour
  of the older BMP581/585 address probe.
