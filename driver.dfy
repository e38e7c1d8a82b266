/**
 * The driver object. Its properties are methods that validate their argument
 * and then assign register fields one step at a time, in the order the
 * classes do. Each property setter is proved to produce exactly the
 * transition of the same name in module Device, whose properties are proved
 * there; `Start` produces `Device.Startup` and `Open` produces `Device.Init`.
 */
module Driver {
  import opened Wrappers
  import opened Bits
  import opened RegisterFile
  import opened Tables
  import opened Layout
  import opened RawData
  import opened Device

  /** `WORLD_AVERAGE_SEA_LEVEL_PRESSURE`, in hPa. */
  const WorldAverageSeaLevelPressure: real := 1013.25

  class Sensor {
    const chip: Chip
    const rev: Revision
    /** The bus address the constructor settled on. */
    const address: int
    /** The device's registers as the bus reads them. */
    var regs: Regs
    /** The field writes and delays issued so far. */
    var log: seq<Event>
    var seaLevelPressure: real
    var tFine: int
    var pRaw: nat
    var tRaw: nat

    /** The device this object drives. */
    function State(): Dev
      reads this
    {
      Dev(regs, log)
    }

    constructor Attach(chip: Chip, rev: Revision, address: int, d: Dev)
      ensures this.chip == chip && this.rev == rev && this.address == address
      ensures State() == d
      ensures seaLevelPressure == 0.0 && tFine == 0 && pRaw == 0 && tRaw == 0
    {
      this.chip := chip;
      this.rev := rev;
      this.address := address;
      regs := d.regs;
      log := d.log;
      seaLevelPressure := 0.0;
      tFine := 0;
      pRaw := 0;
      tRaw := 0;
    }

    /** Assigning one `CBits` field. */
    method WriteField(f: Field, v: nat)
      requires f.Valid()
      modifies this`regs, this`log
      ensures State() == Put(old(State()), f, v)
    {
      regs := Set(regs, f, v);
      log := log + [Write(f, v)];
    }

    /** `time.sleep_ms`. */
    method SleepMs(ms: nat)
      modifies this`log
      ensures State() == Pause(old(State()), ms)
    {
      log := log + [Sleep(ms)];
    }

    /** The `power_mode` setter. */
    method SetPowerMode(value: int) returns (status: Status)
      modifies this`regs, this`log
      ensures Outcome(State(), status) == Device.SetPowerMode(chip, rev, old(State()), value)
    {
      if rev.Legacy? && !Is58x(chip) {
        return Raised(NameError);
      }
      if value !in PowerModeValues(chip) {
        return Raised(ValueError);
      }
      PowerModeValuesRange(chip, value);
      var v := value;
      if chip == BMP280 {
        if v == 0x01 {
          v := BMP280_NORMAL_POWER;
        }
        if v == 0x03 {
          v := BMP280_FORCED_POWER;
        }
      }
      WriteField(PowerField(chip), v);
      return Ok;
    }

    /** The `pressure_oversample_rate` and `temperature_oversample_rate`
        setters. */
    method SetOsr(q: Quantity, value: int) returns (status: Status)
      modifies this`regs, this`log
      ensures Outcome(State(), status) == Device.SetOsr(chip, rev, q, old(State()), value)
    {
      if value !in OsrValues(chip, rev) {
        return Raised(ValueError);
      }
      OsrValuesRange(chip, rev, value);
      if chip == BMP280 && rev.Current? {
        var control := Get(regs, ControlRegister);
        FieldWholeByte(regs[0xF4]);
        control := Bmp280Control(control as byte, q, TranslateOsr(value));
        WriteField(ConfigRegister, 0x00);
        WriteField(ControlRegister, control);
      } else if chip == BMP280 {
        var v := value;
        if v == 6 {
          v := 0;
        } else {
          v := v + 1;
        }
        WriteField(OsrField(chip, q), v);
      } else {
        WriteField(OsrField(chip, q), value);
      }
      return Ok;
    }

    /** The `iir_coefficient` setter. */
    method SetIir(value: int) returns (status: Status)
      modifies this`regs, this`log
      ensures Outcome(State(), status) == Device.SetIir(chip, rev, old(State()), value)
    {
      if value !in IirValues {
        return Raised(ValueError);
      }
      IirValuesRange(value);
      if chip == BMP390 && rev.Current? {
        WriteField(IirField(chip, rev), value);
        return Ok;
      }
      var original := Get(regs, PowerField(chip));
      if original != STANDBY {
        status := SetPowerMode(STANDBY);
        if status != Ok {
          return;
        }
      }
      WriteField(IirField(chip, rev), value);
      WriteField(IirTempField(chip), value);
      status := SetPowerMode(original);
    }

    /** The `output_data_rate` setter. */
    method SetOdr(value: int) returns (status: Status)
      modifies this`regs, this`log
      ensures Outcome(State(), status) == Device.SetOdr(chip, old(State()), value)
    {
      if !(0 <= value < 32) {
        return Raised(ValueError);
      }
      WriteField(OdrField(chip), value);
      return Ok;
    }

    /** The BMP280's `_get_raw_temp_pressure`: one read of the measurement
        block, split into the two 20-bit counts, which it stores and
        returns. */
    method GetRawTempPressure() returns (t: nat, p: nat)
      requires chip == BMP280
      modifies this`pRaw, this`tRaw
      ensures t == tRaw && p == pRaw
      ensures RawCounts(t, p) == DecodeRaw(Span(regs, 0xF7, 6))
      ensures t == Raw20(regs[0xFA], regs[0xFB], regs[0xFC])
      ensures p == Raw20(regs[0xF7], regs[0xF8], regs[0xF9])
    {
      var raw := Span(regs, 0xF7, 6);
      var tXlsb := ByteAt(raw, 5);
      var tLsb := ByteAt(raw, 4);
      var tMsb := ByteAt(raw, 3);
      var pXlsb := ByteAt(raw, 2);
      var pLsb := ByteAt(raw, 1);
      var pMsb := ByteAt(raw, 0);
      pRaw := Raw20(pMsb, pLsb, pXlsb);
      tRaw := Raw20(tMsb, tLsb, tXlsb);
      DecodeRawRegisters(regs);
      return tRaw, pRaw;
    }

    /** The constructor's writes after the device-ID check. */
    method Start()
      requires Supported(chip, rev)
      modifies this
      ensures State() == Startup(chip, rev, old(State()))
      ensures seaLevelPressure == WorldAverageSeaLevelPressure
      ensures chip == BMP280 ==> tFine == 0 && RawCounts(tRaw, pRaw) == DecodeRaw(Span(regs, 0xF7, 6))
      ensures chip != BMP280 ==> tFine == old(tFine) && pRaw == old(pRaw) && tRaw == old(tRaw)
    {
      match chip {
        case BMP390 => StartBmp390();
        case BMP280 => StartBmp280();
        case _ => StartBmp58x();
      }
      seaLevelPressure := WorldAverageSeaLevelPressure;
    }

    method StartBmp58x()
      requires Is58x(chip)
      modifies this`regs, this`log
      ensures State() == Bmp58xStartup(chip, rev, old(State()))
    {
      WriteField(PowerField(chip), STANDBY);
      if rev.Current? {
        SleepMs(5);
      }
      WriteField(IirField(chip, rev), COEF_0);
      WriteField(IirTempField(chip), COEF_0);
      WriteField(PowerField(chip), NORMAL);
      if rev.Current? {
        SleepMs(5);
      }
      WriteField(PressureEnabledField(chip), 1);
    }

    method StartBmp390()
      requires chip == BMP390
      modifies this`regs, this`log
      ensures State() == Bmp390Startup(rev, old(State()))
    {
      WriteField(PowerField(chip), NORMAL);
      if rev.Current? {
        SleepMs(4);
      }
      WriteField(PressureEnabledField(chip), 1);
    }

    /** The BMP280 reads the measurement block once (`_ = self.pressure`)
        before its delays. */
    method StartBmp280()
      requires chip == BMP280
      modifies this`regs, this`log, this`pRaw, this`tRaw, this`tFine
      ensures State() == Bmp280Startup(old(State()))
      ensures tFine == 0 && RawCounts(tRaw, pRaw) == DecodeRaw(Span(regs, 0xF7, 6))
    {
      WriteField(ConfigRegister, 0x00);
      WriteField(ControlRegister, Shl(TranslateOsr(OSR1), 5) + Shl(TranslateOsr(OSR1), 2) + BMP280_NORMAL_POWER);
      var _, _ := GetRawTempPressure();
      SleepMs(4);
      SleepMs(63);
      tFine := 0;
    }

    /** The class constructor on a device whose registers are `r` and of
        which the addresses in `responds` acknowledge on the bus. */
    static method Open(chip: Chip, rev: Revision, responds: set<int>, address: Option<int>, r: Regs)
      returns (res: Result<Sensor>)
      requires Supported(chip, rev)
      ensures res.Success? <==> Init(chip, rev, responds, address, r).Success?
      ensures res.Failure? ==> res.error == Init(chip, rev, responds, address, r).error
      ensures res.Success? ==>
        fresh(res.value) && res.value.chip == chip && res.value.rev == rev &&
        res.value.address == Init(chip, rev, responds, address, r).value.address &&
        res.value.State() == Init(chip, rev, responds, address, r).value.dev &&
        res.value.seaLevelPressure == WorldAverageSeaLevelPressure && res.value.tFine == 0
    ensures res.Success? && chip == BMP280 ==>
      RawCounts(res.value.tRaw, res.value.pRaw) == DecodeRaw(Span(r, 0xF7, 6))
    ensures res.Success? && chip != BMP280 ==> res.value.pRaw == 0 && res.value.tRaw == 0
    {
      var boot := Boot(rev, r);
      var resolved := ResolveAddress(chip, rev, responds, address);
      if resolved.Failure? {
        return Failure(resolved.error);
      }
      if r[DeviceIdRegister(chip, rev)] != ChipId(chip) {
        return Failure(RuntimeError);
      }
      var s := new Sensor.Attach(chip, rev, resolved.value, boot);
      s.Start();
      if chip == BMP280 {
        Bmp280StartupKeepsData(boot);
      }
      return Success(s);
    }
  }
}
