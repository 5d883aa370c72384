// The LSM6DSO accelerometer and gyroscope driver: bit-field writes to its
// configuration registers, chip detection, cached full-scale settings and
// the assembly of raw 16-bit samples. The device behind the I2C bus is its
// register file; whether a transfer fails is a parameter. The register map's
// field masks, offsets and value decodings live in a module that is not part
// of this model, so they are parameters too.
module Lsm6dso {
  import opened Bytes
  import opened Words
  import opened Results

  /** The value of the WHO_AM_I register. */
  const CHIP_ID: bv8 := 0x6C

  datatype Register = WhoAmI | Ctrl1XL | Ctrl2G | Ctrl3C | Ctrl6C | Ctrl7G | StatusReg | OutTempL | OutXLG | OutXLA

  datatype ImuError = CommunicationError | ChipDetectFailed | RegisterReadFailed

  /** A register option's field: `RO::mask()` and `RO::bit_offset()`. */
  datatype Field = Field(mask: bv8, offset: bv8)

  predicate ValidField(f: Field) {
    f.offset < 8
  }

  /** The field a register option occupies: `mask << shift`, spelled out
      one constant shift per offset. */
  function FieldMask(mask: bv8, shift: bv8): bv8
    requires shift < 8
  {
    if shift == 0 then mask
    else if shift == 1 then mask << 1
    else if shift == 2 then mask << 2
    else if shift == 3 then mask << 3
    else if shift == 4 then mask << 4
    else if shift == 5 then mask << 5
    else if shift == 6 then mask << 6
    else mask << 7
  }

  /** The spelled-out field is the shifted mask. */
  lemma FieldMaskIsShift(mask: bv8, shift: bv8)
    requires shift < 8
    ensures FieldMask(mask, shift) == mask << shift
  {
  }

  /** `write_bits`' new register value:
      `(current & !(mask << shift)) | ((new_value & mask) << shift)`. */
  function BitsWritten(current: bv8, newValue: bv8, mask: bv8, shift: bv8): (r: bv8)
    requires shift < 8
  {
    (current & !FieldMask(mask, shift)) | FieldMask(newValue & mask, shift)
  }

  /** Bits outside the field keep their value. */
  lemma BitsWrittenOutside(current: bv8, newValue: bv8, mask: bv8, shift: bv8)
    requires shift < 8
    ensures BitsWritten(current, newValue, mask, shift) & !FieldMask(mask, shift) == current & !FieldMask(mask, shift)
  {
  }

  /** Within the field the register holds `new_value & mask`, shifted into
      place. */
  lemma {:induction false} BitsWrittenField(current: bv8, newValue: bv8, mask: bv8, shift: bv8)
    requires shift < 8
    ensures BitsWritten(current, newValue, mask, shift) & FieldMask(mask, shift) == FieldMask(newValue & mask, shift)
  {
    ShiftedSubset(newValue, mask, shift);
    MergeField(current, FieldMask(mask, shift), FieldMask(newValue & mask, shift));
  }

  lemma ShiftedSubset(v: bv8, m: bv8, s: bv8)
    requires s < 8
    ensures FieldMask(v & m, s) & FieldMask(m, s) == FieldMask(v & m, s)
  {
    if s == 0 {} else if s == 1 {} else if s == 2 {} else if s == 3 {}
    else if s == 4 {} else if s == 5 {} else if s == 6 {} else {}
  }

  lemma MergeField(c: bv8, f: bv8, g: bv8)
    requires g & f == g
    ensures ((c & !f) | g) & f == g
  {
  }

  /** The bit position a field offset below 8 names. */
  function OffsetIndex(shift: bv8): (i: nat)
    requires shift < 8
    ensures i < 8
  {
    if shift == 0 then 0 else if shift == 1 then 1 else if shift == 2 then 2
    else if shift == 3 then 3 else if shift == 4 then 4 else if shift == 5 then 5
    else if shift == 6 then 6 else 7
  }

  lemma OneBitField(shift: bv8, value: bv8)
    requires shift < 8
    ensures FieldMask(1, shift) == Mask(OffsetIndex(shift))
    ensures FieldMask(value & 1, shift) == if value & 1 == 1 then Mask(OffsetIndex(shift)) else 0
  {
    if value & 1 == 1 {
      assert value & 1 == 1;
    } else {
      assert value & 1 == 0;
    }
  }

  /** `write_bit` sets or clears the one bit at `shift`, following bit 0 of
      `value`. */
  lemma {:induction false} BitWrittenIsSetBit(current: bv8, value: bv8, shift: bv8)
    requires shift < 8
    ensures BitsWritten(current, value, 1, shift) == SetBit(current, OffsetIndex(shift), value & 1 == 1)
  {
    BitWrittenIsPut(current, value, shift);
    SetBitIsPut(current, OffsetIndex(shift), value & 1 == 1);
  }

  lemma {:induction false} BitWrittenIsPut(current: bv8, value: bv8, shift: bv8)
    requires shift < 8
    ensures BitsWritten(current, value, 1, shift) == Put(current, Mask(OffsetIndex(shift)), value & 1 == 1)
  {
    OneBitField(shift, value);
    MergeAt(current, value, shift, Mask(OffsetIndex(shift)));
  }

  lemma MergeAt(current: bv8, value: bv8, shift: bv8, m: bv8)
    requires shift < 8
    requires FieldMask(1, shift) == m && FieldMask(value & 1, shift) == if value & 1 == 1 then m else 0
    ensures BitsWritten(current, value, 1, shift) == Put(current, m, value & 1 == 1)
  {
    MergeIsPut(current, m, value & 1 == 1);
  }

  /** Writing the same field value twice is the same as writing it once. */
  lemma BitsWrittenIdempotent(current: bv8, newValue: bv8, mask: bv8, shift: bv8)
    requires shift < 8
    ensures BitsWritten(BitsWritten(current, newValue, mask, shift), newValue, mask, shift)
            == BitsWritten(current, newValue, mask, shift)
  {
  }

  /** The three raw axes of a six-byte sample: x, y, z, each low byte first. */
  datatype Axes = Axes(x: int, y: int, z: int)

  function RawAxes(res: seq<bv8>): (a: Axes)
    requires |res| == 6
    ensures a.x == I16Value(res[0], res[1]) && a.y == I16Value(res[2], res[3]) && a.z == I16Value(res[4], res[5])
  {
    Le16Signed(res[0], res[1]);
    Le16Signed(res[2], res[3]);
    Le16Signed(res[4], res[5]);
    Axes(Signed16(Le16(res[0], res[1])), Signed16(Le16(res[2], res[3])), Signed16(Le16(res[4], res[5])))
  }

  /** The raw temperature of the two bytes at `OUT_TEMP_L`. */
  function RawTemperature(data: seq<bv8>): (t: int)
    requires |data| == 2
    ensures t == I16Value(data[0], data[1])
  {
    Le16Signed(data[0], data[1]);
    Signed16(Le16(data[0], data[1]))
  }

  /** The fourteen bytes read from `OUT_TEMP_L` split as temperature (2),
      gyroscope (6) and accelerometer (6). */
  datatype RawSample = RawSample(temperature: int, gyro: Axes, accel: Axes)

  function SplitAll(data: seq<bv8>): (s: RawSample)
    requires |data| == 14
    ensures s.temperature == RawTemperature(data[..2])
    ensures s.gyro == RawAxes(data[2..8]) && s.accel == RawAxes(data[8..14])
  {
    RawSample(RawTemperature(data[0..2]), RawAxes(data[2..8]), RawAxes(data[8..14]))
  }

  /** `accel_data_available`: bit 0 of the status register. */
  predicate AccelAvailable(status: bv8) { status & 0x01 != 0 }

  /** `gyro_data_available`: bit 1 of the status register. */
  predicate GyroAvailable(status: bv8) { status & 0x02 != 0 }

  /** What `read_accelerometer_scale` / `read_gyroscope_scale` return for a
      cache, the raw register value and whether the read fails: the cached
      value with no bus access, or else the decoded register. */
  function CachedScale(cache: Option<bv8>, tryFrom: bv8 -> Option<bv8>, raw: bv8, busFails: bool)
    : (r: Result<bv8, ImuError>)
    ensures cache.Some? ==> r == Ok(cache.value)
    ensures cache.None? ==> (r.Ok? <==> !busFails && tryFrom(raw).Some?)
    ensures cache.None? && r.Ok? ==> tryFrom(raw) == Some(r.value)
    ensures cache.None? && r.Err? ==> r.error == if busFails then CommunicationError else RegisterReadFailed
  {
    match cache
    case Some(v) => Ok(v)
    case None =>
      if busFails then Err(CommunicationError)
      else match tryFrom(raw)
        case None => Err(RegisterReadFailed)
        case Some(v) => Ok(v)
  }

  /** The driver: its bus address, the device's register file and the two
      cached full-scale settings (as their register codes). */
  class Imu {
    const addr: bv8
    var device: map<Register, bv8>
    var accelerometerScale: Option<bv8>
    var gyroscopeScale: Option<bv8>

    ghost predicate Valid()
      reads this
    {
      forall r: Register :: r in device
    }

    /** The object `new` builds before detecting the chip: nothing cached. */
    constructor (addr: bv8, device: map<Register, bv8>)
      requires forall r: Register :: r in device
      ensures Valid()
      ensures this.addr == addr && this.device == device
      ensures accelerometerScale == None && gyroscopeScale == None
    {
      this.addr := addr;
      this.device := device;
      accelerometerScale := None;
      gyroscopeScale := None;
    }

    method ReadRegister(r: Register, busFails: bool) returns (res: Result<bv8, ImuError>)
      requires Valid()
      ensures res == if busFails then Err(CommunicationError) else Ok(device[r])
    {
      if busFails {
        return Err(CommunicationError);
      }
      return Ok(device[r]);
    }

    /** A failed write changes nothing on the device. */
    method WriteRegister(r: Register, value: bv8, busFails: bool) returns (res: Result<(), ImuError>)
      requires Valid()
      modifies this
      ensures Valid()
      ensures res == if busFails then Err(CommunicationError) else Ok(())
      ensures device == if busFails then old(device) else old(device)[r := value]
      ensures accelerometerScale == old(accelerometerScale) && gyroscopeScale == old(gyroscopeScale)
    {
      if busFails {
        return Err(CommunicationError);
      }
      device := device[r := value];
      return Ok(());
    }

    /** `write_bits`: read, change the field, write back. A failed read
        performs no write. */
    method WriteBits(r: Register, newValue: bv8, mask: bv8, shift: bv8, readFails: bool, writeFails: bool)
      returns (res: Result<(), ImuError>)
      requires Valid() && shift < 8
      modifies this
      ensures Valid()
      ensures res == if readFails || writeFails then Err(CommunicationError) else Ok(())
      ensures device == if res.Ok? then old(device)[r := BitsWritten(old(device)[r], newValue, mask, shift)]
                        else old(device)
      ensures accelerometerScale == old(accelerometerScale) && gyroscopeScale == old(gyroscopeScale)
    {
      var current := ReadRegister(r, readFails);
      if current.Err? {
        return Err(current.error);
      }
      var modified := BitsWritten(current.value, newValue, mask, shift);
      res := WriteRegister(r, modified, writeFails);
    }

    /** `write_bit`: `write_bits` with a one-bit mask. */
    method WriteBit(r: Register, value: bv8, shift: bv8, readFails: bool, writeFails: bool)
      returns (res: Result<(), ImuError>)
      requires Valid() && shift < 8
      modifies this
      ensures Valid()
      ensures res == if readFails || writeFails then Err(CommunicationError) else Ok(())
      ensures device == if res.Ok? then old(device)[r := BitsWritten(old(device)[r], value, 1, shift)]
                        else old(device)
      ensures accelerometerScale == old(accelerometerScale) && gyroscopeScale == old(gyroscopeScale)
    {
      res := WriteBits(r, value, 0x01, shift, readFails, writeFails);
    }

    /** `check`: does WHO_AM_I hold the chip id? */
    method Check(busFails: bool) returns (res: Result<bool, ImuError>)
      requires Valid()
      ensures res == if busFails then Err(CommunicationError) else Ok(device[WhoAmI] == CHIP_ID)
    {
      var id := ReadRegister(WhoAmI, busFails);
      if id.Err? {
        return Err(id.error);
      }
      return Ok(id.value == CHIP_ID);
    }

    /** `set_accelerometer_scale`: on success the cache holds the new scale,
        on failure it is emptied. */
    method SetAccelerometerScale(scale: bv8, field: Field, readFails: bool, writeFails: bool)
      returns (res: Result<(), ImuError>)
      requires Valid() && ValidField(field)
      modifies this
      ensures Valid()
      ensures res.Ok? <==> !readFails && !writeFails
      ensures device == if res.Ok? then old(device)[Ctrl1XL := BitsWritten(old(device)[Ctrl1XL], scale, field.mask, field.offset)]
                        else old(device)
      ensures accelerometerScale == if res.Ok? then Some(scale) else None
      ensures gyroscopeScale == old(gyroscopeScale)
    {
      res := WriteBits(Ctrl1XL, scale, field.mask, field.offset, readFails, writeFails);
      if res.Ok? {
        accelerometerScale := Some(scale);
      } else {
        accelerometerScale := None;
      }
    }

    /** `set_gyroscope_scale` as written: on success the gyroscope cache holds
        the new scale; on failure it is the accelerometer cache that is
        emptied, and the gyroscope cache keeps its old value. */
    method SetGyroscopeScale(scale: bv8, field: Field, readFails: bool, writeFails: bool)
      returns (res: Result<(), ImuError>)
      requires Valid() && ValidField(field)
      modifies this
      ensures Valid()
      ensures res.Ok? <==> !readFails && !writeFails
      ensures device == if res.Ok? then old(device)[Ctrl2G := BitsWritten(old(device)[Ctrl2G], scale, field.mask, field.offset)]
                        else old(device)
      ensures gyroscopeScale == if res.Ok? then Some(scale) else old(gyroscopeScale)
      ensures accelerometerScale == if res.Ok? then old(accelerometerScale) else None
    {
      res := WriteBits(Ctrl2G, scale, field.mask, field.offset, readFails, writeFails);
      if res.Ok? {
        gyroscopeScale := Some(scale);
      } else {
        accelerometerScale := None;
      }
    }

    /** `set_accelerometer_output` / `set_gyroscope_output`: a field write to
        the sensor's control register, with no effect on the caches. */
    method SetOutput(r: Register, output: bv8, field: Field, readFails: bool, writeFails: bool)
      returns (res: Result<(), ImuError>)
      requires Valid() && ValidField(field) && (r == Ctrl1XL || r == Ctrl2G)
      modifies this
      ensures Valid()
      ensures res.Ok? <==> !readFails && !writeFails
      ensures device == if res.Ok? then old(device)[r := BitsWritten(old(device)[r], output, field.mask, field.offset)]
                        else old(device)
      ensures accelerometerScale == old(accelerometerScale) && gyroscopeScale == old(gyroscopeScale)
    {
      res := WriteBits(r, output, field.mask, field.offset, readFails, writeFails);
    }

    /** `set_low_power_mode`: the performance-mode bits of CTRL6_C and
        CTRL7_G, the second write skipped if the first fails. */
    method SetLowPowerMode(lowPower: bool, accelBit: bv8, gyroBit: bv8, fails: seq<bool>)
      returns (res: Result<(), ImuError>)
      requires Valid() && accelBit < 8 && gyroBit < 8 && |fails| == 4
      modifies this
      ensures Valid()
      ensures res.Ok? <==> !fails[0] && !fails[1] && !fails[2] && !fails[3]
      ensures var v: bv8 := if lowPower then 1 else 0;
              var first := old(device)[Ctrl6C := BitsWritten(old(device)[Ctrl6C], v, 1, accelBit)];
              device == if fails[0] || fails[1] then old(device)
                        else if fails[2] || fails[3] then first
                        else first[Ctrl7G := BitsWritten(first[Ctrl7G], v, 1, gyroBit)]
      ensures accelerometerScale == old(accelerometerScale) && gyroscopeScale == old(gyroscopeScale)
    {
      var v: bv8 := if lowPower then 1 else 0;
      var r := WriteBit(Ctrl6C, v, accelBit, fails[0], fails[1]);
      if r.Err? {
        return r;
      }
      res := WriteBit(Ctrl7G, v, gyroBit, fails[2], fails[3]);
    }

    /** `read_accelerometer_scale`: a cached value is returned with no bus
        access; otherwise the register is read and decoded by `tryFrom`, and
        a decoded value fills the cache. */
    method ReadAccelerometerScale(tryFrom: bv8 -> Option<bv8>, busFails: bool) returns (res: Result<bv8, ImuError>)
      requires Valid()
      modifies this
      ensures Valid() && device == old(device) && gyroscopeScale == old(gyroscopeScale)
      ensures old(accelerometerScale).Some? ==> res == Ok(old(accelerometerScale).value)
                                                && accelerometerScale == old(accelerometerScale)
      ensures old(accelerometerScale).None? ==>
                res == (if busFails then Err(CommunicationError)
                        else if tryFrom(device[Ctrl1XL]).None? then Err(RegisterReadFailed)
                        else Ok(tryFrom(device[Ctrl1XL]).value))
                && accelerometerScale == (if res.Ok? then Some(res.value) else None)
      ensures res == CachedScale(old(accelerometerScale), tryFrom, device[Ctrl1XL], busFails)
    {
      match accelerometerScale {
        case Some(v) =>
          return Ok(v);
        case None =>
          var raw := ReadRegister(Ctrl1XL, busFails);
          if raw.Err? {
            return Err(raw.error);
          }
          var scale := tryFrom(raw.value);
          if scale.None? {
            return Err(RegisterReadFailed);
          }
          accelerometerScale := Some(scale.value);
          return Ok(scale.value);
      }
    }

    /** `read_gyroscope_scale`, the same for CTRL2_G and the gyroscope cache. */
    method ReadGyroscopeScale(tryFrom: bv8 -> Option<bv8>, busFails: bool) returns (res: Result<bv8, ImuError>)
      requires Valid()
      modifies this
      ensures Valid() && device == old(device) && accelerometerScale == old(accelerometerScale)
      ensures old(gyroscopeScale).Some? ==> res == Ok(old(gyroscopeScale).value)
                                            && gyroscopeScale == old(gyroscopeScale)
      ensures old(gyroscopeScale).None? ==>
                res == (if busFails then Err(CommunicationError)
                        else if tryFrom(device[Ctrl2G]).None? then Err(RegisterReadFailed)
                        else Ok(tryFrom(device[Ctrl2G]).value))
                && gyroscopeScale == (if res.Ok? then Some(res.value) else None)
      ensures res == CachedScale(old(gyroscopeScale), tryFrom, device[Ctrl2G], busFails)
    {
      match gyroscopeScale {
        case Some(v) =>
          return Ok(v);
        case None =>
          var raw := ReadRegister(Ctrl2G, busFails);
          if raw.Err? {
            return Err(raw.error);
          }
          var scale := tryFrom(raw.value);
          if scale.None? {
            return Err(RegisterReadFailed);
          }
          gyroscopeScale := Some(scale.value);
          return Ok(scale.value);
      }
    }

    /** `read_all` without the float conversion: the gyroscope scale, then the
        accelerometer scale, then fourteen bytes from OUT_TEMP_L (`None` when
        that transfer fails); the first error is returned. */
    method ReadAll(tryFromAccel: bv8 -> Option<bv8>, tryFromGyro: bv8 -> Option<bv8>,
                   gyroFails: bool, accelFails: bool, data: Option<seq<bv8>>)
      returns (res: Result<RawSample, ImuError>)
      requires Valid() && (data.Some? ==> |data.value| == 14)
      modifies this
      ensures Valid() && device == old(device)
      ensures var g := CachedScale(old(gyroscopeScale), tryFromGyro, device[Ctrl2G], gyroFails);
              var a := CachedScale(old(accelerometerScale), tryFromAccel, device[Ctrl1XL], accelFails);
              res == (if g.Err? then Err(g.error)
                      else if a.Err? then Err(a.error)
                      else if data.None? then Err(CommunicationError)
                      else Ok(SplitAll(data.value)))
      ensures var g := CachedScale(old(gyroscopeScale), tryFromGyro, device[Ctrl2G], gyroFails);
              var a := CachedScale(old(accelerometerScale), tryFromAccel, device[Ctrl1XL], accelFails);
              gyroscopeScale == (if g.Ok? then Some(g.value) else old(gyroscopeScale))
              && accelerometerScale == (if g.Ok? && a.Ok? then Some(a.value) else old(accelerometerScale))
    {
      var g := ReadGyroscopeScale(tryFromGyro, gyroFails);
      if g.Err? {
        return Err(g.error);
      }
      var a := ReadAccelerometerScale(tryFromAccel, accelFails);
      if a.Err? {
        return Err(a.error);
      }
      if data.None? {
        return Err(CommunicationError);
      }
      return Ok(SplitAll(data.value));
    }
  }

  /** `Lsm6dso::new`: detect the chip, then enable register auto-increment
      (the CTRL3_C bit at `autoIncrementBit`). A bus error propagates, a
      wrong WHO_AM_I is `ChipDetectFailed`. */
  method New(addr: bv8, device: map<Register, bv8>, autoIncrementBit: bv8, checkFails: bool, readFails: bool, writeFails: bool)
    returns (res: Result<Imu, ImuError>)
    requires (forall r: Register :: r in device) && autoIncrementBit < 8
    ensures res.Ok? <==> !checkFails && device[WhoAmI] == CHIP_ID && !readFails && !writeFails
    ensures res.Err? ==> res.error == (if !checkFails && device[WhoAmI] != CHIP_ID then ChipDetectFailed
                                       else CommunicationError)
    ensures res.Ok? ==> fresh(res.value) && res.value.Valid() && res.value.addr == addr
                        && res.value.device == device[Ctrl3C := BitsWritten(device[Ctrl3C], 1, 1, autoIncrementBit)]
                        && res.value.accelerometerScale == None && res.value.gyroscopeScale == None
  {
    var lsm := new Imu(addr, device);
    var found := lsm.Check(checkFails);
    match found {
      case Err(e) =>
        return Err(e);
      case Ok(true) =>
        var r := lsm.WriteBit(Ctrl3C, 1, autoIncrementBit, readFails, writeFails);
        if r.Err? {
          return Err(r.error);
        }
        return Ok(lsm);
      case Ok(false) =>
        return Err(ChipDetectFailed);
    }
  }
}
