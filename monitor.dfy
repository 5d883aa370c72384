// The control-expander task (`ctrl_expander_handler`): it owns the PCA9539 at
// address 0x76, debounces the tractive-system master switch (TSMS) input,
// times the ready-to-drive sound (RTDS), packs the fuse inputs into a bus
// frame and drives the power-distribution outputs on command.
module Monitor {
  import opened Bytes
  import opened Can
  import opened Cerberus
  import opened Pca9539
  import opened Results

  const CTRL_EXPANDER_I2C_ADDR: int := 0x76
  /** How long the ready-to-drive sound lasts, in milliseconds. */
  const RTDS_SOUND_TIME: int := 1750
  const FUSE_MSG_ID: int := 0x111
  /** Equal readings needed, beyond the first, before the TSMS is published. */
  const DEBOUNCE_LIMIT: int := 5

  // ---- TSMS debounce -----------------------------------------------------

  /** `tsms_prev_state` and `tsms_state_count`. */
  datatype Debounce = Debounce(prev: bool, count: int)

  datatype DebounceStep = DebounceStep(next: Debounce, published: Option<bool>)

  /** One TSMS tick with the pin reading `reading`. The count is not reset
      when the reading changes; the previous reading always becomes
      `reading`. */
  function DebounceTick(d: Debounce, reading: bool): (r: DebounceStep)
    ensures r.next.prev == reading
    ensures r.published.Some? <==> reading == d.prev && d.count > DEBOUNCE_LIMIT
    ensures r.published.Some? ==> r.published.value == reading && r.next.count == 1
    ensures r.published.None? && reading == d.prev ==> r.next.count == d.count + 1
    ensures reading != d.prev ==> r.next.count == d.count
  {
    if reading == d.prev then
      if d.count > DEBOUNCE_LIMIT then DebounceStep(Debounce(reading, 1), Some(reading))
      else DebounceStep(Debounce(reading, d.count + 1), None)
    else DebounceStep(Debounce(reading, d.count), None)
  }

  /** The count always fits in 0..6, so the `u8` increment never overflows. */
  predicate CountInRange(d: Debounce) {
    0 <= d.count <= DEBOUNCE_LIMIT + 1
  }

  lemma DebounceKeepsRange(d: Debounce, reading: bool)
    requires CountInRange(d)
    ensures CountInRange(DebounceTick(d, reading).next)
    ensures DebounceTick(d, reading).next.count < 0x100
  {
  }

  /** The values published over a run of readings, and the final state. */
  function DebounceRun(d: Debounce, readings: seq<bool>): (r: (Debounce, seq<bool>))
    ensures |r.1| <= |readings|
    ensures forall k :: 0 <= k < |r.1| ==> r.1[k] in readings
    decreases |readings|
  {
    if readings == [] then (d, [])
    else
      var step := DebounceTick(d, readings[0]);
      var rest := DebounceRun(step.next, readings[1..]);
      var published := if step.published.Some? then [step.published.value] else [];
      assert forall k :: 0 <= k < |rest.1| ==> rest.1[k] in readings by {
        forall k | 0 <= k < |rest.1| ensures rest.1[k] in readings {
          assert rest.1[k] in readings[1..];
        }
      }
      (rest.0, published + rest.1)
  }

  /** A reading held for eight ticks is published, from any reachable state. */
  lemma {:induction false} SteadyReadingPublished(d: Debounce, x: bool, n: nat)
    requires CountInRange(d)
    requires n >= 8 - (if d.prev == x then 1 else 0) - d.count
    ensures x in DebounceRun(d, seq(n, _ => x)).1
    decreases n
  {
    var readings := seq(n, _ => x);
    assert readings[0] == x;
    assert readings[1..] == seq(n - 1, _ => x);
    var step := DebounceTick(d, x);
    if step.published.None? {
      SteadyReadingPublished(step.next, x, n - 1);
    }
  }

  // ---- Fuse frame ------------------------------------------------------

  /** `send_data_1` before reversal: bank0 bits 4..7 into bits 0..3 and bank1
      bits 0..3 into bits 4..7, set one by one on a zero byte. */
  function FuseLowRaw(data0: bv8, data1: bv8): (b: bv8)
    ensures Bit(b, 0) == Bit(data0, 4) && Bit(b, 1) == Bit(data0, 5)
         && Bit(b, 2) == Bit(data0, 6) && Bit(b, 3) == Bit(data0, 7)
    ensures Bit(b, 4) == Bit(data1, 0) && Bit(b, 5) == Bit(data1, 1)
         && Bit(b, 6) == Bit(data1, 2) && Bit(b, 7) == Bit(data1, 3)
  {
    var s1 := SetBit(0, 0, Bit(data0, 4));
    var s2 := SetBit(s1, 1, Bit(data0, 5));
    var s3 := SetBit(s2, 2, Bit(data0, 6));
    var s4 := SetBit(s3, 3, Bit(data0, 7));
    var s5 := SetBit(s4, 4, Bit(data1, 0));
    var s6 := SetBit(s5, 5, Bit(data1, 1));
    var s7 := SetBit(s6, 6, Bit(data1, 2));
    SetBit(s7, 7, Bit(data1, 3))
  }

  /** `send_data_2` before reversal: bank1 bit 4 into bit 0 of a zero byte. */
  function FuseHighRaw(data1: bv8): (b: bv8)
    ensures Bit(b, 0) == Bit(data1, 4)
    ensures forall i :: 1 <= i < 8 ==> !Bit(b, i)
  {
    ZeroHasNoBits();
    SetBit(0, 0, Bit(data1, 4))
  }

  lemma ZeroHasNoBits()
    ensures forall i :: 0 <= i < 8 ==> !Bit(0, i)
  {
  }

  /** The two payload bytes: both raw bytes reversed. */
  function FuseBytes(data0: bv8, data1: bv8): (b: (bv8, bv8))
  {
    (ReverseBits(FuseLowRaw(data0, data1)), ReverseBits(FuseHighRaw(data1)))
  }

  /** Each fuse input lands at the mirrored position of its packed bit: bank0
      bits 4..7 at bits 7..4 of byte 0, bank1 bits 0..3 at bits 3..0 of
      byte 0, bank1 bit 4 at bit 7 of byte 1 and nothing else in byte 1. */
  lemma {:induction false} FuseLayout(data0: bv8, data1: bv8)
    ensures var b := FuseBytes(data0, data1).0;
      Bit(b, 7) == Bit(data0, 4) && Bit(b, 6) == Bit(data0, 5)
      && Bit(b, 5) == Bit(data0, 6) && Bit(b, 4) == Bit(data0, 7)
    ensures var b := FuseBytes(data0, data1).0;
      Bit(b, 3) == Bit(data1, 0) && Bit(b, 2) == Bit(data1, 1)
      && Bit(b, 1) == Bit(data1, 2) && Bit(b, 0) == Bit(data1, 3)
    ensures Bit(FuseBytes(data0, data1).1, 7) == Bit(data1, 4)
    ensures forall i :: 0 <= i < 7 ==> !Bit(FuseBytes(data0, data1).1, i)
  {
    var raw := FuseLowRaw(data0, data1);
    var high := FuseHighRaw(data1);
    forall i | 0 <= i < 7 ensures !Bit(FuseBytes(data0, data1).1, i) {
      assert !Bit(high, 7 - i);
    }
  }

  /** The second byte is 0x80 or 0, following bank1 bit 4. */
  lemma FuseHighValue(data0: bv8, data1: bv8)
    ensures FuseBytes(data0, data1).1 == if Bit(data1, 4) then 0x80 else 0
  {
    SetBitValue(0, 0, Bit(data1, 4));
  }

  /** The frame sent on a fuse tick: id 0x111 and the two bytes. */
  function FuseFrame(data0: bv8, data1: bv8): (f: Frame)
    ensures ValidFrame(f) && f.id == Standard(FUSE_MSG_ID) && |f.data| == 2
  {
    var b := FuseBytes(data0, data1);
    Frame(Standard(FUSE_MSG_ID), [b.0 as int as byte, b.1 as int as byte])
  }

  // ---- Commands ----------------------------------------------------------

  /** The pin write a command asks for: register, bank, pin and level. */
  datatype PinWrite = PinWrite(reg: RegisterType, bank: Bank, pin: Pin, level: bool)

  /** The command `match`: the three output commands each write their level
      to one bank-0 output pin; `SoundRtds` writes no pin. */
  function CommandWrite(cmd: PduCommand): (w: Option<PinWrite>)
    ensures w.None? <==> cmd == SoundRtds
    ensures w.Some? ==> w.value.reg == OutputLevel && w.value.bank == Bank0
    ensures cmd.WritePump? ==> w == Some(PinWrite(OutputLevel, Bank0, P00, cmd.pumpOn))
    ensures cmd.WriteFault? ==> w == Some(PinWrite(OutputLevel, Bank0, P01, cmd.faultOn))
    ensures cmd.WriteBrakelight? ==> w == Some(PinWrite(OutputLevel, Bank0, P02, cmd.lightOn))
  {
    match cmd
    case WritePump(on) => Some(PinWrite(OutputLevel, Bank0, P00, on))
    case WriteBrakelight(on) => Some(PinWrite(OutputLevel, Bank0, P02, on))
    case WriteFault(on) => Some(PinWrite(OutputLevel, Bank0, P01, on))
    case SoundRtds => None
  }

  /** The three output commands drive three different pins. */
  lemma CommandPinsDistinct(c1: PduCommand, c2: PduCommand)
    requires c1 != SoundRtds && c2 != SoundRtds
    ensures CommandWrite(c1).value.pin == CommandWrite(c2).value.pin <==>
            (c1.WritePump? && c2.WritePump?) || (c1.WriteFault? && c2.WriteFault?)
            || (c1.WriteBrakelight? && c2.WriteBrakelight?)
  {
  }

  /** The register file after the four setup writes. */
  function SetupRegisters(device: seq<bv8>): (regs: seq<bv8>)
    requires |device| == REGISTER_COUNT
    ensures |regs| == REGISTER_COUNT
  {
    device[Address(OutputLevel, Bank0) := 0x02][Address(OutputLevel, Bank1) := 0x02]
          [Address(Direction, Bank0) := 0xF0][Address(Direction, Bank1) := 0x7F]
  }

  /** After setup the three command pins and the RTDS pin are outputs (a
      direction bit of 0), and the RTDS pin is low. */
  lemma SetupConfiguresOutputs(device: seq<bv8>)
    requires |device| == REGISTER_COUNT
    ensures forall c :: c != SoundRtds ==>
              !Bit(SetupRegisters(device)[Address(Direction, Bank0)], PinIndex(CommandWrite(c).value.pin))
    ensures !Bit(SetupRegisters(device)[Address(Direction, Bank1)], PinIndex(P07))
    ensures !Bit(SetupRegisters(device)[Address(OutputLevel, Bank1)], PinIndex(P07))
    ensures Bit(SetupRegisters(device)[Address(Direction, Bank1)], PinIndex(P06))
  {
    var regs := SetupRegisters(device);
    assert regs[Address(Direction, Bank0)] == 0xF0;
    assert regs[Address(Direction, Bank1)] == 0x7F;
    assert regs[Address(OutputLevel, Bank1)] == 0x02;
  }

  /** The RTDS output level: bank 1 output bit 7. */
  predicate RtdsHigh(regs: seq<bv8>)
    requires |regs| == REGISTER_COUNT
  {
    Bit(regs[Address(OutputLevel, Bank1)], PinIndex(P07))
  }

  /** No command can raise the RTDS output: commands write bank 0 only. */
  lemma CommandNeverRaisesRtds(regs: seq<bv8>, cmd: PduCommand)
    requires |regs| == REGISTER_COUNT && cmd != SoundRtds
    ensures var w := CommandWrite(cmd).value;
            RtdsHigh(regs[Address(w.reg, w.bank) := PinWritten(regs[Address(w.reg, w.bank)], w.pin, w.level)])
              == RtdsHigh(regs)
  {
    var w := CommandWrite(cmd).value;
    AddressInjective(w.reg, w.bank, OutputLevel, Bank1);
  }

  // ---- The task as an object -------------------------------------------

  /** The task's state. The expander bus is taken never to fail (every
      transfer is `unwrap!`ed, and a failure halts the firmware). `tsState`
      is the shared TSMS flag; `canSent` the frames queued for the bus. */
  class ControlExpander {
    const expander: Expander
    var tsmsPrev: bool
    var tsmsCount: int
    var activeSounding: bool
    var rtdsStart: int
    var tsState: bool
    var canSent: seq<Frame>

    ghost predicate Valid()
      reads this, expander
    {
      expander.Valid() && CountInRange(Debounce(tsmsPrev, tsmsCount))
    }

    /** Creates the driver at 0x76 and writes the four setup registers. */
    constructor (device: seq<bv8>, now: int, tsFlag: bool)
      requires |device| == REGISTER_COUNT
      ensures Valid() && fresh(expander) && fresh(expander.regs)
      ensures expander.address == CTRL_EXPANDER_I2C_ADDR
      ensures expander.regs[..] == SetupRegisters(device)
      ensures tsmsPrev == false && tsmsCount == 0 && !activeSounding && rtdsStart == now
      ensures tsState == tsFlag && canSent == []
    {
      var e := new Expander(CTRL_EXPANDER_I2C_ADDR, device);
      var r0 := e.WriteRegister(OutputLevel, Bank0, 0x02, false);
      var r1 := e.WriteRegister(OutputLevel, Bank1, 0x02, false);
      var r2 := e.WriteRegister(Direction, Bank0, 0xF0, false);
      var r3 := e.WriteRegister(Direction, Bank1, 0x7F, false);
      expander := e;
      tsmsPrev := false;
      tsmsCount := 0;
      activeSounding := false;
      rtdsStart := now;
      tsState := tsFlag;
      canSent := [];
    }

    /** The TSMS tick at time `now`: first end the sound if it has run longer
        than 1750 ms, then read bank 1 pin 6 and debounce it. */
    method TsmsTick(now: int)
      requires Valid() && rtdsStart <= now
      modifies this, expander.regs
      ensures Valid()
      ensures var ending := old(activeSounding) && now - old(rtdsStart) > RTDS_SOUND_TIME;
              activeSounding == (old(activeSounding) && !ending)
              && expander.regs[..] == if ending then old(expander.regs[..])[Address(OutputLevel, Bank1) :=
                                                     PinWritten(old(expander.regs[Address(OutputLevel, Bank1)]), P07, false)]
                                      else old(expander.regs[..])
      ensures var step := DebounceTick(Debounce(old(tsmsPrev), old(tsmsCount)),
                                       Bit(old(expander.regs[Address(InputLevel, Bank1)]), PinIndex(P06)));
              Debounce(tsmsPrev, tsmsCount) == step.next
              && tsState == (if step.published.Some? then step.published.value else old(tsState))
      ensures rtdsStart == old(rtdsStart) && canSent == old(canSent)
    {
      if activeSounding && now - rtdsStart > RTDS_SOUND_TIME {
        var w := expander.WritePin(OutputLevel, Bank1, P07, false, false, false);
        activeSounding := false;
      }
      var read := expander.ReadPin(InputLevel, Bank1, P06, false);
      var state := read.value;
      if state == tsmsPrev {
        if tsmsCount > DEBOUNCE_LIMIT {
          tsState := state;
          tsmsCount := 0;
        }
        tsmsCount := tsmsCount + 1;
      }
      tsmsPrev := state;
    }

    /** The fuse tick: read both input banks and queue the fuse frame. */
    method FuseTick()
      requires Valid()
      modifies this
      ensures Valid()
      ensures canSent == old(canSent) + [FuseFrame(expander.regs[Address(InputLevel, Bank0)],
                                                   expander.regs[Address(InputLevel, Bank1)])]
      ensures tsmsPrev == old(tsmsPrev) && tsmsCount == old(tsmsCount) && tsState == old(tsState)
      ensures activeSounding == old(activeSounding) && rtdsStart == old(rtdsStart)
    {
      var d0 := expander.ReadRegister(InputLevel, Bank0, false);
      var d1 := expander.ReadRegister(InputLevel, Bank1, false);
      canSent := canSent + [FuseFrame(d0.value, d1.value)];
    }

    /** A command from the state machine at time `now`. */
    method Command(cmd: PduCommand, now: int)
      requires Valid()
      modifies this, expander.regs
      ensures Valid()
      ensures expander.regs[..] == match CommandWrite(cmd)
                                   case None => old(expander.regs[..])
                                   case Some(w) => old(expander.regs[..])[Address(w.reg, w.bank) :=
                                                     PinWritten(old(expander.regs[Address(w.reg, w.bank)]), w.pin, w.level)]
      ensures activeSounding == (old(activeSounding) || cmd == SoundRtds)
      ensures rtdsStart == if cmd == SoundRtds then now else old(rtdsStart)
      ensures tsmsPrev == old(tsmsPrev) && tsmsCount == old(tsmsCount) && tsState == old(tsState)
      ensures canSent == old(canSent)
    {
      match cmd {
        case WritePump(on) =>
          var r := expander.WritePin(OutputLevel, Bank0, P00, on, false, false);
        case WriteBrakelight(on) =>
          var r := expander.WritePin(OutputLevel, Bank0, P02, on, false, false);
        case WriteFault(on) =>
          var r := expander.WritePin(OutputLevel, Bank0, P01, on, false, false);
        case SoundRtds =>
          activeSounding := true;
          rtdsStart := now;
      }
    }
  }
}
