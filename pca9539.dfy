// The PCA9539 16-pin I/O expander driver: two banks of eight pins, four
// register types per bank, addressed as `register type + bank`, with
// read-modify-write pin access. The device behind the I2C bus is modelled as
// its eight-register file; whether a bus transfer fails is a parameter.
module Pca9539 {
  import opened Bytes
  import opened Results

  const DEFAULT_ADDRESS: int := 0x74
  const REGISTER_COUNT: nat := 8

  datatype Pin = P00 | P01 | P02 | P03 | P04 | P05 | P06 | P07

  datatype Bank = Bank0 | Bank1

  datatype RegisterType = InputLevel | OutputLevel | PolarityInverted | Direction

  /** The driver's error: the underlying bus failed. */
  datatype BusError = BusError

  /** `pin as u8`. */
  function PinIndex(p: Pin): (n: nat)
    ensures n < 8
  {
    match p
    case P00 => 0 case P01 => 1 case P02 => 2 case P03 => 3
    case P04 => 4 case P05 => 5 case P06 => 6 case P07 => 7
  }

  /** `bank as u8`. */
  function BankOffset(b: Bank): (n: nat)
    ensures n < 2
  {
    match b
    case Bank0 => 0
    case Bank1 => 1
  }

  /** `reg as u8`: the even base address of each register pair. */
  function RegisterBase(r: RegisterType): (n: nat)
    ensures n < 8 && n % 2 == 0
  {
    match r
    case InputLevel => 0
    case OutputLevel => 2
    case PolarityInverted => 4
    case Direction => 6
  }

  /** The address written on the bus by `write_register`/`read_register`. */
  function Address(r: RegisterType, b: Bank): (a: nat)
    ensures a < REGISTER_COUNT
    ensures a % 2 == BankOffset(b) && a - a % 2 == RegisterBase(r)
  {
    RegisterBase(r) + BankOffset(b)
  }

  /** Each register of each bank has its own address. */
  lemma AddressInjective(r1: RegisterType, b1: Bank, r2: RegisterType, b2: Bank)
    ensures Address(r1, b1) == Address(r2, b2) <==> r1 == r2 && b1 == b2
  {
  }

  /** Distinct pins are distinct bit positions. */
  lemma PinIndexInjective(p: Pin, q: Pin)
    ensures PinIndex(p) == PinIndex(q) <==> p == q
  {
  }

  /** The new register value computed by `write_pin`:
      `(old_state & !(1 << pin)) | ((state as u8) << pin)`. */
  function PinWritten(before: bv8, p: Pin, state: bool): (r: bv8)
    ensures r == SetBit(before, PinIndex(p), state)
  {
    var i := PinIndex(p);
    MergedIsSetBit(before, i, state);
    (before & !Mask(i)) | (if state then Mask(i) else 0)
  }

  lemma MergedIsSetBit(b: bv8, i: nat, v: bool)
    requires i < 8
    ensures (b & !Mask(i)) | (if v then Mask(i) else 0) == SetBit(b, i, v)
  {
    MergeIsPut(b, Mask(i), v);
    SetBitIsPut(b, i, v);
  }

  /** The level `read_pin` reports: `data & (1 << pin) > 0`. */
  function PinLevel(data: bv8, p: Pin): (level: bool)
    ensures level <==> Bit(data, PinIndex(p))
  {
    data & Mask(PinIndex(p)) > 0
  }

  /** Reading a pin back after writing it gives the written level. */
  lemma ReadAfterWrite(data: bv8, p: Pin, state: bool)
    ensures PinLevel(PinWritten(data, p, state), p) == state
  {
  }

  /** Writing a pin leaves every other pin's level as it was. */
  lemma WriteLeavesOtherPins(data: bv8, p: Pin, q: Pin, state: bool)
    requires p != q
    ensures PinLevel(PinWritten(data, p, state), q) == PinLevel(data, q)
  {
    PinIndexInjective(p, q);
  }

  /** Writing the same level twice is the same as writing it once. */
  lemma {:induction false} WritePinIdempotent(data: bv8, p: Pin, state: bool)
    ensures PinWritten(PinWritten(data, p, state), p, state) == PinWritten(data, p, state)
  {
    var i := PinIndex(p);
    SetBitIsPut(data, i, state);
    SetBitIsPut(PinWritten(data, p, state), i, state);
    PutTwice(data, Mask(i), state);
  }

  /** The driver bound to one expander: its bus address and the device's
      register file. */
  class Expander {
    const address: int
    const regs: array<bv8>

    ghost predicate Valid()
      reads this
    {
      regs.Length == REGISTER_COUNT
    }

    /** `Pca9539::new`: always succeeds and keeps the address. */
    constructor (address: int, device: seq<bv8>)
      requires |device| == REGISTER_COUNT
      ensures Valid() && fresh(regs)
      ensures this.address == address && regs[..] == device
    {
      this.address := address;
      regs := new bv8[REGISTER_COUNT](i requires 0 <= i < REGISTER_COUNT => device[i]);
    }

    /** `Pca9539::new_default`: the default address 0x74. */
    constructor Default(device: seq<bv8>)
      requires |device| == REGISTER_COUNT
      ensures Valid() && fresh(regs)
      ensures address == DEFAULT_ADDRESS && regs[..] == device
    {
      address := DEFAULT_ADDRESS;
      regs := new bv8[REGISTER_COUNT](i requires 0 <= i < REGISTER_COUNT => device[i]);
    }

    /** `read_register`: one register read, or the bus error. */
    method ReadRegister(r: RegisterType, b: Bank, busFails: bool) returns (res: Result<bv8, BusError>)
      requires Valid()
      ensures res == if busFails then Err(BusError) else Ok(regs[Address(r, b)])
    {
      if busFails {
        return Err(BusError);
      }
      return Ok(regs[Address(r, b)]);
    }

    /** `write_register`: one register write; a failed transfer changes
        nothing on the device. */
    method WriteRegister(r: RegisterType, b: Bank, data: bv8, busFails: bool) returns (res: Result<(), BusError>)
      requires Valid()
      modifies regs
      ensures res.Ok? <==> !busFails
      ensures regs[..] == if busFails then old(regs[..]) else old(regs[..])[Address(r, b) := data]
    {
      if busFails {
        return Err(BusError);
      }
      regs[Address(r, b)] := data;
      return Ok(());
    }

    /** `write_pin`: read the register, change one bit, write it back. A
        failed read performs no write. */
    method WritePin(r: RegisterType, b: Bank, p: Pin, state: bool, readFails: bool, writeFails: bool)
      returns (res: Result<(), BusError>)
      requires Valid()
      modifies regs
      ensures res.Ok? <==> !readFails && !writeFails
      ensures regs[..] == if res.Ok? then old(regs[..])[Address(r, b) := PinWritten(old(regs[Address(r, b)]), p, state)]
                          else old(regs[..])
    {
      var oldState := ReadRegister(r, b, readFails);
      if oldState.Err? {
        return Err(oldState.error);
      }
      var newState := PinWritten(oldState.value, p, state);
      res := WriteRegister(r, b, newState, writeFails);
    }

    /** `read_pin`: the level of one pin, or the bus error. */
    method ReadPin(r: RegisterType, b: Bank, p: Pin, busFails: bool) returns (res: Result<bool, BusError>)
      requires Valid()
      ensures res.Ok? <==> !busFails
      ensures res.Ok? ==> (res.value <==> Bit(regs[Address(r, b)], PinIndex(p)))
    {
      var data := ReadRegister(r, b, busFails);
      if data.Err? {
        return Err(data.error);
      }
      return Ok(PinLevel(data.value, p));
    }
  }
}
