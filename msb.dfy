// The sensor board's location helper: three strap inputs select where on the
// car the board sits, the location shifts the board's CAN identifiers, and
// two LEDs show the location.
module Msb {
  import opened Can
  import opened Results

  datatype DeviceLocation = FrontLeft | BackLeft | BackRight | FrontRight

  /** `DeviceLocation::from((bool, bool, bool))`: the strap decision tree.
      Its last arm catches (false, true, true), which also reads as
      front-left. */
  function FromStraps(s0: bool, s1: bool, s2: bool): (loc: DeviceLocation)
    ensures loc == FrontLeft <==> (s0 && s1) || (!s0 && s1 && s2)
    ensures loc == FrontRight <==> s0 && !s1
    ensures loc == BackLeft <==> !s0 && !s1 && s2
    ensures loc == BackRight <==> !s0 && !s2
  {
    if s0 && s1 then FrontLeft
    else if s0 && !s1 then FrontRight
    else if !s1 && s2 then BackLeft
    else if !s0 && !s2 then BackRight
    else FrontLeft
  }

  /** Every location has a strap setting that selects it. */
  lemma {:induction false} EveryLocationSelectable(loc: DeviceLocation)
    ensures exists s0: bool, s1: bool, s2: bool :: FromStraps(s0, s1, s2) == loc
  {
    match loc
    case FrontLeft => assert FromStraps(true, true, false) == loc;
    case FrontRight => assert FromStraps(true, false, false) == loc;
    case BackLeft => assert FromStraps(false, false, true) == loc;
    case BackRight => assert FromStraps(false, false, false) == loc;
  }

  /** The identifier offset for each location. */
  function Offset(loc: DeviceLocation): (n: nat)
    ensures n <= 0x60
  {
    match loc
    case FrontLeft => 0
    case BackLeft => 0x40
    case BackRight => 0x60
    case FrontRight => 0x20
  }

  /** Distinct locations have distinct offsets. */
  lemma OffsetInjective(l1: DeviceLocation, l2: DeviceLocation)
    ensures Offset(l1) == Offset(l2) <==> l1 == l2
  {
  }

  /** The standard identifier of the base: a standard id as it is, an
      extended id through `ExtendedId::standard_id`, its top eleven bits. */
  function BaseRaw(base: Id): (raw: int)
    requires ValidId(base)
    ensures 0 <= raw <= MAX_STANDARD_ID
    ensures base.Standard? ==> raw == base.raw
    ensures base.Extended? ==> raw * 0x4_0000 <= base.raw < (raw + 1) * 0x4_0000
  {
    match base
    case Standard(r) => r
    case Extended(r) => r / 0x4_0000
  }

  /** `get_can_id`: the base plus the location's offset, as a standard id.
      The `unwrap` panics (here: `None`) when the sum leaves the 11-bit range. */
  function CanId(loc: DeviceLocation, base: Id): (r: Option<Id>)
    requires ValidId(base)
    ensures r.Some? <==> BaseRaw(base) + Offset(loc) <= MAX_STANDARD_ID
    ensures r.Some? ==> r.value.Standard? && ValidId(r.value)
    ensures r.Some? ==> r.value.raw - Offset(loc) == BaseRaw(base)
  {
    NewStandardId(BaseRaw(base) + Offset(loc))
  }

  /** FrontLeft keeps a standard base identifier as it is. */
  lemma FrontLeftIsBase(base: Id)
    requires ValidId(base) && base.Standard?
    ensures CanId(FrontLeft, base) == Some(base)
  {
  }

  /** For one base, the four locations never share an identifier. */
  lemma {:induction false} CanIdsDistinct(l1: DeviceLocation, l2: DeviceLocation, base: Id)
    requires ValidId(base)
    requires CanId(l1, base).Some? && CanId(l2, base).Some?
    ensures CanId(l1, base) == CanId(l2, base) <==> l1 == l2
  {
    OffsetInjective(l1, l2);
  }

  /** Every location gets an identifier exactly when the base leaves room for
      the largest offset. */
  lemma {:induction false} AllLocationsFit(base: Id)
    requires ValidId(base)
    ensures (forall loc :: CanId(loc, base).Some?) <==> BaseRaw(base) <= MAX_STANDARD_ID - 0x60
  {
    if !(BaseRaw(base) <= MAX_STANDARD_ID - 0x60) {
      assert CanId(BackRight, base).None?;
    }
  }

  // ---- LEDs --------------------------------------------------------------

  datatype Level = Low | High

  /** The levels `control_leds` drives on (led1, led2). */
  function LedPattern(loc: DeviceLocation): (p: (Level, Level))
    ensures p.0 == High <==> loc == FrontLeft || loc == FrontRight
    ensures p.1 == High <==> loc == FrontLeft || loc == BackLeft
  {
    match loc
    case FrontLeft => (High, High)
    case BackLeft => (Low, High)
    case BackRight => (Low, Low)
    case FrontRight => (High, Low)
  }

  /** Reading the location back off the two LEDs. */
  function LocationOfPattern(p: (Level, Level)): (loc: DeviceLocation)
  {
    match p
    case (High, High) => FrontLeft
    case (Low, High) => BackLeft
    case (Low, Low) => BackRight
    case (High, Low) => FrontRight
  }

  /** The pattern identifies the board: it decodes to the location shown,
      and every pattern is some location's. */
  lemma PatternRoundTrip(loc: DeviceLocation, p: (Level, Level))
    ensures LocationOfPattern(LedPattern(loc)) == loc
    ensures LedPattern(LocationOfPattern(p)) == p
  {
  }

  /** Distinct locations light distinct patterns. */
  lemma {:induction false} PatternInjective(l1: DeviceLocation, l2: DeviceLocation)
    ensures LedPattern(l1) == LedPattern(l2) <==> l1 == l2
  {
    PatternRoundTrip(l1, LedPattern(l2));
    PatternRoundTrip(l2, LedPattern(l1));
  }

  /** The two LED outputs of `control_leds`. */
  class Leds {
    const location: DeviceLocation
    var led1: Level
    var led2: Level

    constructor (location: DeviceLocation, led1: Level, led2: Level)
      ensures this.location == location && this.led1 == led1 && this.led2 == led2
    {
      this.location := location;
      this.led1 := led1;
      this.led2 := led2;
    }

    /** One pass of the loop after its two-second wait: drive both outputs. */
    method Show()
      modifies this
      ensures (led1, led2) == LedPattern(location)
    {
      match location {
        case FrontLeft =>
          led1 := High;
          led2 := High;
        case BackLeft =>
          led1 := Low;
          led2 := High;
        case BackRight =>
          led1 := Low;
          led2 := Low;
        case FrontRight =>
          led1 := High;
          led2 := Low;
      }
    }
  }
}
