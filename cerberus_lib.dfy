// The shared vocabulary of the Cerberus controller: functional and drive
// ("Nero") modes, state-transition requests, fault codes with their fixed
// severity table, and the commands sent to the power-distribution expander.
module Cerberus {

  datatype FunctionalType = READY | FPit | FPerformance | FEfficiency | REVERSE | FAULTED

  datatype NeroType = OFF | PIT | PERFORMANCE | EFFICIENCY | DEBUG | CONFIGURATION | FlappyBird | EXIT

  datatype StateTransition = Functional(state: FunctionalType) | Nero(mode: NeroType)

  /** Defcon1 is the most severe, Defcon5 means "clear". */
  datatype FaultSeverity = Defcon1 | Defcon2 | Defcon3 | Defcon4 | Defcon5

  datatype FaultCode = FaultsClear | BmsCanMonitorFault

  /** Commands for the control expander task; the variants are those its
      command `match` handles. */
  datatype PduCommand = WritePump(pumpOn: bool) | WriteBrakelight(lightOn: bool) | WriteFault(faultOn: bool) | SoundRtds

  /** The three active drive states. */
  predicate IsActive(s: FunctionalType) {
    s == FPit || s == FPerformance || s == FEfficiency
  }

  /** The severities that fault the car. */
  predicate IsCritical(s: FaultSeverity) {
    s == Defcon1 || s == Defcon2 || s == Defcon3
  }

  /** The enum discriminant, `severity as u8`. */
  function SeverityLevel(s: FaultSeverity): (n: nat)
    ensures 1 <= n <= 5
    ensures IsCritical(s) <==> n <= 3
  {
    match s
    case Defcon1 => 1
    case Defcon2 => 2
    case Defcon3 => 3
    case Defcon4 => 4
    case Defcon5 => 5
  }

  /** The enum discriminant, `code as u32`. */
  function CodeValue(c: FaultCode): (v: nat)
    ensures v < 0x1_0000_0000
  {
    match c
    case FaultsClear => 0x0
    case BmsCanMonitorFault => 0x800
  }

  /** `FaultCode::get_severity`: the fixed, total severity table. Only the
      clear code is Defcon5, and no current code faults the car. */
  function Severity(c: FaultCode): (s: FaultSeverity)
    ensures s == Defcon5 <==> c == FaultsClear
    ensures s == Defcon4 <==> c == BmsCanMonitorFault
    ensures !IsCritical(s)
  {
    match c
    case FaultsClear => Defcon5
    case BmsCanMonitorFault => Defcon4
  }

  /** The clear code has the lowest urgency of all codes. */
  lemma ClearIsLeastUrgent(c: FaultCode)
    ensures SeverityLevel(Severity(c)) <= SeverityLevel(Severity(FaultsClear))
  {
  }

  /** Distinct codes have distinct discriminants. */
  lemma CodeValueInjective(c1: FaultCode, c2: FaultCode)
    requires c1 != c2
    ensures CodeValue(c1) != CodeValue(c2)
  {
  }

  /** Distinct severities have distinct discriminants, all of which fit in a
      byte, so `as u8` loses nothing. */
  lemma SeverityLevelInjective(s1: FaultSeverity, s2: FaultSeverity)
    requires s1 != s2
    ensures SeverityLevel(s1) != SeverityLevel(s2)
    ensures SeverityLevel(s1) < 0x100
  {
  }
}
