// The fault manager task (`fault_handler`): it latches the most recent fault
// code, tells the state machine to fault or un-fault the car, and after every
// event sends a status frame carrying the latched code and its severity.
module Fault {
  import opened Bytes
  import opened Can
  import opened Cerberus
  import opened Results

  const STATUS_MSG_ID: int := 0x502
  /** The unfault countdown, in milliseconds. */
  const UNFAULT_TIME: int := 5000
  /** The status-frame period, in milliseconds. */
  const SEND_STATUS_MSG_TIME: int := 200
  const STATUS_LEN: nat := 5

  /** The three branches of the loop's `select3`. */
  datatype FaultEvent = NewFault(code: FaultCode) | StatusTick | UnfaultTick

  /** The effect of one event: the new latch, the transition signalled to the
      state machine (if any) and whether the unfault countdown restarts. */
  datatype Reaction = Reaction(latch: FaultCode, signal: Option<StateTransition>, restartCountdown: bool)

  function React(latch: FaultCode, e: FaultEvent): (r: Reaction)
    ensures e.NewFault? ==> r.latch == e.code
    ensures e.NewFault? ==> (r.signal.Some? <==> IsCritical(Severity(e.code)))
    ensures e.NewFault? && r.signal.Some? ==> r.signal.value == Functional(FAULTED)
    ensures r.restartCountdown <==> e.NewFault? && IsCritical(Severity(e.code))
    ensures e.StatusTick? ==> r.latch == latch && r.signal == None
    ensures e.UnfaultTick? ==> r.latch == FaultsClear && r.signal == Some(Functional(READY))
  {
    match e
    case NewFault(code) =>
      if IsCritical(Severity(code)) then Reaction(code, Some(Functional(FAULTED)), true)
      else Reaction(code, None, false)
    case StatusTick => Reaction(latch, None, false)
    case UnfaultTick => Reaction(FaultsClear, Some(Functional(READY)), false)
  }

  /** With the current code table no fault event faults the car or touches
      the countdown; the latch still takes the new code. */
  lemma NoFaultEventFaultsTheCar(latch: FaultCode, code: FaultCode)
    ensures React(latch, NewFault(code)) == Reaction(code, None, false)
  {
  }

  /** The unfault branch signals READY and clears the latch whatever the
      latch held, even when it was already clear. */
  lemma UnfaultAlwaysSignalsReady(latch: FaultCode)
    ensures React(latch, UnfaultTick) == Reaction(FaultsClear, Some(Functional(READY)), false)
  {
  }

  // ---- The status frame ------------------------------------------------

  /** The status buffer update as the source writes it: the severity byte into
      `[3..4]`, then the four bytes of `code as u32` into the three-byte
      window `[0..3]`. */
  function StatusBytesAsWritten(bits: seq<byte>, latch: FaultCode): (r: CopyResult)
    requires |bits| == STATUS_LEN
  {
    match CopyFromSlice(bits, 3, 4, [SeverityLevel(Severity(latch)) as byte])
    case LengthMismatch(d, s) => LengthMismatch(d, s)
    case Copied(withSeverity) => CopyFromSlice(withSeverity, 0, 3, BeBytes32(CodeValue(latch)))
  }

  /** As written, the second copy always panics: four bytes do not fit in a
      three-byte slice, so no status frame is ever sent. */
  lemma StatusBytesAsWrittenPanics(bits: seq<byte>, latch: FaultCode)
    requires |bits| == STATUS_LEN
    ensures StatusBytesAsWritten(bits, latch) == LengthMismatch(3, 4)
  {
  }

  /** The buffer update with a layout that fits: the low three bytes of the
      big-endian code in `[0..3]`, the severity in `[3]`, byte 4 untouched. */
  function StatusBytes(bits: seq<byte>, latch: FaultCode): (r: seq<byte>)
    requires |bits| == STATUS_LEN
    ensures |r| == STATUS_LEN
    ensures r[3] as int == SeverityLevel(Severity(latch))
    ensures r[4] == bits[4]
    ensures BeU32([0 as byte] + r[..3]) == CodeValue(latch)
  {
    var code := BeBytes32(CodeValue(latch));
    BeU32OfBeBytes32(CodeValue(latch));
    assert code[0] == 0;
    assert code == [0 as byte] + code[1..];
    var withSeverity := bits[..3] + [SeverityLevel(Severity(latch)) as byte] + bits[4..];
    code[1..] + withSeverity[3..]
  }

  /** The code field of a status payload. */
  function PayloadCode(p: seq<byte>): (c: Option<FaultCode>)
    requires |p| == STATUS_LEN
  {
    var v := BeU32([0 as byte] + p[..3]);
    if v == CodeValue(FaultsClear) then Some(FaultsClear)
    else if v == CodeValue(BmsCanMonitorFault) then Some(BmsCanMonitorFault)
    else None
  }

  /** A receiver reading the corrected payload recovers the latched code and
      its severity. */
  lemma StatusBytesRoundTrip(bits: seq<byte>, latch: FaultCode)
    requires |bits| == STATUS_LEN
    ensures PayloadCode(StatusBytes(bits, latch)) == Some(latch)
    ensures StatusBytes(bits, latch)[3] as int == SeverityLevel(Severity(PayloadCode(StatusBytes(bits, latch)).value))
  {
  }

  function StatusFrame(payload: seq<byte>): Frame {
    Frame(Standard(STATUS_MSG_ID), payload)
  }

  // ---- The task as an object ---------------------------------------------

  /** The state of `fault_handler`: the latch, the five-byte status buffer it
      rewrites in place, the unfault ticker's next deadline (ms), the state
      machine's signal slot as this task last wrote it, and the frames queued
      on the CAN channel. */
  class FaultManager {
    var lastFault: FaultCode
    const faultBits: array<byte>
    var unfaultDeadline: int
    var statusDeadline: int
    var stateSignal: Option<StateTransition>
    var canSent: seq<Frame>

    ghost predicate Valid()
      reads this, faultBits
    {
      faultBits.Length == STATUS_LEN && faultBits[4] == 0
    }

    /** The task starts with a clear latch, a zero buffer, and both tickers
        starting at `now`. */
    constructor (now: int)
      ensures Valid() && fresh(faultBits)
      ensures lastFault == FaultsClear && faultBits[..] == [0, 0, 0, 0, 0]
      ensures unfaultDeadline == now + UNFAULT_TIME && statusDeadline == now + SEND_STATUS_MSG_TIME
      ensures stateSignal == None && canSent == []
    {
      lastFault := FaultsClear;
      faultBits := new byte[STATUS_LEN](_ => 0);
      unfaultDeadline := now + UNFAULT_TIME;
      statusDeadline := now + SEND_STATUS_MSG_TIME;
      stateSignal := None;
      canSent := [];
    }

    /** One pass of the loop at time `now`. A ticker fires only once its
        deadline has passed, and then moves it one period on; `reset()` moves
        the unfault deadline to `now` plus one period. */
    method Handle(e: FaultEvent, now: int)
      requires Valid()
      requires e.UnfaultTick? ==> unfaultDeadline <= now
      requires e.StatusTick? ==> statusDeadline <= now
      modifies this, faultBits
      ensures Valid()
      ensures lastFault == React(old(lastFault), e).latch
      ensures stateSignal == if React(old(lastFault), e).signal.Some? then React(old(lastFault), e).signal
                             else old(stateSignal)
      ensures unfaultDeadline == if React(old(lastFault), e).restartCountdown then now + UNFAULT_TIME
                                 else if e.UnfaultTick? then old(unfaultDeadline) + UNFAULT_TIME
                                 else old(unfaultDeadline)
      ensures statusDeadline == if e.StatusTick? then old(statusDeadline) + SEND_STATUS_MSG_TIME
                                else old(statusDeadline)
      ensures faultBits[..] == StatusBytes(old(faultBits[..]), lastFault)
      ensures canSent == old(canSent) + [StatusFrame(faultBits[..])]
      ensures ValidFrame(StatusFrame(faultBits[..]))
    {
      // The severity dispatch of the first branch lives in React; with the
      // current code table its critical arm is never taken.
      var r := React(lastFault, e);
      if r.signal.Some? {
        stateSignal := r.signal;
      }
      unfaultDeadline := if r.restartCountdown then now + UNFAULT_TIME
                         else if e.UnfaultTick? then unfaultDeadline + UNFAULT_TIME
                         else unfaultDeadline;
      if e.StatusTick? {
        statusDeadline := statusDeadline + SEND_STATUS_MSG_TIME;
      }
      lastFault := r.latch;
      var status := StatusBytes(faultBits[..], lastFault);
      faultBits[0] := status[0];
      faultBits[1] := status[1];
      faultBits[2] := status[2];
      faultBits[3] := status[3];
      assert faultBits[..] == status;
      canSent := canSent + [StatusFrame(faultBits[..])];
    }
  }
}
