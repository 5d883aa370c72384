// The vehicle state machine task (`state_handler`): the only writer of the
// functional state. Each request taken from its signal slot is checked
// against the interlocks (speed, brake, tractive-system master switch) and,
// when accepted, emits power-distribution commands in a fixed order.
module StateMachine {
  import opened Cerberus
  import opened Results

  /** Above this speed the car counts as moving. */
  const MAX_STOPPED_SPEED: int := 1

  datatype Rejection = MovingToReady | MovingToActive | NoBrakeOrTs | ReverseOutsidePit

  /** What one request leads to: the new state, the commands in the order they
      are sent and what is signalled back into the request slot; or a rejection
      (the loop `continue`s); or a `todo!()` branch, which panics. */
  datatype Outcome =
    | Accepted(next: FunctionalType, commands: seq<PduCommand>, repost: Option<StateTransition>)
    | Rejected(reason: Rejection)
    | Unimplemented(mode: NeroType)

  /** The guard for entering an active mode from anything but REVERSE. */
  predicate Interlock(speed: int, brake: bool, tsms: bool) {
    speed <= MAX_STOPPED_SPEED && brake && tsms
  }

  /** The states in which the car may drive. */
  predicate IsDrive(s: FunctionalType) {
    IsActive(s) || s == REVERSE
  }

  /** The decision `state_handler` takes for one request, given the previous
      functional state and the sampled speed, brake and TSMS registers. */
  function Decide(prev: FunctionalType, req: StateTransition, speed: int, brake: bool, tsms: bool): (r: Outcome)
    ensures r.Unimplemented? <==> req.Nero?
    ensures r.Accepted? ==> req == Functional(r.next)
    ensures r.Accepted? && r.next == READY ==> speed <= MAX_STOPPED_SPEED
    ensures r.Accepted? && IsActive(r.next) ==> prev == REVERSE || Interlock(speed, brake, tsms)
    ensures r.Accepted? && r.next == REVERSE ==> prev == FPit
    ensures r.Accepted? && SoundRtds in r.commands ==> IsActive(r.next) && Interlock(speed, brake, tsms)
    ensures r.Accepted? && r.repost.Some? ==> r.next == FAULTED
  {
    match req
    case Nero(m) => Unimplemented(m)
    case Functional(target) =>
      match target
      case READY =>
        if speed > MAX_STOPPED_SPEED then Rejected(MovingToReady)
        else Accepted(READY, [WritePump(false), WriteFault(true)], None)
      case FPit | FPerformance | FEfficiency =>
        if prev != REVERSE && speed > MAX_STOPPED_SPEED then Rejected(MovingToActive)
        else if prev != REVERSE && !(brake && tsms) then Rejected(NoBrakeOrTs)
        else
          var sound := if prev != REVERSE then [SoundRtds] else [];
          Accepted(target, sound + [WritePump(true), WriteFault(true)], None)
      case REVERSE =>
        if prev != FPit then Rejected(ReverseOutsidePit) else Accepted(REVERSE, [], None)
      case FAULTED =>
        Accepted(FAULTED, [WritePump(false), WriteFault(false)], Some(Nero(OFF)))
  }

  /** READY is refused while the car moves. */
  lemma ReadyRejectedWhileMoving(prev: FunctionalType, speed: int, brake: bool, tsms: bool)
    requires speed > MAX_STOPPED_SPEED
    ensures Decide(prev, Functional(READY), speed, brake, tsms) == Rejected(MovingToReady)
  {
  }

  /** A stopped car enters READY from any state, FAULTED included: pump off,
      fault line on. */
  lemma ReadyAcceptedAtRest(prev: FunctionalType, speed: int, brake: bool, tsms: bool)
    requires speed <= MAX_STOPPED_SPEED
    ensures Decide(prev, Functional(READY), speed, brake, tsms)
            == Accepted(READY, [WritePump(false), WriteFault(true)], None)
  {
  }

  /** Outside REVERSE an active mode is entered exactly when the interlock
      holds, and then the ready-to-drive sound comes first. */
  lemma ActivationGuarded(prev: FunctionalType, target: FunctionalType, speed: int, brake: bool, tsms: bool)
    requires IsActive(target) && prev != REVERSE
    ensures Decide(prev, Functional(target), speed, brake, tsms).Accepted? <==> Interlock(speed, brake, tsms)
    ensures Interlock(speed, brake, tsms) ==>
      Decide(prev, Functional(target), speed, brake, tsms)
      == Accepted(target, [SoundRtds, WritePump(true), WriteFault(true)], None)
  {
  }

  /** From REVERSE an active mode needs no guard and sounds nothing. */
  lemma ActivationFromReverse(target: FunctionalType, speed: int, brake: bool, tsms: bool)
    requires IsActive(target)
    ensures Decide(REVERSE, Functional(target), speed, brake, tsms)
            == Accepted(target, [WritePump(true), WriteFault(true)], None)
  {
  }

  /** REVERSE is entered only from pit mode (not even from REVERSE) and sends
      no commands. */
  lemma ReverseOnlyFromPit(prev: FunctionalType, speed: int, brake: bool, tsms: bool)
    ensures Decide(prev, Functional(REVERSE), speed, brake, tsms).Accepted? <==> prev == FPit
    ensures prev == FPit ==> Decide(prev, Functional(REVERSE), speed, brake, tsms) == Accepted(REVERSE, [], None)
  {
  }

  /** FAULTED pre-empts every guard: pump off, fault line off, and Nero(OFF)
      is signalled back to the task itself. */
  lemma FaultedUnconditional(prev: FunctionalType, speed: int, brake: bool, tsms: bool)
    ensures Decide(prev, Functional(FAULTED), speed, brake, tsms)
            == Accepted(FAULTED, [WritePump(false), WriteFault(false)], Some(Nero(OFF)))
  {
  }

  /** The request FAULTED signals back is itself a `todo!()`. */
  lemma FaultedRepostUnimplemented(prev: FunctionalType, speed: int, brake: bool, tsms: bool,
                                   speed': int, brake': bool, tsms': bool)
    ensures var r := Decide(prev, Functional(FAULTED), speed, brake, tsms);
      r.Accepted? && r.repost.Some? && Decide(r.next, r.repost.value, speed', brake', tsms') == Unimplemented(OFF)
  {
  }

  // ---- Runs of the loop ------------------------------------------------

  /** One request with the registers sampled while it is handled. */
  datatype Sample = Sample(req: StateTransition, speed: int, brake: bool, tsms: bool)

  /** Where a run of the loop ends: the functional state, every command sent,
      and whether a `todo!()` stopped it. */
  datatype Run = Run(state: FunctionalType, commands: seq<PduCommand>, halted: bool)

  /** The loop fed `samples` in order, starting from state `prev`. A request
      signalled back (by FAULTED) is waited for at once, before any other task
      can run, so it is handled next, with the same register readings. */
  function RunFrom(prev: FunctionalType, samples: seq<Sample>): Run
    decreases |samples|, if samples != [] && samples[0].req.Functional? then 1 else 0
  {
    if samples == [] then Run(prev, [], false)
    else
      var s := samples[0];
      match Decide(prev, s.req, s.speed, s.brake, s.tsms)
      case Rejected(_) => RunFrom(prev, samples[1..])
      case Unimplemented(_) => Run(prev, [], true)
      case Accepted(next, cmds, repost) =>
        var rest := if repost.Some? then [Sample(repost.value, s.speed, s.brake, s.tsms)] + samples[1..]
                    else samples[1..];
        var r := RunFrom(next, rest);
        Run(r.state, cmds + r.commands, r.halted)
  }

  /** Entering FAULTED always ends the loop: the re-signalled Nero(OFF) reaches
      a `todo!()` right after pump off and fault line off are sent. */
  lemma {:induction false} FaultedHalts(prev: FunctionalType, s: Sample, rest: seq<Sample>)
    requires s.req == Functional(FAULTED)
    ensures RunFrom(prev, [s] + rest) == Run(FAULTED, [WritePump(false), WriteFault(false)], true)
  {
    var tail := [Sample(Nero(OFF), s.speed, s.brake, s.tsms)] + ([s] + rest)[1..];
    assert tail[0] == Sample(Nero(OFF), s.speed, s.brake, s.tsms);
    assert RunFrom(FAULTED, tail) == Run(FAULTED, [], true);
  }

  /** The car never starts driving silently: a run that begins outside the
      drive states and ends in one has sounded the ready-to-drive signal. */
  lemma {:induction false} DriveRequiresReadyToDrive(prev: FunctionalType, samples: seq<Sample>)
    requires !IsDrive(prev)
    ensures IsDrive(RunFrom(prev, samples).state) ==> SoundRtds in RunFrom(prev, samples).commands
  {
    DriveKeepsOrSounds(prev, samples);
  }

  lemma {:induction false} DriveKeepsOrSounds(prev: FunctionalType, samples: seq<Sample>)
    ensures IsDrive(RunFrom(prev, samples).state) ==> IsDrive(prev) || SoundRtds in RunFrom(prev, samples).commands
    decreases |samples|, if samples != [] && samples[0].req.Functional? then 1 else 0
  {
    if samples != [] {
      var s := samples[0];
      match Decide(prev, s.req, s.speed, s.brake, s.tsms)
      case Rejected(_) => DriveKeepsOrSounds(prev, samples[1..]);
      case Unimplemented(_) =>
      case Accepted(next, cmds, repost) =>
        var rest := if repost.Some? then [Sample(repost.value, s.speed, s.brake, s.tsms)] + samples[1..]
                    else samples[1..];
        DriveKeepsOrSounds(next, rest);
        var r := RunFrom(next, rest);
        assert RunFrom(prev, samples) == Run(r.state, cmds + r.commands, r.halted);
        if IsDrive(r.state) && !IsDrive(prev) {
          if IsDrive(next) {
            assert SoundRtds in cmds;
          } else {
            assert SoundRtds in r.commands;
          }
          assert SoundRtds in cmds + r.commands;
        }
    }
  }

  /** A run ends in the state it started in or in one that some sample
      requested: the loop never invents a state, and the request FAULTED
      signals back is not a functional one. */
  lemma {:induction false} RunEndsInRequestedState(prev: FunctionalType, samples: seq<Sample>)
    ensures var st := RunFrom(prev, samples).state;
            st == prev || exists k :: 0 <= k < |samples| && samples[k].req == Functional(st)
    decreases |samples|, if samples != [] && samples[0].req.Functional? then 1 else 0
  {
    if samples != [] {
      var s := samples[0];
      var st := RunFrom(prev, samples).state;
      match Decide(prev, s.req, s.speed, s.brake, s.tsms)
      case Rejected(_) =>
        RunEndsInRequestedState(prev, samples[1..]);
        if st != prev {
          var k :| 0 <= k < |samples[1..]| && samples[1..][k].req == Functional(st);
          assert samples[k + 1].req == Functional(st);
        }
      case Unimplemented(_) =>
      case Accepted(next, cmds, repost) =>
        var rest := if repost.Some? then [Sample(repost.value, s.speed, s.brake, s.tsms)] + samples[1..]
                    else samples[1..];
        assert st == RunFrom(next, rest).state;
        if repost.Some? {
          // the re-signalled Nero request halts the run in FAULTED
          assert st == next;
          assert samples[0].req == Functional(st);
        } else {
          RunEndsInRequestedState(next, rest);
          if st == next {
            assert samples[0].req == Functional(st);
          } else if st != prev {
            var k :| 0 <= k < |rest| && rest[k].req == Functional(st);
            assert samples[k + 1].req == Functional(st);
          }
        }
    }
  }

  // ---- The task as an object ---------------------------------------------

  /** The state of `state_handler`: the two previous-state variables, its
      request signal slot (last write wins), the commands sent so far on the
      PDU channel, and whether a `todo!()` has stopped it. */
  class VehicleStateMachine {
    var prevFuncState: FunctionalType
    var prevNeroState: NeroType
    var pending: Option<StateTransition>
    var sent: seq<PduCommand>
    var halted: bool

    constructor ()
      ensures prevFuncState == READY && prevNeroState == OFF
      ensures pending == None && sent == [] && !halted
    {
      prevFuncState := READY;
      prevNeroState := OFF;
      pending := None;
      sent := [];
      halted := false;
    }

    /** Another task's `state_send.signal(t)`: overwrites an unread request. */
    method Signal(t: StateTransition)
      modifies this
      ensures pending == Some(t)
      ensures prevFuncState == old(prevFuncState) && prevNeroState == old(prevNeroState)
      ensures sent == old(sent) && halted == old(halted)
    {
      pending := Some(t);
    }

    /** One pass of the loop: take the pending request and handle it. */
    method Step(speed: int, brake: bool, tsms: bool) returns (out: Outcome)
      requires !halted && pending.Some?
      modifies this
      ensures out == Decide(old(prevFuncState), old(pending).value, speed, brake, tsms)
      ensures out.Accepted? ==> prevFuncState == out.next && sent == old(sent) + out.commands
                                && pending == out.repost && !halted
      ensures out.Rejected? ==> prevFuncState == old(prevFuncState) && sent == old(sent)
                                && pending == None && !halted
      ensures out.Unimplemented? ==> halted && prevFuncState == old(prevFuncState)
                                     && sent == old(sent) && pending == None
      ensures prevNeroState == old(prevNeroState)
    {
      var req := pending.value;
      pending := None;
      match req {
        case Nero(m) =>
          halted := true;
          return Unimplemented(m);
        case Functional(target) =>
          match target {
            case READY =>
              if speed > MAX_STOPPED_SPEED {
                return Rejected(MovingToReady);
              }
              sent := sent + [WritePump(false)];
              sent := sent + [WriteFault(true)];
              out := Accepted(READY, [WritePump(false), WriteFault(true)], None);
            case FPit | FPerformance | FEfficiency =>
              var sound: seq<PduCommand> := [];
              if prevFuncState != REVERSE {
                if speed > MAX_STOPPED_SPEED {
                  return Rejected(MovingToActive);
                }
                if !brake || !tsms {
                  return Rejected(NoBrakeOrTs);
                }
                sent := sent + [SoundRtds];
                sound := [SoundRtds];
              }
              sent := sent + [WritePump(true)];
              sent := sent + [WriteFault(true)];
              out := Accepted(target, sound + [WritePump(true), WriteFault(true)], None);
            case REVERSE =>
              if prevFuncState != FPit {
                return Rejected(ReverseOutsidePit);
              }
              out := Accepted(REVERSE, [], None);
            case FAULTED =>
              sent := sent + [WritePump(false)];
              sent := sent + [WriteFault(false)];
              pending := Some(Nero(OFF));
              out := Accepted(FAULTED, [WritePump(false), WriteFault(false)], Some(Nero(OFF)));
          }
          prevFuncState := target;
      }
    }
  }
}
