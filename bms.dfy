// The battery-controller watchdog (`bms_handler`): every pass of its loop
// races the BMS mailbox against a fresh four-second timer; a frame restarts
// the wait, the timer signals `BmsCanMonitorFault`.
module Bms {
  import opened Cerberus

  /** The liveness timeout, in milliseconds. */
  const TIMEOUT: int := 4000

  /** A signal to the fault manager's slot at time `at` (ms). */
  datatype FaultSignal = FaultSignal(at: int, code: FaultCode)

  /** Arrival times of BMS frames (ms), strictly increasing. */
  predicate Increasing(arrivals: seq<int>) {
    forall i, j :: 0 <= i < j < |arrivals| ==> arrivals[i] < arrivals[j]
  }

  /** The arrivals a wait that starts at `start` can see. */
  predicate Timeline(start: int, arrivals: seq<int>) {
    Increasing(arrivals) && (arrivals != [] ==> start <= arrivals[0])
  }

  /** The faults signalled up to `horizon` by a loop whose current wait began
      at `start`. A frame that arrives no later than the timer wins the race
      (the mailbox is polled first) and starts a new wait at its arrival; a
      timer that expires first signals the fault and a new wait begins. The
      frame's contents are never looked at. */
  function Signals(start: int, arrivals: seq<int>, horizon: int): (s: seq<FaultSignal>)
    requires Timeline(start, arrivals)
    ensures forall k :: 0 <= k < |s| ==> start + TIMEOUT <= s[k].at <= horizon
    ensures forall k :: 0 <= k < |s| ==> s[k].code == BmsCanMonitorFault
    decreases |arrivals|, horizon - start
  {
    if start + TIMEOUT > horizon && (arrivals == [] || arrivals[0] > horizon) then []
    else if arrivals != [] && arrivals[0] <= start + TIMEOUT then Signals(arrivals[0], arrivals[1..], horizon)
    else [FaultSignal(start + TIMEOUT, BmsCanMonitorFault)] + Signals(start + TIMEOUT, arrivals, horizon)
  }

  /** Every fault follows a full timeout with no frame: no frame arrived in
      the four seconds before it. */
  lemma {:induction false} FaultMeansSilence(start: int, arrivals: seq<int>, horizon: int)
    requires Timeline(start, arrivals)
    ensures forall k, i :: 0 <= k < |Signals(start, arrivals, horizon)| && 0 <= i < |arrivals| ==>
              !(Signals(start, arrivals, horizon)[k].at - TIMEOUT < arrivals[i] <= Signals(start, arrivals, horizon)[k].at)
    decreases |arrivals|, horizon - start
  {
    var s := Signals(start, arrivals, horizon);
    if start + TIMEOUT > horizon && (arrivals == [] || arrivals[0] > horizon) {
    } else if arrivals != [] && arrivals[0] <= start + TIMEOUT {
      FaultMeansSilence(arrivals[0], arrivals[1..], horizon);
      forall k, i | 0 <= k < |s| && 0 <= i < |arrivals|
        ensures !(s[k].at - TIMEOUT < arrivals[i] <= s[k].at)
      {
        if i > 0 {
          assert arrivals[i] == arrivals[1..][i - 1];
        }
      }
    } else {
      FaultMeansSilence(start + TIMEOUT, arrivals, horizon);
      forall k, i | 0 <= k < |s| && 0 <= i < |arrivals|
        ensures !(s[k].at - TIMEOUT < arrivals[i] <= s[k].at)
      {
        if k > 0 {
          assert s[k] == Signals(start + TIMEOUT, arrivals, horizon)[k - 1];
        } else {
          assert arrivals[0] <= arrivals[i];
        }
      }
    }
  }

  /** Frames that keep coming at most four seconds apart, the last one within
      four seconds of the horizon, keep the fault from ever being signalled. */
  lemma {:induction false} SteadyFramesNoFault(start: int, arrivals: seq<int>, horizon: int)
    requires Timeline(start, arrivals) && arrivals != []
    requires arrivals[0] <= start + TIMEOUT
    requires forall i :: 0 < i < |arrivals| ==> arrivals[i] <= arrivals[i - 1] + TIMEOUT
    requires horizon < arrivals[|arrivals| - 1] + TIMEOUT
    ensures Signals(start, arrivals, horizon) == []
    decreases |arrivals|
  {
    if start + TIMEOUT > horizon && arrivals[0] > horizon {
    } else if |arrivals| == 1 {
      assert Signals(arrivals[0], [], horizon) == [];
    } else {
      var rest := arrivals[1..];
      assert forall i :: 0 < i < |rest| ==> rest[i] <= rest[i - 1] + TIMEOUT by {
        forall i | 0 < i < |rest| ensures rest[i] <= rest[i - 1] + TIMEOUT {
          assert rest[i] == arrivals[i + 1] && rest[i - 1] == arrivals[i];
        }
      }
      SteadyFramesNoFault(arrivals[0], rest, horizon);
    }
  }

  /** With no frame at all the fault is re-signalled every four seconds. */
  lemma {:induction false} SilenceRepeats(start: int, horizon: int)
    ensures |Signals(start, [], horizon)| == if horizon < start + TIMEOUT then 0 else (horizon - start) / TIMEOUT
    ensures forall k :: 0 <= k < |Signals(start, [], horizon)| ==>
              Signals(start, [], horizon)[k].at == start + (k + 1) * TIMEOUT
    decreases horizon - start
  {
    if start + TIMEOUT <= horizon {
      SilenceRepeats(start + TIMEOUT, horizon);
      var s := Signals(start, [], horizon);
      assert s == [FaultSignal(start + TIMEOUT, BmsCanMonitorFault)] + Signals(start + TIMEOUT, [], horizon);
      assert (horizon - start) / TIMEOUT == (horizon - (start + TIMEOUT)) / TIMEOUT + 1;
      forall k | 0 < k < |s| ensures s[k].at == start + (k + 1) * TIMEOUT {
        assert s[k] == Signals(start + TIMEOUT, [], horizon)[k - 1];
      }
    }
  }

  /** From any frame that the horizon reaches, the signals are some prefix
      followed by exactly the signals of a wait that starts at that frame. */
  lemma {:induction false} SignalsFromArrival(start: int, arrivals: seq<int>, horizon: int, i: nat)
    returns (p: seq<FaultSignal>)
    requires Timeline(start, arrivals) && i < |arrivals| && arrivals[i] <= horizon
    ensures Signals(start, arrivals, horizon) == p + Signals(arrivals[i], arrivals[i + 1..], horizon)
    decreases |arrivals|, horizon - start
  {
    assert arrivals[0] <= arrivals[i];
    if arrivals[0] <= start + TIMEOUT {
      if i == 0 {
        p := [];
      } else {
        assert arrivals[1..][i - 1] == arrivals[i] && arrivals[1..][i..] == arrivals[i + 1..];
        p := SignalsFromArrival(arrivals[0], arrivals[1..], horizon, i - 1);
      }
    } else {
      var q := SignalsFromArrival(start + TIMEOUT, arrivals, horizon, i);
      p := [FaultSignal(start + TIMEOUT, BmsCanMonitorFault)] + q;
    }
  }

  /** A gap of more than four seconds after a frame signals the fault four
      seconds after that frame, provided the horizon reaches that instant. */
  lemma {:induction false} GapSignalsFault(start: int, arrivals: seq<int>, horizon: int, i: nat)
    requires Timeline(start, arrivals) && i < |arrivals|
    requires arrivals[i] + TIMEOUT <= horizon
    requires i + 1 == |arrivals| || arrivals[i + 1] > arrivals[i] + TIMEOUT
    ensures exists k :: 0 <= k < |Signals(start, arrivals, horizon)|
                        && Signals(start, arrivals, horizon)[k] == FaultSignal(arrivals[i] + TIMEOUT, BmsCanMonitorFault)
  {
    var p := SignalsFromArrival(start, arrivals, horizon, i);
    var rest := arrivals[i + 1..];
    assert rest == [] || rest[0] > arrivals[i] + TIMEOUT;
    var tail := Signals(arrivals[i], rest, horizon);
    assert tail == [FaultSignal(arrivals[i] + TIMEOUT, BmsCanMonitorFault)] + Signals(arrivals[i] + TIMEOUT, rest, horizon);
    assert Signals(start, arrivals, horizon)[|p|] == tail[0];
  }

  /** A first frame later than four seconds after the wait began (or no
      frame at all) signals the fault at the end of that first wait. */
  lemma FirstGapSignalsFault(start: int, arrivals: seq<int>, horizon: int)
    requires Timeline(start, arrivals) && start + TIMEOUT <= horizon
    requires arrivals == [] || arrivals[0] > start + TIMEOUT
    ensures |Signals(start, arrivals, horizon)| > 0
    ensures Signals(start, arrivals, horizon)[0] == FaultSignal(start + TIMEOUT, BmsCanMonitorFault)
  {
  }

  /** After the last frame the fault is re-signalled every four seconds,
      counted from that frame, up to the horizon. */
  lemma {:induction false} SilenceAfterLastFrame(start: int, arrivals: seq<int>, horizon: int)
    returns (p: seq<FaultSignal>)
    requires Timeline(start, arrivals) && arrivals != [] && arrivals[|arrivals| - 1] <= horizon
    ensures var last := arrivals[|arrivals| - 1];
            var s := Signals(start, arrivals, horizon);
            |s| == |p| + (if horizon < last + TIMEOUT then 0 else (horizon - last) / TIMEOUT)
            && forall k :: |p| <= k < |s| ==> s[k].at == last + (k - |p| + 1) * TIMEOUT
  {
    var last := arrivals[|arrivals| - 1];
    p := SignalsFromArrival(start, arrivals, horizon, |arrivals| - 1);
    assert arrivals[|arrivals|..] == [];
    SilenceRepeats(last, horizon);
    var s := Signals(start, arrivals, horizon);
    var tail := Signals(last, [], horizon);
    assert s == p + tail;
    forall k | |p| <= k < |s| ensures s[k].at == last + (k - |p| + 1) * TIMEOUT {
      assert s[k] == tail[k - |p|];
    }
  }

  /** The task's loop run over a timeline of arrivals up to `horizon`,
      returning the fault signals it sends in order. */
  method Watch(start: int, arrivals: seq<int>, horizon: int) returns (signals: seq<FaultSignal>)
    requires Timeline(start, arrivals)
    ensures signals == Signals(start, arrivals, horizon)
  {
    var t := start;
    var i := 0;
    signals := [];
    while !(t + TIMEOUT > horizon && (i == |arrivals| || arrivals[i] > horizon))
      invariant 0 <= i <= |arrivals|
      invariant Timeline(t, arrivals[i..])
      invariant signals + Signals(t, arrivals[i..], horizon) == Signals(start, arrivals, horizon)
      decreases |arrivals| - i, horizon - t
    {
      if i < |arrivals| && arrivals[i] <= t + TIMEOUT {
        // the mailbox branch: `continue` with a fresh timer
        assert arrivals[i..][1..] == arrivals[i + 1..];
        t := arrivals[i];
        i := i + 1;
      } else {
        // the timer branch
        signals := signals + [FaultSignal(t + TIMEOUT, BmsCanMonitorFault)];
        t := t + TIMEOUT;
      }
    }
  }
}
