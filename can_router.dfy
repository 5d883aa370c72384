// The bus task (`can_handler`): frames that pass the receive filter are
// dispatched by identifier to the DTI or the BMS mailbox, and frames queued
// by the other tasks are written to the bus in queue order.
module CanRouter {
  import opened Can
  import opened Results

  const DTI_ID: int := 0x416
  const BMS_ID: int := 0x156
  /** The identifiers in the receive filter's list bank. */
  const ACCEPTANCE_LIST: set<int> := {0x156, 0x416, 0x1, 0x2}
  /** The capacity of the outbound channel. */
  const CHANNEL_CAPACITY: nat := 25

  datatype Destination = ToDti | ToBms | Dropped

  /** What `can.read()` yields: a frame, or a bus error. */
  datatype BusRead = Received(frame: Frame) | BusError

  /** A frame the filter lets through: a standard identifier in the list. */
  predicate PassesFilter(f: Frame) {
    f.id.Standard? && f.id.raw in ACCEPTANCE_LIST
  }

  /** The dispatch `match` on the received frame's identifier. */
  function Route(f: Frame): (d: Destination)
    ensures d == ToDti <==> f.id == Standard(DTI_ID)
    ensures d == ToBms <==> f.id == Standard(BMS_ID)
  {
    match f.id
    case Standard(raw) =>
      if raw == DTI_ID then ToDti
      else if raw == BMS_ID then ToBms
      else Dropped
    case Extended(_) => Dropped
  }

  /** No extended frame reaches a mailbox, whatever its raw identifier. */
  lemma ExtendedNeverDelivered(raw: int, data: seq<Bytes.byte>)
    ensures Route(Frame(Extended(raw), data)) == Dropped
  {
  }

  /** Every delivered frame passed the filter; of the four listed
      identifiers, 0x1 and 0x2 pass the filter and are then dropped. */
  lemma FilterAndDispatch(f: Frame)
    ensures Route(f) != Dropped ==> PassesFilter(f)
    ensures PassesFilter(f) ==> (Route(f) == Dropped <==> f.id.raw == 0x1 || f.id.raw == 0x2)
  {
  }

  /** The task's state: the two single-frame mailboxes (a new signal
      overwrites an unread frame), the outbound channel, and the frames
      written to the bus so far. `queued` is every frame ever accepted by the
      channel, in order. */
  class CanHandler {
    var dtiSlot: Option<Frame>
    var bmsSlot: Option<Frame>
    var outbound: seq<Frame>
    var written: seq<Frame>
    ghost var queued: seq<Frame>

    /** The channel is first in, first out: what was written followed by
        what is waiting is exactly what was queued, and the channel never
        holds more than its capacity. */
    ghost predicate Valid()
      reads this
    {
      written + outbound == queued && |outbound| <= CHANNEL_CAPACITY
    }

    constructor ()
      ensures Valid()
      ensures dtiSlot == None && bmsSlot == None && outbound == [] && written == [] && queued == []
    {
      dtiSlot := None;
      bmsSlot := None;
      outbound := [];
      written := [];
      queued := [];
    }

    /** A sender queueing `f`; when the channel is full the sender waits and
        nothing changes. */
    method Send(f: Frame) returns (accepted: bool)
      requires Valid()
      modifies this
      ensures Valid()
      ensures accepted <==> |old(outbound)| < CHANNEL_CAPACITY
      ensures outbound == if accepted then old(outbound) + [f] else old(outbound)
      ensures queued == if accepted then old(queued) + [f] else old(queued)
      ensures written == old(written) && dtiSlot == old(dtiSlot) && bmsSlot == old(bmsSlot)
    {
      accepted := |outbound| < CHANNEL_CAPACITY;
      if accepted {
        outbound := outbound + [f];
        queued := queued + [f];
      }
    }

    /** The first `select` branch: the oldest queued frame is written to the
        bus unchanged. */
    method Transmit()
      requires Valid() && outbound != []
      modifies this
      ensures Valid()
      ensures written == old(written) + [old(outbound)[0]]
      ensures outbound == old(outbound)[1..]
      ensures queued == old(queued) && dtiSlot == old(dtiSlot) && bmsSlot == old(bmsSlot)
    {
      var frame := outbound[0];
      outbound := outbound[1..];
      written := written + [frame];
      assert written + outbound == old(written) + old(outbound);
    }

    /** The second `select` branch: a received frame is signalled to the
        mailbox its identifier selects; a bus error or any other frame
        changes nothing. */
    method Receive(res: BusRead)
      requires Valid()
      modifies this
      ensures Valid()
      ensures dtiSlot == if res.Received? && Route(res.frame) == ToDti then Some(res.frame) else old(dtiSlot)
      ensures bmsSlot == if res.Received? && Route(res.frame) == ToBms then Some(res.frame) else old(bmsSlot)
      ensures outbound == old(outbound) && written == old(written) && queued == old(queued)
    {
      match res {
        case BusError =>
        case Received(f) =>
          match f.id {
            case Standard(raw) =>
              if raw == DTI_ID {
                dtiSlot := Some(f);
              } else if raw == BMS_ID {
                bmsSlot := Some(f);
              }
            case Extended(_) =>
          }
      }
    }

    /** `dti_callback.wait()`: takes the waiting frame, if any. */
    method TakeDti() returns (f: Option<Frame>)
      modifies this
      ensures f == old(dtiSlot) && dtiSlot == None
      ensures bmsSlot == old(bmsSlot) && outbound == old(outbound) && written == old(written) && queued == old(queued)
    {
      f := dtiSlot;
      dtiSlot := None;
    }

    /** `bms_callback.wait()`: takes the waiting frame, if any. */
    method TakeBms() returns (f: Option<Frame>)
      modifies this
      ensures f == old(bmsSlot) && bmsSlot == None
      ensures dtiSlot == old(dtiSlot) && outbound == old(outbound) && written == old(written) && queued == old(queued)
    {
      f := bmsSlot;
      bmsSlot := None;
    }
  }
}
