/** The session object itself: the fields the source guards with its mutex,
    updated in place, each locked half proved against its function in BidiModel. */
module BidiSession {
  import opened Common
  import opened BidiModel

  /** A slice of frames: the first `count` cells of a buffer. */
  class FrameHistory {
    var buffer: array<Frame>
    var count: nat
    ghost var contents: seq<Frame>

    ghost predicate Valid()
      reads this, buffer
    {
      count <= buffer.Length && contents == buffer[..count]
    }

    constructor ()
      ensures Valid() && contents == [] && fresh(buffer)
    {
      buffer, count, contents := new Frame[0], 0, [];
    }

    /** Makes room for one more frame behind the slice, reallocating when full. */
    method Grow()
      requires Valid()
      modifies this`buffer
      ensures Valid() && count < buffer.Length && (buffer == old(buffer) || fresh(buffer))
      ensures contents == old(contents)
    {
      if count == buffer.Length {
        var larger := new Frame[2 * count + 1];
        for i := 0 to count
          invariant count == buffer.Length && buffer == old(buffer)
          invariant forall k :: 0 <= k < i ==> larger[k] == buffer[k]
        {
          larger[i] := buffer[i];
        }
        buffer := larger;
      }
    }

    /** Keeps the bounded window: appends while there is room under `limit`,
        otherwise shifts the slice towards the front in place. */
    method RetainBidiFrame(frame: Frame, limit: int)
      requires Valid()
      modifies this, buffer
      ensures Valid() && (buffer == old(buffer) || fresh(buffer))
      ensures contents == Retain(old(contents), frame, limit)
    {
      if limit <= 0 || count < limit {
        Grow();
        buffer[count] := frame;
        count := count + 1;
        contents := contents + [frame];
      } else {
        var shift := count - limit + 1;
        for i := 0 to limit - 1
          invariant count == old(count) && buffer == old(buffer) && contents == old(contents)
          invariant forall k :: 0 <= k < i ==> buffer[k] == old(buffer[k + shift])
          invariant forall k :: i <= k < count ==> buffer[k] == old(buffer[k])
        {
          buffer[i] := buffer[i + shift];
        }
        buffer[limit - 1] := frame;
        count := limit;
        contents := contents[shift..] + [frame];
      }
    }
  }

  /** `failCarrierLocked`: noticing the loss of the carrier only matters while it is open. */
  function Lost(c: CarrierState): CarrierState {
    if c.CarrierOpen? then CarrierFailed else c
  }

  class BidiSession {
    const sessionID: string
    const maxBuffered: int
    var runtimeState: BidiState
    var carrierState: CarrierState
    const sentFrames: FrameHistory
    const receivedFrames: FrameHistory
    var lastSendSeq: nat
    var lastRecvSeq: nat
    var terminalFrame: Option<TerminalFrame>
    var localHalfClose: bool
    var remoteHalfClose: bool
    var sending: bool
    var receiving: bool

    ghost predicate Valid()
      reads sentFrames, receivedFrames, sentFrames.buffer, receivedFrames.buffer
    {
      && sentFrames.Valid() && receivedFrames.Valid()
      && sentFrames != receivedFrames && sentFrames.buffer != receivedFrames.buffer
    }

    ghost function View(): Session
      reads this, sentFrames, receivedFrames
    {
      Session(sessionID, maxBuffered, runtimeState, carrierState,
              Track(sentFrames.contents, lastSendSeq), Track(receivedFrames.contents, lastRecvSeq),
              terminalFrame, localHalfClose, remoteHalfClose, sending, receiving)
    }

    constructor (id: string, limit: int, state: BidiState)
      ensures Valid() && fresh(sentFrames) && fresh(receivedFrames)
      ensures fresh(sentFrames.buffer) && fresh(receivedFrames.buffer)
      ensures View() == Session(id, limit, state, CarrierOpen, Track([], 0), Track([], 0), None,
                                false, false, false, false)
    {
      sessionID, maxBuffered, runtimeState, carrierState := id, limit, state, CarrierOpen;
      lastSendSeq, lastRecvSeq := 0, 0;
      terminalFrame, localHalfClose, remoteHalfClose := None, false, false;
      sending, receiving := false, false;
      var sent := new FrameHistory();
      var received := new FrameHistory();
      sentFrames, receivedFrames := sent, received;
    }

    /** Opens a session from the runtime's open metadata, or refuses it. */
    static method FromOpenMetadata(m: OpenMetadata) returns (s: BidiSession?)
      ensures s == null <==> OpenSession(m).None?
      ensures s != null ==> fresh(s) && fresh(s.sentFrames) && fresh(s.receivedFrames)
      ensures s != null ==> fresh(s.sentFrames.buffer) && fresh(s.receivedFrames.buffer)
      ensures s != null ==> s.Valid() && OpenSession(m) == Some(s.View())
    {
      var state := Opening;
      if m.state.Some? {
        state := m.state.value;
      }
      var maxBuffered := m.maxBuffered;
      if maxBuffered == 0 {
        maxBuffered := MAX_BIDI_BUFFERED_FRAMES;
      }
      if m.sessionID == "" || (state != Opening && state != Open) || maxBuffered < 0 {
        return null;
      }
      s := new BidiSession(m.sessionID, maxBuffered, state);
    }

    // ---------------------------------------------------------- begin halves

    method BeginSend() returns (v: Verdict)
      requires Valid()
      modifies this`sending
      ensures Valid() && v == SendGate(old(View())) && View() == BidiModel.BeginSend(old(View()))
    {
      if carrierState != CarrierOpen {
        return Rejected(CarrierNotOpen);
      }
      if runtimeState == HalfClosedLocal {
        return Rejected(SendPathCancelled);
      }
      if runtimeState != Open && runtimeState != HalfClosedRemote {
        return Rejected(SendPathClosed);
      }
      if sending {
        return Rejected(SendInProgress);
      }
      sending := true;
      return Accepted;
    }

    method BeginReceive() returns (v: Verdict)
      requires Valid()
      modifies this`receiving
      ensures Valid() && v == ReceiveGate(old(View())) && View() == BidiModel.BeginReceive(old(View()))
    {
      if carrierState != CarrierOpen {
        return Rejected(CarrierNotOpen);
      }
      if RuntimeTerminal(runtimeState) {
        return Rejected(SessionTerminal);
      }
      if receiving {
        return Rejected(ReceiveInProgress);
      }
      receiving := true;
      return Accepted;
    }

    method BeginCloseSend() returns (v: Verdict)
      requires Valid()
      modifies this`sending
      ensures Valid() && v == CloseSendGate(old(View())) && View() == BidiModel.BeginCloseSend(old(View()))
    {
      if carrierState != CarrierOpen {
        return Rejected(CarrierNotOpen);
      }
      if runtimeState != Open && runtimeState != HalfClosedRemote {
        return Rejected(SendPathClosed);
      }
      if sending {
        return Rejected(SendInProgress);
      }
      sending := true;
      return Accepted;
    }

    method BeginCancel() returns (v: Verdict)
      requires Valid()
      ensures v == CancelGate(View())
    {
      if carrierState != CarrierOpen {
        return Rejected(CarrierNotOpen);
      }
      if RuntimeTerminal(runtimeState) {
        return Rejected(SessionTerminal);
      }
      return Accepted;
    }

    method BeginClose() returns (v: Verdict)
      requires Valid()
      modifies this`carrierState
      ensures Valid() && v == CloseGate(old(View())) && View() == BidiModel.BeginClose(old(View()))
    {
      if carrierState == CarrierClosed {
        return AlreadyClosed;
      }
      if carrierState == CarrierClosing {
        return Rejected(CloseInProgress);
      }
      carrierState := CarrierClosing;
      return Accepted;
    }

    // ------------------------------------------------------- locked helpers

    method RecordSent(f: Frame) returns (v: Verdict)
      requires Valid()
      modifies this`carrierState, this`lastSendSeq, sentFrames, sentFrames.buffer
      ensures Valid() && (sentFrames.buffer == old(sentFrames.buffer) || fresh(sentFrames.buffer))
      ensures v == OrderCheck(old(View()).outbound, f)
      ensures carrierState == CarrierAfter(old(carrierState), v)
      ensures View().outbound ==
              if v.Accepted? then Record(old(View()).outbound, f, maxBuffered) else old(View()).outbound
    {
      if f.sequence == 0 {
        carrierState := Lost(carrierState);
        return Rejected(SequenceRequired);
      }
      if f.sequence <= lastSendSeq {
        carrierState := Lost(carrierState);
        return Rejected(NotStrictlyOrdered);
      }
      lastSendSeq := f.sequence;
      sentFrames.RetainBidiFrame(f, maxBuffered);
      return Accepted;
    }

    method RecordReceived(f: Frame) returns (v: Verdict)
      requires Valid()
      modifies this`carrierState, this`lastRecvSeq, receivedFrames, receivedFrames.buffer
      ensures Valid() && (receivedFrames.buffer == old(receivedFrames.buffer) || fresh(receivedFrames.buffer))
      ensures v == OrderCheck(old(View()).inbound, f)
      ensures carrierState == CarrierAfter(old(carrierState), v)
      ensures View().inbound ==
              if v.Accepted? then Record(old(View()).inbound, f, maxBuffered) else old(View()).inbound
    {
      if f.sequence == 0 {
        carrierState := Lost(carrierState);
        return Rejected(SequenceRequired);
      }
      if f.sequence <= lastRecvSeq {
        carrierState := Lost(carrierState);
        return Rejected(NotStrictlyOrdered);
      }
      lastRecvSeq := f.sequence;
      receivedFrames.RetainBidiFrame(f, maxBuffered);
      return Accepted;
    }

    /** The lifecycle effect of a frame that has just been recorded. */
    method ApplyReceivedState(f: Frame) returns (v: Verdict)
      requires Valid()
      modifies this`carrierState, this`runtimeState, this`remoteHalfClose, this`terminalFrame
      ensures Valid()
      ensures v == if f.terminal && ProjectTerminalFrame(sessionID, f).None?
                   then Rejected(NotATerminalFrame) else Accepted
      ensures carrierState ==
              if f.transportTerminal then CarrierFailed else CarrierAfter(old(carrierState), v)
      ensures runtimeState == if v.Accepted? then RuntimeAfterFrame(old(View()), f) else old(runtimeState)
      ensures remoteHalfClose == (old(remoteHalfClose) ||
              (v.Accepted? && f.kind.RemoteCloseSend? && !f.terminal && !f.transportTerminal))
      ensures terminalFrame ==
              if v.Accepted? && f.terminal then ProjectTerminalFrame(sessionID, f) else old(terminalFrame)
    {
      if f.transportTerminal {
        if f.terminal {
          var terminal := ProjectTerminalFrame(sessionID, f);
          if terminal.None? {
            carrierState := CarrierFailed;
            return Rejected(NotATerminalFrame);
          }
          terminalFrame := terminal;
        }
        carrierState := CarrierFailed;
      } else if f.terminal {
        var terminal := ProjectTerminalFrame(sessionID, f);
        if terminal.None? {
          carrierState := Lost(carrierState);
          return Rejected(NotATerminalFrame);
        }
        terminalFrame := terminal;
        runtimeState := Terminal;
      } else if f.kind == RemoteCloseSend {
        remoteHalfClose := true;
        if !localHalfClose {
          runtimeState := HalfClosedRemote;
        }
      } else if runtimeState == Opening {
        runtimeState := Open;
      }
      return Accepted;
    }

    // ------------------------------------------------------- complete halves

    method CompleteSend(a: FrameAnswer) returns (v: Verdict)
      requires Valid()
      modifies this, sentFrames, sentFrames.buffer
      ensures Valid() && (sentFrames.buffer == old(sentFrames.buffer) || fresh(sentFrames.buffer))
      ensures v == SendVerdict(old(View()), a) && View() == BidiModel.CompleteSend(old(View()), a)
    {
      sending := false;
      if a.FrameFault? {
        v := Rejected(TransportFault(a.fault));
        if a.fault != Interruption {
          carrierState := Lost(carrierState);
        }
      } else if a.FrameGarbled? || !DecodesAsFrame(a.frame) {
        v := Rejected(MalformedText);
        carrierState := Lost(carrierState);
      } else if RuntimeTerminal(runtimeState) || runtimeState == CancelRequested {
        v := Rejected(CompletedAfterSendPathClosed);
      } else {
        v := RecordSent(a.frame);
      }
    }

    method ApplyReceiveFrame(f: Frame) returns (v: Verdict)
      requires Valid() && DecodesAsFrame(f) && !receiving
      modifies this, receivedFrames, receivedFrames.buffer
      ensures Valid() && (receivedFrames.buffer == old(receivedFrames.buffer) || fresh(receivedFrames.buffer))
      ensures v == ReceiveVerdict(old(View()), FrameText(f))
      ensures View() == BidiModel.CompleteReceive(old(View()), FrameText(f))
    {
      if RuntimeTerminal(runtimeState) && !f.terminal {
        return Rejected(BecameTerminalDuringReceive);
      }
      v := RecordReceived(f);
      if v.Accepted? {
        v := ApplyReceivedState(f);
      }
    }

    method CompleteReceive(a: FrameAnswer) returns (v: Verdict)
      requires Valid()
      modifies this, receivedFrames, receivedFrames.buffer
      ensures Valid() && (receivedFrames.buffer == old(receivedFrames.buffer) || fresh(receivedFrames.buffer))
      ensures v == ReceiveVerdict(old(View()), a) && View() == BidiModel.CompleteReceive(old(View()), a)
    {
      receiving := false;
      if a.FrameFault? {
        v := Rejected(TransportFault(a.fault));
        if a.fault != Interruption {
          carrierState := Lost(carrierState);
        }
      } else if a.FrameGarbled? || !DecodesAsFrame(a.frame) {
        v := Rejected(MalformedText);
        carrierState := Lost(carrierState);
      } else {
        v := ApplyReceiveFrame(a.frame);
      }
    }

    method CompleteCloseSend(a: OutcomeAnswer) returns (v: Verdict)
      requires Valid()
      modifies this
      ensures Valid()
      ensures v == CloseSendVerdict(old(View()), a) && View() == BidiModel.CompleteCloseSend(old(View()), a)
    {
      sending := false;
      if a.OutcomeFault? {
        v := Rejected(TransportFault(a.fault));
        if a.fault != Interruption {
          carrierState := Lost(carrierState);
        }
      } else if a.OutcomeGarbled? || !DecodesAsOutcome(a.outcome) {
        v := Rejected(MalformedText);
        carrierState := Lost(carrierState);
      } else if a.outcome.state != HalfClosedLocal || a.outcome.terminal {
        v := Rejected(CloseSendClaimsTerminality);
        carrierState := Lost(carrierState);
      } else {
        v := Accepted;
        if !RuntimeTerminal(runtimeState) && runtimeState != CancelRequested {
          localHalfClose := true;
          runtimeState := HalfClosedLocal;
        }
      }
    }

    method CompleteCancel(a: OutcomeAnswer) returns (v: Verdict)
      requires Valid()
      modifies this`carrierState, this`runtimeState
      ensures Valid()
      ensures v == CancelVerdict(old(View()), a) && View() == BidiModel.CompleteCancel(old(View()), a)
    {
      if a.OutcomeFault? {
        v := Rejected(if a.fault == NotImplemented then CancelNotImplemented else TransportFault(a.fault));
        if a.fault == OtherFault {
          carrierState := Lost(carrierState);
        }
      } else if a.OutcomeGarbled? || !DecodesAsOutcome(a.outcome) {
        v := Rejected(MalformedText);
        carrierState := Lost(carrierState);
      } else if a.outcome.state != CancelRequested || a.outcome.terminal {
        v := Rejected(BadCancelOutcome);
        carrierState := Lost(carrierState);
      } else if runtimeState == Terminal {
        v := Accepted;
      } else if runtimeState == Failed {
        v := Rejected(SessionFailedDuringCancel);
      } else {
        v := Accepted;
        runtimeState := a.outcome.state;
      }
    }

    method CompleteClose(failed: bool)
      requires Valid()
      modifies this`carrierState
      ensures Valid() && View() == BidiModel.CompleteClose(old(View()), failed)
    {
      if failed {
        carrierState := CarrierFailed;
      } else {
        carrierState := CarrierClosed;
      }
    }
  }
}
