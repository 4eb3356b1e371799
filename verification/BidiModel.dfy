/** The locked halves of every public operation of the bidirectional session,
    as functions on the session's fields.  An operation takes the lock, checks
    and marks itself as begun, drops the lock for the transport call, and takes
    the lock again to complete with the transport's answer.

    Each completing half is given by its verdict, and the new session field by
    field from that verdict. */
module BidiModel {
  import opened Common

  const MAX_BIDI_BUFFERED_FRAMES: int := 1024

  datatype BidiState =
    | Created | Opening | Open | CancelRequested | HalfClosedLocal
    | HalfClosedRemote | Terminal | Closed | Cancelled | Failed

  datatype CarrierState = CarrierOpen | CarrierClosing | CarrierClosed | CarrierFailed

  /** A frame's kind text: the kinds the session looks at have a name of their own. */
  datatype Kind = NoKind | RemoteCloseSend | TerminalKind | ErrorKind | CancelledKind | OtherKind(text: string)

  datatype Frame = Frame(
    sequence: nat, kind: Kind, terminal: bool, transportTerminal: bool,
    payload: string, error: string, terminalReceipt: string)

  datatype TerminalFrame = TerminalFrame(
    sessionID: string, frameType: Kind, sequence: nat,
    payload: string, error: string, terminalReceipt: string)

  datatype Outcome = Outcome(sessionID: string, state: BidiState, terminal: bool)

  /** Open metadata, after JSON decoding; a state of None is an absent field. */
  datatype OpenMetadata = OpenMetadata(sessionID: string, state: Option<BidiState>, maxBuffered: int)

  /** How a transport call can fail.  An interruption is a cancelled or expired
      context or an error carrying the Cancelled or Timeout code. */
  datatype Fault = Interruption | NotImplemented | OtherFault

  /** What a transport call gives back: an error, a text that is not JSON of the
      right shape, or a text with these fields. */
  datatype FrameAnswer = FrameFault(fault: Fault) | FrameGarbled | FrameText(frame: Frame)
  datatype OutcomeAnswer = OutcomeFault(fault: Fault) | OutcomeGarbled | OutcomeText(outcome: Outcome)

  datatype Error =
    | CarrierNotOpen | SendPathCancelled | SendPathClosed | SendInProgress | ReceiveInProgress
    | SessionTerminal | CloseInProgress | TransportFault(fault: Fault) | MalformedText
    | CompletedAfterSendPathClosed | SequenceRequired | NotStrictlyOrdered
    | BecameTerminalDuringReceive | NotATerminalFrame | CloseSendClaimsTerminality | BadCancelOutcome
    | SessionFailedDuringCancel | CancelNotImplemented

  /** One direction's bounded history and last recorded sequence number. */
  datatype Track = Track(window: seq<Frame>, last: nat)

  datatype Session = Session(
    sessionID: string, maxBuffered: int, runtime: BidiState, carrier: CarrierState,
    outbound: Track, inbound: Track, terminalFrame: Option<TerminalFrame>,
    localHalfClose: bool, remoteHalfClose: bool, sending: bool, receiving: bool)

  datatype Verdict = Accepted | AlreadyClosed | Rejected(error: Error)

  // ---------------------------------------------------------------- decoding

  function OpenSession(m: OpenMetadata): Option<Session> {
    var state := if m.state.None? then Opening else m.state.value;
    var maxBuffered := if m.maxBuffered == 0 then MAX_BIDI_BUFFERED_FRAMES else m.maxBuffered;
    if m.sessionID == "" || (state != Opening && state != Open) || maxBuffered < 0 then None
    else Some(Session(m.sessionID, maxBuffered, state, CarrierOpen, Track([], 0), Track([], 0), None,
                      false, false, false, false))
  }

  /** The sequence field is a Go `uint64`, so a larger number does not decode. */
  predicate DecodesAsFrame(f: Frame) {
    !f.kind.NoKind? && 0 < f.sequence < UINT64_LIMIT
  }

  predicate DecodesAsOutcome(o: Outcome) {
    && o.sessionID != ""
    && !(o.state.Created? || o.state.Opening? || o.state.Open?)
    && (o.state.CancelRequested? ==> !o.terminal)
    && (o.state.Terminal? || o.state.Cancelled? || o.state.Closed? || o.state.Failed? ==> o.terminal)
  }

  function TerminalFrameType(f: Frame): Kind {
    if f.kind.TerminalKind? || f.kind.ErrorKind? || f.kind.CancelledKind? then f.kind
    else if f.error != "" then ErrorKind
    else TerminalKind
  }

  function ProjectTerminalFrame(sessionID: string, f: Frame): Option<TerminalFrame> {
    if sessionID == "" || !f.terminal then None
    else Some(TerminalFrame(sessionID, TerminalFrameType(f), f.sequence, f.payload, f.error, f.terminalReceipt))
  }

  // ----------------------------------------------------------- small helpers

  predicate RuntimeTerminal(r: BidiState) {
    r.Terminal? || r.Cancelled? || r.Failed?
  }

  /** Which errors also report the carrier as lost. */
  predicate BreaksCarrier(v: Verdict) {
    match v
    case Accepted => false
    case AlreadyClosed => false
    case Rejected(TransportFault(fault)) => !fault.Interruption?
    case Rejected(error) =>
      || error.MalformedText? || error.SequenceRequired? || error.NotStrictlyOrdered?
      || error.NotATerminalFrame? || error.CloseSendClaimsTerminality? || error.BadCancelOutcome?
  }

  /** Losing the carrier only matters while it is open. */
  function CarrierAfter(c: CarrierState, v: Verdict): CarrierState {
    if c.CarrierOpen? && BreaksCarrier(v) then CarrierFailed else c
  }

  /** The window that `retainBidiFrame` leaves after adding one frame. */
  function Retain(history: seq<Frame>, frame: Frame, limit: int): seq<Frame> {
    if limit <= 0 || |history| < limit then history + [frame]
    else history[|history| - limit + 1..] + [frame]
  }

  /** What the strict-order check says of the next frame of a direction. */
  function OrderCheck(t: Track, f: Frame): Verdict {
    if f.sequence == 0 then Rejected(SequenceRequired)
    else if f.sequence <= t.last then Rejected(NotStrictlyOrdered)
    else Accepted
  }

  function Record(t: Track, f: Frame, limit: int): Track {
    Track(Retain(t.window, f, limit), f.sequence)
  }

  // ------------------------------------------------------------ begin halves

  function SendGate(s: Session): Verdict {
    if !s.carrier.CarrierOpen? then Rejected(CarrierNotOpen)
    else if s.runtime.HalfClosedLocal? then Rejected(SendPathCancelled)
    else if !s.runtime.Open? && !s.runtime.HalfClosedRemote? then Rejected(SendPathClosed)
    else if s.sending then Rejected(SendInProgress)
    else Accepted
  }

  function CloseSendGate(s: Session): Verdict {
    if !s.carrier.CarrierOpen? then Rejected(CarrierNotOpen)
    else if !s.runtime.Open? && !s.runtime.HalfClosedRemote? then Rejected(SendPathClosed)
    else if s.sending then Rejected(SendInProgress)
    else Accepted
  }

  function ReceiveGate(s: Session): Verdict {
    if !s.carrier.CarrierOpen? then Rejected(CarrierNotOpen)
    else if RuntimeTerminal(s.runtime) then Rejected(SessionTerminal)
    else if s.receiving then Rejected(ReceiveInProgress)
    else Accepted
  }

  function CancelGate(s: Session): Verdict {
    if !s.carrier.CarrierOpen? then Rejected(CarrierNotOpen)
    else if RuntimeTerminal(s.runtime) then Rejected(SessionTerminal)
    else Accepted
  }

  function CloseGate(s: Session): Verdict {
    if s.carrier.CarrierClosed? then AlreadyClosed
    else if s.carrier.CarrierClosing? then Rejected(CloseInProgress)
    else Accepted
  }

  function BeginSend(s: Session): Session {
    s.(sending := s.sending || SendGate(s).Accepted?)
  }

  function BeginCloseSend(s: Session): Session {
    s.(sending := s.sending || CloseSendGate(s).Accepted?)
  }

  function BeginReceive(s: Session): Session {
    s.(receiving := s.receiving || ReceiveGate(s).Accepted?)
  }

  function BeginClose(s: Session): Session {
    s.(carrier := if CloseGate(s).Accepted? then CarrierClosing else s.carrier)
  }

  // --------------------------------------------------------- complete halves

  function SendVerdict(s: Session, a: FrameAnswer): Verdict {
    match a
    case FrameFault(fault) => Rejected(TransportFault(fault))
    case FrameGarbled => Rejected(MalformedText)
    case FrameText(f) =>
      if !DecodesAsFrame(f) then Rejected(MalformedText)
      else if RuntimeTerminal(s.runtime) || s.runtime.CancelRequested? then Rejected(CompletedAfterSendPathClosed)
      else OrderCheck(s.outbound, f)
  }

  function CompleteSend(s: Session, a: FrameAnswer): Session {
    var v := SendVerdict(s, a);
    s.(sending := false,
       carrier := CarrierAfter(s.carrier, v),
       outbound := if v.Accepted? && a.FrameText? then Record(s.outbound, a.frame, s.maxBuffered) else s.outbound)
  }

  /** The frame of an answer that gets past the terminal and the order check. */
  predicate Recorded(s: Session, a: FrameAnswer) {
    && a.FrameText? && DecodesAsFrame(a.frame)
    && !(RuntimeTerminal(s.runtime) && !a.frame.terminal)
    && OrderCheck(s.inbound, a.frame).Accepted?
  }

  function ReceiveVerdict(s: Session, a: FrameAnswer): Verdict {
    match a
    case FrameFault(fault) => Rejected(TransportFault(fault))
    case FrameGarbled => Rejected(MalformedText)
    case FrameText(f) =>
      if !DecodesAsFrame(f) then Rejected(MalformedText)
      else if RuntimeTerminal(s.runtime) && !f.terminal then Rejected(BecameTerminalDuringReceive)
      else if OrderCheck(s.inbound, f).Rejected? then OrderCheck(s.inbound, f)
      else if f.terminal && ProjectTerminalFrame(s.sessionID, f).None? then Rejected(NotATerminalFrame)
      else Accepted
  }

  /** The provider lifecycle moves only on frames the session accepts. */
  function RuntimeAfterFrame(s: Session, f: Frame): BidiState {
    if f.transportTerminal then s.runtime
    else if f.terminal then Terminal
    else if f.kind.RemoteCloseSend? then if s.localHalfClose then s.runtime else HalfClosedRemote
    else if s.runtime.Opening? then Open
    else s.runtime
  }

  function CompleteReceive(s: Session, a: FrameAnswer): Session {
    var v := ReceiveVerdict(s, a);
    var recorded := Recorded(s, a);
    var accepted := v.Accepted? && a.FrameText?;
    s.(receiving := false,
       inbound := if recorded then Record(s.inbound, a.frame, s.maxBuffered) else s.inbound,
       carrier := if recorded && a.frame.transportTerminal then CarrierFailed else CarrierAfter(s.carrier, v),
       runtime := if accepted then RuntimeAfterFrame(s, a.frame) else s.runtime,
       remoteHalfClose := s.remoteHalfClose ||
         (accepted && a.frame.kind.RemoteCloseSend? && !a.frame.terminal && !a.frame.transportTerminal),
       terminalFrame :=
         if accepted && a.frame.terminal then ProjectTerminalFrame(s.sessionID, a.frame) else s.terminalFrame)
  }

  function CloseSendVerdict(s: Session, a: OutcomeAnswer): Verdict {
    match a
    case OutcomeFault(fault) => Rejected(TransportFault(fault))
    case OutcomeGarbled => Rejected(MalformedText)
    case OutcomeText(o) =>
      if !DecodesAsOutcome(o) then Rejected(MalformedText)
      else if !o.state.HalfClosedLocal? || o.terminal then Rejected(CloseSendClaimsTerminality)
      else Accepted
  }

  /** A close-send that completes after a terminal frame or a cancel request
      reports success and closes nothing. */
  function CompleteCloseSend(s: Session, a: OutcomeAnswer): Session {
    var v := CloseSendVerdict(s, a);
    var closes := v.Accepted? && !RuntimeTerminal(s.runtime) && !s.runtime.CancelRequested?;
    s.(sending := false,
       carrier := CarrierAfter(s.carrier, v),
       localHalfClose := s.localHalfClose || closes,
       runtime := if closes then HalfClosedLocal else s.runtime)
  }

  /** A cancel that the transport does not implement leaves the carrier alone. */
  function CancelVerdict(s: Session, a: OutcomeAnswer): Verdict {
    match a
    case OutcomeFault(fault) => Rejected(if fault.NotImplemented? then CancelNotImplemented else TransportFault(fault))
    case OutcomeGarbled => Rejected(MalformedText)
    case OutcomeText(o) =>
      if !DecodesAsOutcome(o) then Rejected(MalformedText)
      else if !o.state.CancelRequested? || o.terminal then Rejected(BadCancelOutcome)
      else if s.runtime.Failed? then Rejected(SessionFailedDuringCancel)
      else Accepted
  }

  function CompleteCancel(s: Session, a: OutcomeAnswer): Session {
    var v := CancelVerdict(s, a);
    s.(carrier := CarrierAfter(s.carrier, v),
       runtime := if v.Accepted? && !s.runtime.Terminal? then CancelRequested else s.runtime)
  }

  function CompleteClose(s: Session, failed: bool): Session {
    s.(carrier := if failed then CarrierFailed else CarrierClosed)
  }
}
