/** Which events move a session, told from the step, the provider's answer and the recorded
    frames: every edge of the runtime state and of the carrier, what is recorded, which
    operations begin, and when the half-close flags are set. */
module BidiEdges {
  import opened Common
  import opened BidiModel
  import opened BidiRuns

  // ------------------------------------------------------------------ events

  /** The frame by which this step made the received log longer. */
  function NewlyReceived(w: World, step: Step): Option<Frame> {
    var log := Next(w, step).receivedLog;
    if |log| > |w.receivedLog| then Some(log[|log| - 1]) else None
  }

  predicate EndsRuntime(f: Option<Frame>) {
    f.Some? && f.value.terminal && !f.value.transportTerminal
  }

  predicate ClosesPeer(f: Option<Frame>) {
    f.Some? && f.value.kind == RemoteCloseSend && !f.value.terminal && !f.value.transportTerminal
  }

  predicate IsOrdinary(f: Option<Frame>) {
    f.Some? && f.value.kind != RemoteCloseSend && !f.value.terminal && !f.value.transportTerminal
  }

  /** A well-formed answer that claims this state and no end. */
  predicate Claims(a: OutcomeAnswer, state: BidiState) {
    a.OutcomeText? && a.outcome.sessionID != "" && a.outcome.state == state && !a.outcome.terminal
  }

  /** A cancel in flight returns a well-formed CancelRequested. */
  predicate CancelSucceeds(w: World, step: Step) {
    step.FinishCancel? && w.cancels > 0 && Claims(step.cancelled, CancelRequested)
  }

  /** A close-send in flight returns a well-formed HalfClosedLocal. */
  predicate CloseSendSucceeds(w: World, step: Step) {
    step.FinishCloseSend? && w.sendOp == CloseSendInFlight && Claims(step.closed, HalfClosedLocal)
  }

  predicate NextNumber(f: Frame, log: seq<Frame>) {
    f.kind != NoKind && LastSequence(log) < f.sequence < UINT64_LIMIT
  }

  // ------------------------------------------------------------- what is recorded

  lemma ReceivedIff(w: World, step: Step)
    requires Inv(w)
    ensures NewlyReceived(w, step).Some? <==>
              step.FinishReceive? && w.receiveInFlight && step.frame.FrameText? && NextNumber(step.frame.frame, w.receivedLog)
    ensures Next(w, step).receivedLog ==
              if NewlyReceived(w, step).Some? then w.receivedLog + [step.frame.frame] else w.receivedLog
    ensures NewlyReceived(w, step).Some? ==> NewlyReceived(w, step).value == step.frame.frame
  {
    match step
    case FinishReceive(a) =>
      assert Next(w, step) == OnFinishReceive(w, a);
      if w.receiveInFlight { ReceiveLogs(w, a); }
    case FinishSend(a) => assert Next(w, step) == OnFinishSend(w, a);
    case FinishCloseSend(a) => assert Next(w, step) == OnFinishCloseSend(w, a);
    case FinishCancel(a) => assert Next(w, step) == OnFinishCancel(w, a);
    case _ =>
  }

  lemma SentIff(w: World, step: Step)
    requires Inv(w)
    ensures Next(w, step).sentLog ==
              if step.FinishSend? && w.sendOp == SendInFlight && step.ack.FrameText? &&
                 w.session.runtime != Terminal && w.session.runtime != CancelRequested &&
                 NextNumber(step.ack.frame, w.sentLog)
              then w.sentLog + [step.ack.frame] else w.sentLog
  {
    match step
    case FinishSend(a) =>
      assert Next(w, step) == OnFinishSend(w, a);
      assert w.sentLog + [] == w.sentLog;
    case FinishReceive(a) => assert Next(w, step) == OnFinishReceive(w, a);
    case FinishCloseSend(a) => assert Next(w, step) == OnFinishCloseSend(w, a);
    case FinishCancel(a) => assert Next(w, step) == OnFinishCancel(w, a);
    case _ =>
  }

  // ------------------------------------------------------ runtime state edges

  /** The edges of the runtime state, state by state, for a step that newly receives `f`,
      completes a close-send or completes a cancel; whatever is not named stays. */
  predicate Edge(s: Session, to: BidiState, f: Option<Frame>, closeSend: bool, cancel: bool) {
    match s.runtime
    case Opening =>
      && (to == Open <==> IsOrdinary(f)) && (to == HalfClosedRemote <==> ClosesPeer(f))
      && (to == Terminal <==> EndsRuntime(f)) && (to == CancelRequested <==> cancel)
      && to != HalfClosedLocal
    case Open =>
      && (to == HalfClosedRemote <==> ClosesPeer(f)) && (to == HalfClosedLocal <==> closeSend)
      && (to == Terminal <==> EndsRuntime(f)) && (to == CancelRequested <==> cancel)
      && to != Opening
    case HalfClosedRemote =>
      && (to == HalfClosedLocal <==> closeSend)
      && (to == Terminal <==> EndsRuntime(f)) && (to == CancelRequested <==> cancel)
      && to != Opening && to != Open
    case HalfClosedLocal =>
      && (to == Terminal <==> EndsRuntime(f)) && (to == CancelRequested <==> cancel)
      && to != Opening && to != Open && to != HalfClosedRemote
    case CancelRequested =>
      && (to == HalfClosedRemote <==> ClosesPeer(f) && !s.localHalfClose)
      && (to == Terminal <==> EndsRuntime(f))
      && to != Opening && to != Open && to != HalfClosedLocal
    case Terminal => to == Terminal
    case _ => false
  }

  ghost predicate RuntimeEdge(w: World, step: Step) {
    Edge(w.session, Next(w, step).session.runtime, NewlyReceived(w, step), CloseSendSucceeds(w, step), CancelSucceeds(w, step))
  }

  predicate KnownState(s: Session) {
    !(s.runtime.Created? || s.runtime.Closed? || s.runtime.Cancelled? || s.runtime.Failed?)
  }

  lemma StayingIsAnEdge(s: Session)
    requires KnownState(s)
    ensures Edge(s, s.runtime, None, false, false)
  {
  }

  lemma ReceiveEdge(w: World, a: FrameAnswer)
    requires Inv(w)
    ensures RuntimeEdge(w, FinishReceive(a))
  {
    ReceivedIff(w, FinishReceive(a));
    assert Next(w, FinishReceive(a)) == OnFinishReceive(w, a);
    if w.receiveInFlight { ReceiveLogs(w, a); }
  }

  lemma CloseSendMoves(s: Session, a: OutcomeAnswer)
    requires KnownState(s) && s.runtime != Opening && (s.localHalfClose ==> s.runtime != HalfClosedRemote && s.runtime != Open)
    requires s.runtime != HalfClosedLocal
    ensures Edge(s, CompleteCloseSend(s, a).runtime, None, Claims(a, HalfClosedLocal), false)
  {
  }

  lemma CloseSendEdge(w: World, a: OutcomeAnswer)
    requires Inv(w)
    ensures RuntimeEdge(w, FinishCloseSend(a))
  {
    ReceivedIff(w, FinishCloseSend(a));
    assert Next(w, FinishCloseSend(a)) == OnFinishCloseSend(w, a);
    if w.sendOp == CloseSendInFlight {
      CloseSendMoves(w.session, a);
    } else {
      StayingIsAnEdge(w.session);
    }
  }

  lemma CancelMoves(s: Session, a: OutcomeAnswer)
    requires KnownState(s)
    ensures Edge(s, CompleteCancel(s, a).runtime, None, false, Claims(a, CancelRequested))
  {
  }

  lemma CancelEdge(w: World, a: OutcomeAnswer)
    requires Inv(w)
    ensures RuntimeEdge(w, FinishCancel(a))
  {
    ReceivedIff(w, FinishCancel(a));
    assert Next(w, FinishCancel(a)) == OnFinishCancel(w, a);
    if w.cancels > 0 {
      CancelMoves(w.session, a);
    } else {
      StayingIsAnEdge(w.session);
    }
  }

  lemma LocalEdge(w: World, step: Step)
    requires Inv(w) && !step.FinishReceive? && !step.FinishCloseSend? && !step.FinishCancel?
    ensures RuntimeEdge(w, step)
  {
    ReceivedIff(w, step);
    if step.FinishSend? { assert Next(w, step) == OnFinishSend(w, step.ack); }
    assert Next(w, step).session.runtime == w.session.runtime;
    StayingIsAnEdge(w.session);
  }

  lemma StepEdge(w: World, step: Step)
    requires Inv(w)
    ensures RuntimeEdge(w, step)
  {
    match step
    case FinishReceive(a) => ReceiveEdge(w, a);
    case FinishCloseSend(a) => CloseSendEdge(w, a);
    case FinishCancel(a) => CancelEdge(w, a);
    case _ => LocalEdge(w, step);
  }

  /** In every run each step moves the runtime state exactly along these edges: Opening is
      left by the first ordinary frame, half-closes come from a recorded remote_close_send or
      a successful close-send, Terminal from a recorded terminal frame, CancelRequested from
      a successful cancel alone, and it is left only for HalfClosedRemote, while the local
      half-close is unset, or Terminal. */
  lemma RuntimeMovesAlongEdges(w0: World, before: seq<Step>, step: Step)
    requires Initial(w0)
    ensures RuntimeEdge(Run(w0, before), step)
  {
    InitialInv(w0);
    RunKeepsInv(w0, before);
    StepEdge(Run(w0, before), step);
  }

  /** In every run a frame is recorded exactly when a call in flight returns it well-formed
      and with a number above the last one, and for a send the send path is still open. */
  lemma RecordedIff(w0: World, before: seq<Step>, step: Step)
    requires Initial(w0)
    ensures var w := Run(w0, before);
            && Next(w, step).receivedLog ==
                 (if step.FinishReceive? && w.receiveInFlight && step.frame.FrameText? &&
                     NextNumber(step.frame.frame, w.receivedLog)
                  then w.receivedLog + [step.frame.frame] else w.receivedLog)
            && Next(w, step).sentLog ==
                 (if step.FinishSend? && w.sendOp == SendInFlight && step.ack.FrameText? &&
                     w.session.runtime != Terminal && w.session.runtime != CancelRequested &&
                     NextNumber(step.ack.frame, w.sentLog)
                  then w.sentLog + [step.ack.frame] else w.sentLog)
  {
    InitialInv(w0);
    RunKeepsInv(w0, before);
    ReceivedIff(Run(w0, before), step);
    SentIff(Run(w0, before), step);
  }

  // ------------------------------------------------------------ half-close flags

  predicate FlagsAfter(s: Session, s': Session, f: Option<Frame>, closeSend: bool) {
    && (s'.localHalfClose <==>
          s.localHalfClose || (closeSend && (s.runtime == Open || s.runtime == HalfClosedRemote)))
    && (s'.remoteHalfClose <==> s.remoteHalfClose || ClosesPeer(f))
  }

  ghost predicate FlagEdge(w: World, step: Step) {
    FlagsAfter(w.session, Next(w, step).session, NewlyReceived(w, step), CloseSendSucceeds(w, step))
  }

  lemma ReceiveFlags(w: World, a: FrameAnswer)
    requires Inv(w)
    ensures FlagEdge(w, FinishReceive(a))
  {
    ReceivedIff(w, FinishReceive(a));
    assert Next(w, FinishReceive(a)) == OnFinishReceive(w, a);
    if w.receiveInFlight { ReceiveLogs(w, a); }
  }

  lemma CloseSendFlags(w: World, a: OutcomeAnswer)
    requires Inv(w)
    ensures FlagEdge(w, FinishCloseSend(a))
  {
    ReceivedIff(w, FinishCloseSend(a));
    assert Next(w, FinishCloseSend(a)) == OnFinishCloseSend(w, a);
    assert FlagsAfter(w.session, OnFinishCloseSend(w, a).session, None, CloseSendSucceeds(w, FinishCloseSend(a)));
  }

  lemma OtherFlags(w: World, step: Step)
    requires Inv(w) && !step.FinishReceive? && !step.FinishCloseSend?
    ensures FlagEdge(w, step)
  {
    ReceivedIff(w, step);
    if step.FinishSend? { assert Next(w, step) == OnFinishSend(w, step.ack); }
    if step.FinishCancel? { assert Next(w, step) == OnFinishCancel(w, step.cancelled); }
    var s' := Next(w, step).session;
    assert s'.localHalfClose == w.session.localHalfClose && s'.remoteHalfClose == w.session.remoteHalfClose;
  }

  lemma StepFlags(w: World, step: Step)
    requires Inv(w)
    ensures FlagEdge(w, step)
  {
    match step
    case FinishReceive(a) => ReceiveFlags(w, a);
    case FinishCloseSend(a) => CloseSendFlags(w, a);
    case _ => OtherFlags(w, step);
  }

  /** In every run the local half-close is set exactly by a close-send that succeeds while the
      send path is open, and the remote one exactly by a recorded remote_close_send. */
  lemma FlagsMoveAlongEdges(w0: World, before: seq<Step>, step: Step)
    requires Initial(w0)
    ensures FlagEdge(Run(w0, before), step)
  {
    InitialInv(w0);
    RunKeepsInv(w0, before);
    StepFlags(Run(w0, before), step);
  }

  // ------------------------------------------------------------------- carrier

  predicate Hard(fault: Fault) {
    fault == NotImplemented || fault == OtherFault
  }

  /** A frame answer that tells of a lost carrier: a fault that is no interruption, a text
      that is no frame, or a frame whose number does not follow. */
  predicate BadFrame(a: FrameAnswer, log: seq<Frame>) {
    match a
    case FrameFault(fault) => Hard(fault)
    case FrameGarbled => true
    case FrameText(f) => !NextNumber(f, log)
  }

  /** An acknowledgement that comes after the send path has closed is not looked at. */
  predicate BadAck(a: FrameAnswer, log: seq<Frame>, runtime: BidiState) {
    && BadFrame(a, log)
    && (a.FrameText? && a.frame.kind != NoKind && 0 < a.frame.sequence < UINT64_LIMIT ==>
          runtime != Terminal && runtime != CancelRequested)
  }

  /** The completing step loses an open carrier. */
  predicate LosesCarrier(w: World, step: Step) {
    match step
    case FinishSend(a) => w.sendOp == SendInFlight && BadAck(a, w.sentLog, w.session.runtime)
    case FinishReceive(a) => w.receiveInFlight && BadFrame(a, w.receivedLog)
    case FinishCloseSend(a) => w.sendOp == CloseSendInFlight && BadCloseSend(a)
    case FinishCancel(a) => w.cancels > 0 && BadCancel(a)
    case _ => false
  }

  /** Where the carrier is after a step, told from the step. */
  function CarrierTo(w: World, step: Step): CarrierState {
    var from := w.session.carrier;
    if step.StartClose? then if from == CarrierOpen || from == CarrierFailed then CarrierClosing else from
    else if step.FinishClose? then
      if w.closes == 0 then from else if step.failed then CarrierFailed else CarrierClosed
    else if NewlyReceived(w, step).Some? && NewlyReceived(w, step).value.transportTerminal then CarrierFailed
    else if from == CarrierOpen && LosesCarrier(w, step) then CarrierFailed
    else from
  }

  lemma AckLosesCarrierIff(s: Session, a: FrameAnswer, log: seq<Frame>)
    requires KnownState(s) && s.outbound.last == LastSequence(log)
    ensures CompleteSend(s, a).carrier ==
              if s.carrier == CarrierOpen && BadAck(a, log, s.runtime) then CarrierFailed else s.carrier
  {
  }

  lemma SendCarrier(w: World, a: FrameAnswer)
    requires Inv(w)
    ensures Next(w, FinishSend(a)).session.carrier == CarrierTo(w, FinishSend(a))
  {
    ReceivedIff(w, FinishSend(a));
    AckLosesCarrierIff(w.session, a, w.sentLog);
    assert Next(w, FinishSend(a)) == OnFinishSend(w, a);
  }

  lemma FrameLosesCarrierIff(s: Session, a: FrameAnswer, log: seq<Frame>)
    requires KnownState(s) && s.runtime != Terminal && s.sessionID != "" && s.inbound.last == LastSequence(log)
    ensures CompleteReceive(s, a).carrier ==
              if Recorded(s, a) then if a.frame.transportTerminal then CarrierFailed else s.carrier
              else if s.carrier == CarrierOpen && BadFrame(a, log) then CarrierFailed else s.carrier
    ensures Recorded(s, a) <==> a.FrameText? && NextNumber(a.frame, log)
  {
  }

  lemma ReceiveCarrier(w: World, a: FrameAnswer)
    requires Inv(w)
    ensures Next(w, FinishReceive(a)).session.carrier == CarrierTo(w, FinishReceive(a))
  {
    ReceivedIff(w, FinishReceive(a));
    assert Next(w, FinishReceive(a)) == OnFinishReceive(w, a);
    if w.receiveInFlight {
      ReceiveLogs(w, a);
      FrameLosesCarrierIff(w.session, a, w.receivedLog);
    }
  }

  predicate BadCloseSend(a: OutcomeAnswer) {
    !(a.OutcomeFault? && a.fault == Interruption) && !Claims(a, HalfClosedLocal)
  }

  predicate BadCancel(a: OutcomeAnswer) {
    !(a.OutcomeFault? && a.fault != OtherFault) && !Claims(a, CancelRequested)
  }

  lemma OutcomesLoseCarrierIff(s: Session, a: OutcomeAnswer)
    requires KnownState(s)
    ensures CompleteCloseSend(s, a).carrier ==
              if s.carrier == CarrierOpen && BadCloseSend(a) then CarrierFailed else s.carrier
    ensures CompleteCancel(s, a).carrier ==
              if s.carrier == CarrierOpen && BadCancel(a) then CarrierFailed else s.carrier
  {
  }

  lemma CloseSendCarrier(w: World, a: OutcomeAnswer)
    requires Inv(w)
    ensures Next(w, FinishCloseSend(a)).session.carrier == CarrierTo(w, FinishCloseSend(a))
  {
    ReceivedIff(w, FinishCloseSend(a));
    OutcomesLoseCarrierIff(w.session, a);
    assert Next(w, FinishCloseSend(a)) == OnFinishCloseSend(w, a);
  }

  lemma CancelCarrier(w: World, a: OutcomeAnswer)
    requires Inv(w)
    ensures Next(w, FinishCancel(a)).session.carrier == CarrierTo(w, FinishCancel(a))
  {
    ReceivedIff(w, FinishCancel(a));
    OutcomesLoseCarrierIff(w.session, a);
    assert Next(w, FinishCancel(a)) == OnFinishCancel(w, a);
  }

  lemma StepCarrier(w: World, step: Step)
    requires Inv(w)
    ensures Next(w, step).session.carrier == CarrierTo(w, step)
  {
    match step
    case FinishSend(a) => SendCarrier(w, a);
    case FinishReceive(a) => ReceiveCarrier(w, a);
    case FinishCloseSend(a) => CloseSendCarrier(w, a);
    case FinishCancel(a) => CancelCarrier(w, a);
    case _ => ReceivedIff(w, step);
  }

  /** In every run the carrier is lost exactly by a hard fault, a malformed or out-of-order
      answer, or a recorded transport terminal; it starts closing exactly by a close on an
      open or failed carrier, and ends as the transport's close says. */
  lemma CarrierMovesAlongEdges(w0: World, before: seq<Step>, step: Step)
    requires Initial(w0)
    ensures Next(Run(w0, before), step).session.carrier == CarrierTo(Run(w0, before), step)
  {
    InitialInv(w0);
    RunKeepsInv(w0, before);
    StepCarrier(Run(w0, before), step);
  }

  // ------------------------------------------------------- which calls begin

  /** In every run a call begins exactly when the carrier is open, the runtime state admits
      it and, except for cancels, no other of its kind is in flight. */
  lemma CallsBeginIff(w0: World, before: seq<Step>)
    requires Initial(w0)
    ensures var w := Run(w0, before);
            var s := w.session;
            var sendable := s.carrier == CarrierOpen && (s.runtime == Open || s.runtime == HalfClosedRemote) && w.sendOp == NoSend;
            && Next(w, StartSend).sendOp == (if sendable then SendInFlight else w.sendOp)
            && Next(w, StartCloseSend).sendOp == (if sendable then CloseSendInFlight else w.sendOp)
            && (Next(w, StartReceive).receiveInFlight <==>
                  w.receiveInFlight || (s.carrier == CarrierOpen && s.runtime != Terminal))
            && Next(w, StartCancel).cancels ==
                 (if s.carrier == CarrierOpen && s.runtime != Terminal then w.cancels + 1 else w.cancels)
            && Next(w, StartClose).closes ==
                 (if s.carrier == CarrierOpen || s.carrier == CarrierFailed then w.closes + 1 else w.closes)
  {
    InitialInv(w0);
    RunKeepsInv(w0, before);
  }

  lemma SendTruth(w: World, a: FrameAnswer)
    requires Inv(w) && w.sendOp == SendInFlight
    ensures SendVerdict(w.session, a).Accepted? <==> |Next(w, FinishSend(a)).sentLog| > |w.sentLog|
  {
    SentIff(w, FinishSend(a));
  }

  lemma ReceiveTruth(w: World, a: FrameAnswer)
    requires Inv(w) && w.receiveInFlight
    ensures ReceiveVerdict(w.session, a).Accepted? <==> |Next(w, FinishReceive(a)).receivedLog| > |w.receivedLog|
  {
    ReceivedIff(w, FinishReceive(a));
    ReceiveLogs(w, a);
  }

  lemma OutcomeTruth(s: Session, o: OutcomeAnswer)
    requires KnownState(s)
    ensures CloseSendVerdict(s, o).Accepted? <==> Claims(o, HalfClosedLocal)
    ensures CancelVerdict(s, o).Accepted? <==> Claims(o, CancelRequested)
  {
  }

  /** In every run a call in flight reports success exactly when it had its effect: a send and
      a receive when the frame is recorded, a close-send and a cancel when the provider claims
      it. */
  lemma AnswersTellTheTruth(w0: World, before: seq<Step>, a: FrameAnswer, o: OutcomeAnswer)
    requires Initial(w0)
    ensures var w := Run(w0, before);
            && (w.sendOp == SendInFlight ==>
                  (SendVerdict(w.session, a).Accepted? <==> |Next(w, FinishSend(a)).sentLog| > |w.sentLog|))
            && (w.receiveInFlight ==>
                  (ReceiveVerdict(w.session, a).Accepted? <==> |Next(w, FinishReceive(a)).receivedLog| > |w.receivedLog|))
            && (CloseSendVerdict(w.session, o).Accepted? <==> Claims(o, HalfClosedLocal))
            && (CancelVerdict(w.session, o).Accepted? <==> Claims(o, CancelRequested))
  {
    InitialInv(w0);
    RunKeepsInv(w0, before);
    var w := Run(w0, before);
    if w.sendOp == SendInFlight { SendTruth(w, a); }
    if w.receiveInFlight { ReceiveTruth(w, a); }
    OutcomeTruth(w.session, o);
  }

  /** Why a call does not begin: a carrier that is not open comes first, then the runtime
      state, then another call in flight. */
  lemma RefusalsAreNamed(s: Session)
    requires KnownState(s)
    ensures s.carrier != CarrierOpen ==>
              && SendGate(s) == CloseSendGate(s) == ReceiveGate(s) == CancelGate(s) == Rejected(CarrierNotOpen)
    ensures s.carrier == CarrierOpen ==>
              && (SendGate(s) == Rejected(SendPathCancelled) <==> s.runtime == HalfClosedLocal)
              && (SendGate(s) == Rejected(SendPathClosed) <==> s.runtime in {Opening, CancelRequested, Terminal})
              && (SendGate(s) == Rejected(SendInProgress) <==> s.runtime in {Open, HalfClosedRemote} && s.sending)
              && (CloseSendGate(s) == Rejected(SendPathClosed) <==>
                    s.runtime in {Opening, CancelRequested, Terminal, HalfClosedLocal})
              && (CloseSendGate(s) == Rejected(SendInProgress) <==> s.runtime in {Open, HalfClosedRemote} && s.sending)
              && (ReceiveGate(s) == Rejected(SessionTerminal) <==> s.runtime == Terminal)
              && (ReceiveGate(s) == Rejected(ReceiveInProgress) <==> s.runtime != Terminal && s.receiving)
              && (CancelGate(s) == Rejected(SessionTerminal) <==> s.runtime == Terminal)
    ensures CloseGate(s) == AlreadyClosed <==> s.carrier == CarrierClosed
    ensures CloseGate(s) == Rejected(CloseInProgress) <==> s.carrier == CarrierClosing
  {
  }

  /** Why a call in flight fails: the transport's own fault, a text that is no frame or
      outcome, a send path closed meanwhile, or a number that does not follow. */
  lemma FailuresAreNamed(s: Session, a: FrameAnswer)
    requires KnownState(s) && s.runtime != Terminal
    ensures a.FrameFault? ==> SendVerdict(s, a) == ReceiveVerdict(s, a) == Rejected(TransportFault(a.fault))
    ensures a.FrameGarbled? || (a.FrameText? && (a.frame.kind == NoKind || a.frame.sequence == 0)) ==>
              SendVerdict(s, a) == ReceiveVerdict(s, a) == Rejected(MalformedText)
    ensures a.FrameText? && a.frame.kind != NoKind && 0 < a.frame.sequence < UINT64_LIMIT ==>
              && (SendVerdict(s, a) == Rejected(CompletedAfterSendPathClosed) <==> s.runtime == CancelRequested)
              && (ReceiveVerdict(s, a) == Rejected(NotStrictlyOrdered) <==> a.frame.sequence <= s.inbound.last)
              && (SendVerdict(s, a) == Rejected(NotStrictlyOrdered) <==>
                    s.runtime != CancelRequested && a.frame.sequence <= s.outbound.last)
  {
  }

  /** Open metadata make a session exactly when they name it, claim Opening, Open or nothing,
      and do not bound it below zero; it starts empty, with 1024 frames by default. */
  lemma OpensIff(m: OpenMetadata)
    ensures OpenSession(m).Some? <==>
              m.sessionID != "" && m.maxBuffered >= 0 && (m.state.None? || m.state == Some(Opening) || m.state == Some(Open))
    ensures OpenSession(m).Some? ==>
              var s := OpenSession(m).value;
              && s.sessionID == m.sessionID && s.maxBuffered == (if m.maxBuffered == 0 then 1024 else m.maxBuffered)
              && s.runtime == (if m.state == Some(Open) then Open else Opening) && s.carrier == CarrierOpen
              && s.outbound == s.inbound == Track([], 0) && s.terminalFrame == None
              && !s.localHalfClose && !s.remoteHalfClose && !s.sending && !s.receiving
  {
  }

  /** In every run a stored terminal frame carries the session's id and the last received
      frame's number, payload, error and receipt; its type is the frame's own kind where that
      is terminal, error or cancelled, and otherwise tells whether there was an error. */
  lemma TerminalFrameIsTheLast(w0: World, before: seq<Step>)
    requires Initial(w0)
    ensures var w := Run(w0, before);
            w.session.terminalFrame.Some? ==>
              && w.receivedLog != []
              && var t, f := w.session.terminalFrame.value, w.receivedLog[|w.receivedLog| - 1];
                 && t.sessionID == w.session.sessionID && t.sequence == f.sequence && t.payload == f.payload
                 && t.error == f.error && t.terminalReceipt == f.terminalReceipt
                 && (f.kind in {TerminalKind, ErrorKind, CancelledKind} ==> t.frameType == f.kind)
                 && (f.kind !in {TerminalKind, ErrorKind, CancelledKind} ==>
                       t.frameType == if f.error == "" then TerminalKind else ErrorKind)
  {
    InitialInv(w0);
    RunKeepsInv(w0, before);
  }
}
