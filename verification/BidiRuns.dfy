/** Every interleaving of the session's locked halves, with any transport
    answers, and what holds over all of them. */
module BidiRuns {
  import opened Common
  import opened BidiModel

  datatype SendOp = NoSend | SendInFlight | CloseSendInFlight

  /** A session, the operations whose transport call is still running, and the
      full sequences of frames the session has recorded. */
  datatype World = World(
    session: Session, sendOp: SendOp, receiveInFlight: bool, cancels: nat, closes: nat,
    sentLog: seq<Frame>, receivedLog: seq<Frame>)

  datatype Step =
    | StartSend | FinishSend(ack: FrameAnswer)
    | StartReceive | FinishReceive(frame: FrameAnswer)
    | StartCloseSend | FinishCloseSend(closed: OutcomeAnswer)
    | StartCancel | FinishCancel(cancelled: OutcomeAnswer)
    | StartClose | FinishClose(failed: bool)

  ghost predicate Initial(w: World) {
    exists m :: OpenSession(m) == Some(w.session) && w == World(w.session, NoSend, false, 0, 0, [], [])
  }

  /** The frame that moved a direction's last sequence number, if one did. */
  function Logged(before: Track, after: Track, a: FrameAnswer): seq<Frame> {
    if before.last != after.last && a.FrameText? then [a.frame] else []
  }

  // One function per step.  A completion without an operation in flight is no step.

  function OnStartSend(w: World): World {
    var gate := SendGate(w.session);
    w.(session := BeginSend(w.session), sendOp := if gate.Accepted? then SendInFlight else w.sendOp)
  }

  function OnFinishSend(w: World, a: FrameAnswer): World {
    if w.sendOp != SendInFlight then w else
    var s' := CompleteSend(w.session, a);
    w.(session := s', sendOp := NoSend,
       sentLog := w.sentLog + Logged(w.session.outbound, s'.outbound, a))
  }

  function OnStartReceive(w: World): World {
    var gate := ReceiveGate(w.session);
    w.(session := BeginReceive(w.session), receiveInFlight := w.receiveInFlight || gate.Accepted?)
  }

  function OnFinishReceive(w: World, a: FrameAnswer): World {
    if !w.receiveInFlight then w else
    var s' := CompleteReceive(w.session, a);
    w.(session := s', receiveInFlight := false,
       receivedLog := w.receivedLog + Logged(w.session.inbound, s'.inbound, a))
  }

  function OnStartCloseSend(w: World): World {
    var gate := CloseSendGate(w.session);
    w.(session := BeginCloseSend(w.session), sendOp := if gate.Accepted? then CloseSendInFlight else w.sendOp)
  }

  function OnFinishCloseSend(w: World, a: OutcomeAnswer): World {
    if w.sendOp != CloseSendInFlight then w else
    w.(session := CompleteCloseSend(w.session, a), sendOp := NoSend)
  }

  function OnStartCancel(w: World): World {
    if CancelGate(w.session).Accepted? then w.(cancels := w.cancels + 1) else w
  }

  function OnFinishCancel(w: World, a: OutcomeAnswer): World {
    if w.cancels == 0 then w else
    w.(session := CompleteCancel(w.session, a), cancels := w.cancels - 1)
  }

  function OnStartClose(w: World): World {
    var gate := CloseGate(w.session);
    w.(session := BeginClose(w.session), closes := if gate.Accepted? then w.closes + 1 else w.closes)
  }

  function OnFinishClose(w: World, failed: bool): World {
    if w.closes == 0 then w else
    w.(session := CompleteClose(w.session, failed), closes := w.closes - 1)
  }

  function Next(w: World, step: Step): World {
    match step
    case StartSend => OnStartSend(w)
    case FinishSend(a) => OnFinishSend(w, a)
    case StartReceive => OnStartReceive(w)
    case FinishReceive(a) => OnFinishReceive(w, a)
    case StartCloseSend => OnStartCloseSend(w)
    case FinishCloseSend(a) => OnFinishCloseSend(w, a)
    case StartCancel => OnStartCancel(w)
    case FinishCancel(a) => OnFinishCancel(w, a)
    case StartClose => OnStartClose(w)
    case FinishClose(failed) => OnFinishClose(w, failed)
  }

  function Run(w: World, steps: seq<Step>): World
    decreases |steps|
  {
    if steps == [] then w else Run(Next(w, steps[0]), steps[1..])
  }

  // --------------------------------------------------------------- invariant

  ghost predicate Ascending(log: seq<Frame>) {
    && (forall i :: 0 <= i < |log| ==> 0 < log[i].sequence < UINT64_LIMIT)
    && (forall i, j :: 0 <= i < j < |log| ==> log[i].sequence < log[j].sequence)
  }

  function LastSequence(log: seq<Frame>): nat {
    if log == [] then 0 else log[|log| - 1].sequence
  }

  predicate EndsStream(f: Frame) {
    f.terminal || f.transportTerminal
  }

  /** The stream has been ended by its last recorded frame. */
  predicate Ended(log: seq<Frame>) {
    log != [] && EndsStream(log[|log| - 1])
  }

  ghost predicate OnlyLastEnds(log: seq<Frame>) {
    forall i :: 0 <= i < |log| - 1 ==> !EndsStream(log[i])
  }

  /** The bounded window and the last number of a direction, told from its full log. */
  ghost predicate Tracks(t: Track, log: seq<Frame>, limit: nat) {
    Ascending(log) && t.last == LastSequence(log) && t.window == LastN(log, limit)
  }

  ghost predicate HistoryInv(w: World) {
    var s := w.session;
    && s.maxBuffered > 0
    && Tracks(s.outbound, w.sentLog, s.maxBuffered)
    && Tracks(s.inbound, w.receivedLog, s.maxBuffered)
  }

  ghost predicate LifecycleInv(w: World) {
    var s := w.session;
    && (s.sending <==> w.sendOp != NoSend)
    && (s.receiving <==> w.receiveInFlight)
    && !(s.runtime.Created? || s.runtime.Closed? || s.runtime.Cancelled? || s.runtime.Failed?)
    && (s.runtime == Opening ==> w.sendOp == NoSend && (w.receivedLog == [] || s.carrier != CarrierOpen))
    && (s.runtime == HalfClosedRemote ==> s.remoteHalfClose && !s.localHalfClose)
    && (s.runtime == HalfClosedLocal ==> s.localHalfClose)
    && (s.localHalfClose ==>
          (s.runtime.HalfClosedLocal? || s.runtime.CancelRequested? || s.runtime.Terminal?) && w.sendOp == NoSend)
  }

  ghost predicate EndInv(w: World) {
    var s := w.session;
    && s.sessionID != ""
    && OnlyLastEnds(w.receivedLog)
    && (Ended(w.receivedLog) ==> !s.receiving)
    && (Ended(w.receivedLog) && w.receivedLog[|w.receivedLog| - 1].transportTerminal ==> !s.carrier.CarrierOpen?)
    && (s.runtime == Terminal <==>
          Ended(w.receivedLog) && !w.receivedLog[|w.receivedLog| - 1].transportTerminal)
    && (s.terminalFrame.Some? <==>
          w.receivedLog != [] && w.receivedLog[|w.receivedLog| - 1].terminal)
    && (s.terminalFrame.Some? ==>
          ProjectTerminalFrame(s.sessionID, w.receivedLog[|w.receivedLog| - 1]) == s.terminalFrame)
  }

  ghost predicate Inv(w: World) {
    HistoryInv(w) && LifecycleInv(w) && EndInv(w)
  }

  // ------------------------------------------------------------- step lemmas

  /** The shifted window is the tail of the full log. */
  lemma {:induction false} RetainKeepsTail(log: seq<Frame>, f: Frame, limit: int)
    requires limit > 0
    ensures Retain(LastN(log, limit), f, limit) == LastN(log + [f], limit)
  {
    var window := LastN(log, limit);
    if |log| >= limit {
      assert |window| == limit;
      assert Retain(window, f, limit) == log[|log| - limit + 1..] + [f];
    }
  }

  lemma InitialInv(w: World)
    requires Initial(w)
    ensures Inv(w)
  {
  }

  lemma RecordTracks(t: Track, log: seq<Frame>, f: Frame, limit: int)
    requires limit > 0 && Tracks(t, log, limit)
    requires DecodesAsFrame(f) && OrderCheck(t, f).Accepted?
    ensures Tracks(Record(t, f, limit), log + [f], limit)
  {
    RetainKeepsTail(log, f, limit);
  }

  lemma {:induction false} FinishReceiveKeepsHistory(w: World, a: FrameAnswer)
    requires Inv(w)
    ensures HistoryInv(OnFinishReceive(w, a))
  {
    if Recorded(w.session, a) {
      RecordTracks(w.session.inbound, w.receivedLog, a.frame, w.session.maxBuffered);
    }
  }

  lemma {:induction false} FinishReceiveKeepsLifecycle(w: World, a: FrameAnswer)
    requires Inv(w)
    ensures LifecycleInv(OnFinishReceive(w, a))
  {
  }

  /** A receive in flight finds the stream not ended, and logs exactly what it records. */
  lemma {:induction false} ReceiveLogs(w: World, a: FrameAnswer)
    requires Inv(w) && w.receiveInFlight
    ensures !Ended(w.receivedLog) && w.session.runtime != Terminal && w.session.terminalFrame.None?
    ensures var log' := OnFinishReceive(w, a).receivedLog;
            log' == if Recorded(w.session, a) then w.receivedLog + [a.frame] else w.receivedLog
  {
    var log' := OnFinishReceive(w, a).receivedLog;
    if !Recorded(w.session, a) {
      assert log' == w.receivedLog + [] == w.receivedLog;
    }
  }

  lemma {:induction false} UnrecordedKeepsEnd(w: World, a: FrameAnswer)
    requires Inv(w) && w.receiveInFlight && !Recorded(w.session, a)
    ensures EndInv(OnFinishReceive(w, a))
  {
    ReceiveLogs(w, a);
    var s' := OnFinishReceive(w, a).session;
    assert s'.runtime == w.session.runtime && s'.terminalFrame == w.session.terminalFrame;
  }

  lemma OnlyLastEndsGrows(log: seq<Frame>, f: Frame)
    requires OnlyLastEnds(log) && !Ended(log)
    ensures OnlyLastEnds(log + [f])
  {
  }

  lemma {:induction false} RecordedKeepsEnd(w: World, a: FrameAnswer)
    requires Inv(w) && w.receiveInFlight && Recorded(w.session, a)
    ensures EndInv(OnFinishReceive(w, a))
  {
    ReceiveLogs(w, a);
    OnlyLastEndsGrows(w.receivedLog, a.frame);
    var w' := OnFinishReceive(w, a);
    assert w'.receivedLog[|w'.receivedLog| - 1] == a.frame;
    assert ReceiveVerdict(w.session, a).Accepted?;
    if a.frame.transportTerminal {
      assert w'.session.carrier == CarrierFailed && w'.session.runtime == w.session.runtime;
    } else {
      assert w'.session.runtime == Terminal <==> a.frame.terminal;
    }
  }

  lemma {:induction false} FinishReceiveKeepsEnd(w: World, a: FrameAnswer)
    requires Inv(w)
    ensures EndInv(OnFinishReceive(w, a))
  {
    if w.receiveInFlight {
      if Recorded(w.session, a) {
        RecordedKeepsEnd(w, a);
      } else {
        UnrecordedKeepsEnd(w, a);
      }
    }
  }

  lemma {:induction false} FinishReceiveKeepsInv(w: World, a: FrameAnswer)
    requires Inv(w)
    ensures Inv(OnFinishReceive(w, a))
  {
    FinishReceiveKeepsHistory(w, a);
    FinishReceiveKeepsLifecycle(w, a);
    FinishReceiveKeepsEnd(w, a);
  }

  lemma {:induction false} FinishSendKeepsHistory(w: World, a: FrameAnswer)
    requires Inv(w)
    ensures HistoryInv(OnFinishSend(w, a))
  {
    if SendVerdict(w.session, a).Accepted? {
      RecordTracks(w.session.outbound, w.sentLog, a.frame, w.session.maxBuffered);
    }
  }

  lemma {:induction false} FinishSendKeepsRest(w: World, a: FrameAnswer)
    requires Inv(w)
    ensures LifecycleInv(OnFinishSend(w, a)) && EndInv(OnFinishSend(w, a))
  {
  }

  lemma {:induction false} FinishSendKeepsInv(w: World, a: FrameAnswer)
    requires Inv(w)
    ensures Inv(OnFinishSend(w, a))
  {
    FinishSendKeepsHistory(w, a);
    FinishSendKeepsRest(w, a);
  }

  lemma {:induction false} FinishCloseSendKeepsInv(w: World, a: OutcomeAnswer)
    requires Inv(w)
    ensures Inv(OnFinishCloseSend(w, a))
  {
  }

  lemma {:induction false} FinishCancelKeepsInv(w: World, a: OutcomeAnswer)
    requires Inv(w)
    ensures Inv(OnFinishCancel(w, a))
  {
  }

  lemma {:induction false} StartSendKeepsInv(w: World)
    requires Inv(w)
    ensures Inv(OnStartSend(w))
  {
  }

  lemma {:induction false} StartCloseSendKeepsInv(w: World)
    requires Inv(w)
    ensures Inv(OnStartCloseSend(w))
  {
  }

  lemma {:induction false} StartReceiveKeepsInv(w: World)
    requires Inv(w)
    ensures Inv(OnStartReceive(w))
  {
  }

  lemma {:induction false} StartCancelKeepsInv(w: World)
    requires Inv(w)
    ensures Inv(OnStartCancel(w))
  {
  }

  lemma {:induction false} StartCloseKeepsInv(w: World)
    requires Inv(w)
    ensures Inv(OnStartClose(w))
  {
  }

  lemma {:induction false} FinishCloseKeepsInv(w: World, failed: bool)
    requires Inv(w)
    ensures Inv(OnFinishClose(w, failed))
  {
  }

  lemma {:induction false} StepKeepsInv(w: World, step: Step)
    requires Inv(w)
    ensures Inv(Next(w, step))
  {
    match step
    case StartSend => StartSendKeepsInv(w);
    case FinishSend(a) => FinishSendKeepsInv(w, a);
    case StartReceive => StartReceiveKeepsInv(w);
    case FinishReceive(a) => FinishReceiveKeepsInv(w, a);
    case StartCloseSend => StartCloseSendKeepsInv(w);
    case FinishCloseSend(a) => FinishCloseSendKeepsInv(w, a);
    case StartCancel => StartCancelKeepsInv(w);
    case FinishCancel(a) => FinishCancelKeepsInv(w, a);
    case StartClose => StartCloseKeepsInv(w);
    case FinishClose(failed) => FinishCloseKeepsInv(w, failed);
  }

  /** Everything the invariant says holds in every reachable world. */
  lemma {:induction false} RunKeepsInv(w: World, steps: seq<Step>)
    requires Inv(w)
    ensures Inv(Run(w, steps))
    decreases |steps|
  {
    if steps != [] {
      StepKeepsInv(w, steps[0]);
      RunKeepsInv(Next(w, steps[0]), steps[1..]);
    }
  }
}
