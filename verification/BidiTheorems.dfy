/** What the session promises over every interleaving: each statement takes an
    opened session, any steps before and any steps after. */
module BidiTheorems {
  import opened Common
  import opened BidiModel
  import opened BidiRuns

  // --------------------------------------------------- what one step may undo

  /** A send may begin in this world or in some continuation of it. */
  predicate SendPossible(s: Session) {
    && s.carrier.CarrierOpen?
    && (s.runtime.Opening? || s.runtime.Open? || s.runtime.HalfClosedRemote? ||
        (s.runtime.CancelRequested? && !s.localHalfClose && s.inbound.last < UINT64_LIMIT - 1))
  }

  /** What, once true of `w`, is still true of `w'`. */
  ghost predicate Leads(w: World, w': World) {
    var s, s' := w.session, w'.session;
    && (s'.carrier.CarrierOpen? ==> s.carrier.CarrierOpen?)
    && (Ended(w.receivedLog) ==> w'.receivedLog == w.receivedLog && s'.inbound == s.inbound)
    && (s.runtime.Terminal? ==> s'.runtime.Terminal? && s'.terminalFrame == s.terminalFrame)
    && (s.localHalfClose ==> s'.localHalfClose && w'.sentLog == w.sentLog && s'.outbound == s.outbound)
    && (SendPossible(s') ==> SendPossible(s))
  }

  lemma {:induction false} FinishReceiveLeads(w: World, a: FrameAnswer)
    requires Inv(w)
    ensures Leads(w, OnFinishReceive(w, a))
  {
  }

  lemma {:induction false} FinishSendLeads(w: World, a: FrameAnswer)
    requires Inv(w)
    ensures Leads(w, OnFinishSend(w, a))
  {
  }

  lemma {:induction false} FinishOutcomeLeads(w: World, a: OutcomeAnswer)
    requires Inv(w)
    ensures Leads(w, OnFinishCloseSend(w, a))
    ensures Leads(w, OnFinishCancel(w, a))
  {
  }

  lemma {:induction false} StartLeads(w: World)
    requires Inv(w)
    ensures Leads(w, OnStartSend(w)) && Leads(w, OnStartCloseSend(w)) && Leads(w, OnStartReceive(w))
  {
  }

  lemma {:induction false} CarrierLeads(w: World, failed: bool)
    requires Inv(w)
    ensures Leads(w, OnStartCancel(w)) && Leads(w, OnStartClose(w)) && Leads(w, OnFinishClose(w, failed))
  {
  }

  lemma {:induction false} StepLeads(w: World, step: Step)
    requires Inv(w)
    ensures Leads(w, Next(w, step))
  {
    match step
    case FinishSend(a) => FinishSendLeads(w, a);
    case FinishReceive(a) => FinishReceiveLeads(w, a);
    case FinishCloseSend(a) => FinishOutcomeLeads(w, a);
    case FinishCancel(a) => FinishOutcomeLeads(w, a);
    case StartSend => StartLeads(w);
    case StartCloseSend => StartLeads(w);
    case StartReceive => StartLeads(w);
    case StartCancel => CarrierLeads(w, false);
    case StartClose => CarrierLeads(w, false);
    case FinishClose(failed) => CarrierLeads(w, failed);
  }

  lemma {:induction false} RunLeads(w: World, steps: seq<Step>)
    requires Inv(w)
    ensures Inv(Run(w, steps)) && Leads(w, Run(w, steps))
    decreases |steps|
  {
    if steps != [] {
      StepKeepsInv(w, steps[0]);
      StepLeads(w, steps[0]);
      RunLeads(Next(w, steps[0]), steps[1..]);
    }
  }

  lemma Reached(w0: World, before: seq<Step>, after: seq<Step>) returns (w: World, w': World)
    requires Initial(w0)
    ensures w == Run(w0, before) && w' == Run(w, after)
    ensures Inv(w) && Inv(w') && Leads(w, w')
  {
    InitialInv(w0);
    RunKeepsInv(w0, before);
    w := Run(w0, before);
    RunLeads(w, after);
    w' := Run(w, after);
  }

  // ---------------------------------------------------------------- theorems

  /** Once a terminal or transport-terminal frame is recorded nothing more is
      ever received, Terminal is never left, and at most one frame of a run ends
      the stream. */
  lemma TerminalFrameIsFinal(w0: World, before: seq<Step>, after: seq<Step>)
    requires Initial(w0)
    ensures var w := Run(w0, before);
            var w' := Run(w, after);
            && ((exists f :: f in w.receivedLog && EndsStream(f)) ==>
                  w'.receivedLog == w.receivedLog && w'.session.inbound == w.session.inbound)
            && (w.session.runtime == Terminal ==>
                  w'.session.runtime == Terminal && w'.session.terminalFrame == w.session.terminalFrame)
            && (forall i, j | 0 <= i < |w.receivedLog| && 0 <= j < |w.receivedLog| ::
                  EndsStream(w.receivedLog[i]) && EndsStream(w.receivedLog[j]) ==> i == j)
  {
    var w, w' := Reached(w0, before, after);
  }

  /** Terminal is entered exactly by a terminal frame that is not a transport
      terminal, and the stored terminal frame is the projection of that frame. */
  lemma TerminalMeansTerminalFrame(w0: World, before: seq<Step>)
    requires Initial(w0)
    ensures var w := Run(w0, before);
            var log := w.receivedLog;
            && (w.session.runtime == Terminal <==>
                  log != [] && log[|log| - 1].terminal && !log[|log| - 1].transportTerminal)
            && (w.session.terminalFrame.Some? ==>
                  log != [] && log[|log| - 1].terminal &&
                  w.session.terminalFrame == ProjectTerminalFrame(w.session.sessionID, log[|log| - 1]))
  {
    var w, _ := Reached(w0, before, []);
  }

  /** Once the local half-close is set no send or close-send begins again, and
      the sent history and last sent number stand still, whatever is in flight. */
  lemma LocalHalfCloseIsFinal(w0: World, before: seq<Step>, after: seq<Step>)
    requires Initial(w0)
    requires Run(w0, before).session.localHalfClose
    ensures var w := Run(w0, before);
            var w' := Run(w, after);
            && w'.session.localHalfClose
            && SendGate(w'.session).Rejected? && CloseSendGate(w'.session).Rejected?
            && w'.sendOp == NoSend
            && w'.sentLog == w.sentLog && w'.session.outbound == w.session.outbound
  {
    var w, w' := Reached(w0, before, after);
  }

  /** The carrier never reopens; runtime states stay within six; the two
      half-closed states mean what their names say. */
  lemma ReachableStates(w0: World, before: seq<Step>, after: seq<Step>)
    requires Initial(w0)
    ensures var w := Run(w0, before);
            var w' := Run(w, after);
            && (!w.session.carrier.CarrierOpen? ==> !w'.session.carrier.CarrierOpen?)
            && w.session.runtime in
                 {Opening, Open, HalfClosedLocal, HalfClosedRemote, CancelRequested, Terminal}
            && (w.session.runtime == HalfClosedRemote ==> w.session.remoteHalfClose && !w.session.localHalfClose)
            && (w.session.runtime == HalfClosedLocal ==> w.session.localHalfClose)
  {
    var w, w' := Reached(w0, before, after);
  }

  /** Only a decoded provider answer moves the runtime state: local failures,
      interruptions and the local close never do. */
  predicate CarriesProviderText(step: Step) {
    || (step.FinishReceive? && step.frame.FrameText?)
    || (step.FinishCloseSend? && step.closed.OutcomeText?)
    || (step.FinishCancel? && step.cancelled.OutcomeText?)
  }

  lemma {:induction false} LocalStepsKeepRuntime(w: World, step: Step)
    requires !CarriesProviderText(step)
    ensures Next(w, step).session.runtime == w.session.runtime
  {
    match step
    case FinishSend(a) => assert OnFinishSend(w, a).session.runtime == w.session.runtime;
    case FinishReceive(a) => assert OnFinishReceive(w, a).session.runtime == w.session.runtime;
    case FinishCloseSend(a) => assert OnFinishCloseSend(w, a).session.runtime == w.session.runtime;
    case FinishCancel(a) => assert OnFinishCancel(w, a).session.runtime == w.session.runtime;
    case _ =>
  }

  /** A run of local steps only, of any length, leaves the runtime state alone. */
  lemma {:induction false} LocalRunsKeepRuntime(w: World, steps: seq<Step>)
    requires forall i :: 0 <= i < |steps| ==> !CarriesProviderText(steps[i])
    ensures Run(w, steps).session.runtime == w.session.runtime
    decreases |steps|
  {
    if steps != [] {
      LocalStepsKeepRuntime(w, steps[0]);
      LocalRunsKeepRuntime(Next(w, steps[0]), steps[1..]);
    }
  }

  /** The shifted histories are the last `maxBuffered` recorded frames, which
      are strictly increasing and end at the stored last number. */
  lemma HistoriesAreTails(w0: World, before: seq<Step>)
    requires Initial(w0)
    ensures var w := Run(w0, before);
            && w.session.maxBuffered > 0
            && w.session.outbound.window == LastN(w.sentLog, w.session.maxBuffered)
            && w.session.inbound.window == LastN(w.receivedLog, w.session.maxBuffered)
            && Ascending(w.sentLog) && w.session.outbound.last == LastSequence(w.sentLog)
            && Ascending(w.receivedLog) && w.session.inbound.last == LastSequence(w.receivedLog)
  {
    var w, _ := Reached(w0, before, []);
  }

  /** Three of the errors a completing half can report are never reported. */
  lemma DefensiveErrorsNeverFire(w0: World, before: seq<Step>, a: FrameAnswer)
    requires Initial(w0)
    ensures var w := Run(w0, before);
            && (w.receiveInFlight ==>
                  && ReceiveVerdict(w.session, a) != Rejected(BecameTerminalDuringReceive)
                  && ReceiveVerdict(w.session, a) != Rejected(NotATerminalFrame)
                  && ReceiveVerdict(w.session, a) != Rejected(SequenceRequired))
            && (w.sendOp == SendInFlight ==> SendVerdict(w.session, a) != Rejected(SequenceRequired))
  {
    var w, _ := Reached(w0, before, []);
  }

  // ------------------------------------------- does close-send close the send?

  ghost predicate SomeSendBegins(w: World) {
    exists steps :: SendGate(Run(w, steps).session).Accepted?
  }

  function ClosingRemoteFrame(sequence: nat): Frame {
    Frame(sequence, RemoteCloseSend, false, false, "", "", "")
  }

  lemma RunSplits(w: World, first: seq<Step>, rest: seq<Step>)
    ensures Run(w, first + rest) == Run(Run(w, first), rest)
    decreases |first|
  {
    if first == [] {
      assert first + rest == rest;
    } else {
      assert (first + rest)[1..] == first[1..] + rest;
      RunSplits(Next(w, first[0]), first[1..], rest);
    }
  }

  lemma RunOne(w: World, step: Step)
    ensures Run(w, [step]) == Next(w, step)
  {
    assert [step][1..] == [];
  }

  lemma RunTwo(w: World, first: Step, second: Step)
    ensures Run(w, [first, second]) == Next(Next(w, first), second)
  {
    assert [first, second][1..] == [second];
    RunOne(Next(w, first), second);
  }

  /** Interrupting what is being sent frees the send slot and nothing else. */
  lemma {:induction false} FreeTheSender(w: World) returns (steps: seq<Step>)
    requires Inv(w)
    ensures Run(w, steps).session == w.session.(sending := false)
  {
    match w.sendOp
    case NoSend => steps := [];
    case SendInFlight =>
      steps := [FinishSend(FrameFault(Interruption))];
      RunOne(w, steps[0]);
      assert OnFinishSend(w, FrameFault(Interruption)).session == w.session.(sending := false);
    case CloseSendInFlight =>
      steps := [FinishCloseSend(OutcomeFault(Interruption))];
      RunOne(w, steps[0]);
      assert OnFinishCloseSend(w, OutcomeFault(Interruption)).session == w.session.(sending := false);
  }

  /** From Opening or CancelRequested a half-close of the peer opens the send path. */
  lemma {:induction false} PeerHalfCloseOpensSend(w: World) returns (steps: seq<Step>)
    requires Inv(w) && SendPossible(w.session) && !w.session.sending
    requires !w.session.runtime.Open? && !w.session.runtime.HalfClosedRemote?
    ensures SendGate(Run(w, steps).session).Accepted?
  {
    var answer := FrameText(ClosingRemoteFrame(w.session.inbound.last + 1));
    var w1 := OnStartReceive(w);
    steps := [StartReceive, FinishReceive(answer)];
    RunTwo(w, StartReceive, FinishReceive(answer));
    assert w1.receiveInFlight && w1.session.inbound == w.session.inbound;
    assert Recorded(w1.session, answer);
    assert OnFinishReceive(w1, answer).session.runtime == HalfClosedRemote;
  }

  /** Whether a send can still begin, in this world or any later one, is decided
      by the session's present fields. */
  lemma SendBeginsIffPossible(w0: World, before: seq<Step>)
    requires Initial(w0)
    ensures var w := Run(w0, before); SomeSendBegins(w) <==> SendPossible(w.session)
  {
    var w, _ := Reached(w0, before, []);
    if SendPossible(w.session) {
      var freed := FreeTheSender(w);
      RunKeepsInv(w, freed);
      var w1 := Run(w, freed);
      var resume: seq<Step> := [];
      if !SendGate(w1.session).Accepted? {
        resume := PeerHalfCloseOpensSend(w1);
      }
      RunSplits(w, freed, resume);
      assert SendGate(Run(w, freed + resume).session).Accepted?;
    }
    forall steps ensures SendGate(Run(w, steps).session).Accepted? ==> SendPossible(w.session) {
      RunLeads(w, steps);
    }
  }

  /** A successful close-send ends sending for good exactly when it does not meet
      an open carrier with a pending cancel request and room for one more frame. */
  lemma CloseSendIsFinalIff(w0: World, before: seq<Step>, o: Outcome)
    requires Initial(w0)
    requires Run(w0, before).sendOp == CloseSendInFlight
    requires CloseSendVerdict(Run(w0, before).session, OutcomeText(o)).Accepted?
    ensures var w := Run(w0, before);
            var s := w.session;
            SomeSendBegins(Next(w, FinishCloseSend(OutcomeText(o)))) <==>
              s.carrier == CarrierOpen && s.runtime == CancelRequested && s.inbound.last < UINT64_LIMIT - 1
  {
    var w, _ := Reached(w0, before, []);
    var step := FinishCloseSend(OutcomeText(o));
    RunSplits(w0, before, [step]);
    RunOne(w, step);
    SendBeginsIffPossible(w0, before + [step]);
    assert Next(w, step) == OnFinishCloseSend(w, OutcomeText(o));
  }

  /** A close-send that succeeds, and a send that begins after it. */
  ghost predicate SendsAfterCloseSend(w0: World, before: seq<Step>, o: Outcome, after: seq<Step>) {
    var w := Run(w0, before);
    && Initial(w0) && w.sendOp == CloseSendInFlight
    && CloseSendVerdict(w.session, OutcomeText(o)).Accepted?
    && SendGate(Run(Next(w, FinishCloseSend(OutcomeText(o))), after).session).Accepted?
  }

  /** The cancel is requested while a close-send is in flight. */
  lemma {:induction false} CancelOvertakesCloseSend(w0: World) returns (before: seq<Step>)
    requires Initial(w0) && w0.session.runtime == Open
    ensures Run(w0, before).sendOp == CloseSendInFlight
    ensures Run(w0, before).session == w0.session.(sending := true, runtime := CancelRequested)
  {
    var requested := OutcomeText(Outcome("s", CancelRequested, false));
    before := [StartCloseSend] + [StartCancel, FinishCancel(requested)];
    RunSplits(w0, [StartCloseSend], [StartCancel, FinishCancel(requested)]);
    RunOne(w0, StartCloseSend);
    var w1 := OnStartCloseSend(w0);
    assert w1.session == w0.session.(sending := true) && w1.sendOp == CloseSendInFlight;
    RunTwo(w1, StartCancel, FinishCancel(requested));
    var w2 := OnStartCancel(w1);
    assert w2 == w1.(cancels := w1.cancels + 1);
    assert OnFinishCancel(w2, requested).session == w1.session.(runtime := CancelRequested);
  }

  /** Such a run exists, and the peer's half-close is what lets the send begin. */
  lemma CloseSendThenSend()
    ensures exists w0, before, o, after :: SendsAfterCloseSend(w0, before, o, after)
  {
    var s := Session("s", 4, Open, CarrierOpen, Track([], 0), Track([], 0), None, false, false, false, false);
    var w0 := World(s, NoSend, false, 0, 0, [], []);
    assert OpenSession(OpenMetadata("s", Some(Open), 4)) == Some(s);
    var before := CancelOvertakesCloseSend(w0);
    var o := Outcome("s", HalfClosedLocal, false);
    CloseSendIsFinalIff(w0, before, o);
    var w := Next(Run(w0, before), FinishCloseSend(OutcomeText(o)));
    var after :| SendGate(Run(w, after).session).Accepted?;
    assert SendsAfterCloseSend(w0, before, o, after);
  }
}
