/** The direct bidi transport under the session: what it hands to the wire
    stream over every interleaving of the session's operations with the
    transport's own calls and with a close from any side. */
module DirectNumbering {
  import opened Common
  import opened BidiModel
  import opened BidiRuns

  /** The transport's fields, the sequence numbers it has handed to the stream
      (frame 0 is the open frame), and whether the last one was its own EOF. */
  datatype Transport = Transport(
    closed: bool, sendClosed: bool, lastUpSequence: uint64, handed: seq<nat>, eof: bool)

  const OPENED: Transport := Transport(false, false, 0, [0], false)

  /** What the stream says of a frame handed to it. */
  datatype StreamResult = StreamOk | StreamError(fault: Fault)

  function SendUp(t: Transport, f: Frame, encodes: bool, stream: StreamResult): (Transport, FrameAnswer) {
    if !DecodesAsFrame(f) || !encodes || t.closed then (t, FrameFault(OtherFault))
    else if t.sendClosed then (t, FrameFault(Interruption))
    else if f.sequence != Increment(t.lastUpSequence) then (t, FrameFault(OtherFault))
    else
      (t.(lastUpSequence := f.sequence, handed := t.handed + [f.sequence]),
       if stream.StreamOk? then FrameText(f) else FrameFault(stream.fault))
  }

  function CloseSendUp(t: Transport, sessionID: string, stream: StreamResult): (Transport, OutcomeAnswer) {
    if t.closed then (t, OutcomeFault(OtherFault))
    else if t.sendClosed then (t, OutcomeFault(Interruption))
    else
      var sequence := Increment(t.lastUpSequence);
      (t.(lastUpSequence := sequence, sendClosed := true, handed := t.handed + [sequence], eof := true),
       if stream.StreamOk? then OutcomeText(Outcome(sessionID, HalfClosedLocal, false))
       else OutcomeFault(stream.fault))
  }

  function CloseTransport(t: Transport): Transport {
    if t.closed then t else t.(closed := true, sendClosed := true)
  }

  /** The transport call, if any, that the session's send slot stands for. */
  datatype Call =
    | NoCall
    | Sending(frame: Frame) | Sent(ack: FrameAnswer)
    | ClosingSend | ClosedSend(outcome: OutcomeAnswer)

  datatype Direct = Direct(world: World, transport: Transport, call: Call)

  datatype DirectStep =
    | CallSend(frame: Frame) | WireSend(encodes: bool, sendResult: StreamResult) | ReturnSend
    | CallCloseSend | WireCloseSend(sessionID: string, closeResult: StreamResult) | ReturnCloseSend
    | WireClose
    | Other(step: Step)

  predicate TouchesSendSlot(step: Step) {
    step.StartSend? || step.FinishSend? || step.StartCloseSend? || step.FinishCloseSend?
  }

  function OnCallSend(d: Direct, f: Frame): Direct {
    d.(world := OnStartSend(d.world), call := if SendGate(d.world.session).Accepted? then Sending(f) else d.call)
  }

  function OnWireSend(d: Direct, encodes: bool, stream: StreamResult): Direct {
    if !d.call.Sending? then d else
    var (t, ack) := SendUp(d.transport, d.call.frame, encodes, stream);
    d.(transport := t, call := Sent(ack))
  }

  function OnReturnSend(d: Direct): Direct {
    if !d.call.Sent? then d else d.(world := OnFinishSend(d.world, d.call.ack), call := NoCall)
  }

  function OnCallCloseSend(d: Direct): Direct {
    d.(world := OnStartCloseSend(d.world),
       call := if CloseSendGate(d.world.session).Accepted? then ClosingSend else d.call)
  }

  function OnWireCloseSend(d: Direct, sessionID: string, stream: StreamResult): Direct {
    if !d.call.ClosingSend? then d else
    var (t, outcome) := CloseSendUp(d.transport, sessionID, stream);
    d.(transport := t, call := ClosedSend(outcome))
  }

  function OnReturnCloseSend(d: Direct): Direct {
    if !d.call.ClosedSend? then d else d.(world := OnFinishCloseSend(d.world, d.call.outcome), call := NoCall)
  }

  function NextDirect(d: Direct, st: DirectStep): Direct {
    match st
    case CallSend(f) => OnCallSend(d, f)
    case WireSend(encodes, stream) => OnWireSend(d, encodes, stream)
    case ReturnSend => OnReturnSend(d)
    case CallCloseSend => OnCallCloseSend(d)
    case WireCloseSend(sessionID, stream) => OnWireCloseSend(d, sessionID, stream)
    case ReturnCloseSend => OnReturnCloseSend(d)
    case WireClose => d.(transport := CloseTransport(d.transport))
    case Other(step) => if TouchesSendSlot(step) then d else d.(world := Next(d.world, step))
  }

  function RunDirect(d: Direct, steps: seq<DirectStep>): Direct
    decreases |steps|
  {
    if steps == [] then d else RunDirect(NextDirect(d, steps[0]), steps[1..])
  }

  ghost predicate InitialDirect(d: Direct) {
    Initial(d.world) && d.transport == OPENED && d.call == NoCall
  }

  // --------------------------------------------------------------- invariant

  /** The numbers handed to the stream are 0, 1, 2, ... in Go's `uint64`. */
  ghost predicate CountsFromZero(handed: seq<nat>) {
    forall i :: 0 <= i < |handed| ==> handed[i] == i % UINT64_LIMIT
  }

  ghost predicate TransportInv(t: Transport) {
    && t.handed != [] && CountsFromZero(t.handed)
    && t.lastUpSequence == (|t.handed| - 1) % UINT64_LIMIT
    && (t.eof ==> t.sendClosed)
    && (!t.eof ==> |t.handed| <= UINT64_LIMIT)
  }

  ghost predicate CallInv(d: Direct) {
    var last := d.world.session.outbound.last;
    && (d.call.NoCall? <==> d.world.sendOp == NoSend)
    && (d.call.Sending? || d.call.Sent? <==> d.world.sendOp == SendInFlight)
    && (d.call.ClosingSend? || d.call.ClosedSend? <==> d.world.sendOp == CloseSendInFlight)
    && last < |d.transport.handed|
    && (d.call.Sent? && d.call.ack.FrameText? ==>
          last < d.call.ack.frame.sequence == |d.transport.handed| - 1)
  }

  ghost predicate DirectInv(d: Direct) {
    Inv(d.world) && TransportInv(d.transport) && CallInv(d)
  }

  /** The next number handed over continues the count, wrapping at most once. */
  lemma NextNumberCounts(handed: seq<nat>, last: uint64)
    requires handed != [] && CountsFromZero(handed) && last == (|handed| - 1) % UINT64_LIMIT
    ensures Increment(last) == |handed| % UINT64_LIMIT
    ensures CountsFromZero(handed + [Increment(last)])
  {
    assert Increment(last) == ((|handed| - 1) % UINT64_LIMIT + 1) % UINT64_LIMIT;
  }

  lemma SendUpKeepsTransport(t: Transport, f: Frame, encodes: bool, stream: StreamResult)
    requires TransportInv(t)
    ensures var (t', ack) := SendUp(t, f, encodes, stream);
            && TransportInv(t')
            && |t.handed| <= |t'.handed|
            && (ack.FrameText? ==> ack.frame.sequence == |t'.handed| - 1 == |t.handed|)
  {
    NextNumberCounts(t.handed, t.lastUpSequence);
  }

  lemma CloseSendUpKeepsTransport(t: Transport, sessionID: string, stream: StreamResult)
    requires TransportInv(t)
    ensures TransportInv(CloseSendUp(t, sessionID, stream).0)
    ensures |t.handed| <= |CloseSendUp(t, sessionID, stream).0.handed|
  {
    NextNumberCounts(t.handed, t.lastUpSequence);
  }

  lemma {:induction false} WireSendKeepsInv(d: Direct, encodes: bool, stream: StreamResult)
    requires DirectInv(d)
    ensures DirectInv(OnWireSend(d, encodes, stream))
  {
    if d.call.Sending? {
      SendUpKeepsTransport(d.transport, d.call.frame, encodes, stream);
    }
  }

  lemma {:induction false} ReturnSendKeepsInv(d: Direct)
    requires DirectInv(d)
    ensures DirectInv(OnReturnSend(d))
  {
    if d.call.Sent? {
      StepKeepsInv(d.world, FinishSend(d.call.ack));
    }
  }

  lemma {:induction false} WireCloseSendKeepsInv(d: Direct, sessionID: string, stream: StreamResult)
    requires DirectInv(d)
    ensures DirectInv(OnWireCloseSend(d, sessionID, stream))
  {
    CloseSendUpKeepsTransport(d.transport, sessionID, stream);
  }

  lemma {:induction false} ReturnCloseSendKeepsInv(d: Direct)
    requires DirectInv(d)
    ensures DirectInv(OnReturnCloseSend(d))
  {
    if d.call.ClosedSend? {
      StepKeepsInv(d.world, FinishCloseSend(d.call.outcome));
    }
  }

  lemma {:induction false} CallSendKeepsInv(d: Direct, f: Frame)
    requires DirectInv(d)
    ensures DirectInv(OnCallSend(d, f))
  {
    StepKeepsInv(d.world, StartSend);
  }

  lemma {:induction false} CallCloseSendKeepsInv(d: Direct)
    requires DirectInv(d)
    ensures DirectInv(OnCallCloseSend(d))
  {
    StepKeepsInv(d.world, StartCloseSend);
  }

  lemma {:induction false} OtherKeepsSendSlot(w: World, step: Step)
    requires !TouchesSendSlot(step)
    ensures Next(w, step).sendOp == w.sendOp && Next(w, step).session.outbound == w.session.outbound
  {
    match step
    case FinishReceive(a) => assert Next(w, step) == OnFinishReceive(w, a);
    case FinishCancel(a) => assert Next(w, step) == OnFinishCancel(w, a);
    case _ =>
  }

  lemma {:induction false} StepKeepsDirectInv(d: Direct, st: DirectStep)
    requires DirectInv(d)
    ensures DirectInv(NextDirect(d, st))
  {
    match st
    case CallSend(f) => CallSendKeepsInv(d, f);
    case WireSend(encodes, stream) => WireSendKeepsInv(d, encodes, stream);
    case ReturnSend => ReturnSendKeepsInv(d);
    case CallCloseSend => CallCloseSendKeepsInv(d);
    case WireCloseSend(sessionID, stream) => WireCloseSendKeepsInv(d, sessionID, stream);
    case ReturnCloseSend => ReturnCloseSendKeepsInv(d);
    case WireClose =>
    case Other(step) =>
      if !TouchesSendSlot(step) {
        StepKeepsInv(d.world, step);
        OtherKeepsSendSlot(d.world, step);
      }
  }

  /** Once the EOF is handed over no step hands over anything. */
  lemma {:induction false} StepKeepsEof(d: Direct, st: DirectStep)
    requires TransportInv(d.transport) && d.transport.eof
    ensures NextDirect(d, st).transport.eof && NextDirect(d, st).transport.handed == d.transport.handed
  {
    match st
    case WireSend(encodes, stream) => assert NextDirect(d, st) == OnWireSend(d, encodes, stream);
    case WireCloseSend(sessionID, stream) => assert NextDirect(d, st) == OnWireCloseSend(d, sessionID, stream);
    case _ =>
  }

  lemma {:induction false} RunKeepsDirectInv(d: Direct, steps: seq<DirectStep>)
    requires DirectInv(d)
    ensures DirectInv(RunDirect(d, steps))
    decreases |steps|
  {
    if steps != [] {
      StepKeepsDirectInv(d, steps[0]);
      RunKeepsDirectInv(NextDirect(d, steps[0]), steps[1..]);
    }
  }

  lemma {:induction false} NothingFollowsEof(d: Direct, steps: seq<DirectStep>)
    requires DirectInv(d) && d.transport.eof
    ensures RunDirect(d, steps).transport.handed == d.transport.handed
    decreases |steps|
  {
    if steps != [] {
      StepKeepsDirectInv(d, steps[0]);
      StepKeepsEof(d, steps[0]);
      NothingFollowsEof(NextDirect(d, steps[0]), steps[1..]);
    }
  }

  // ---------------------------------------------------------------- theorems

  /** Over every run the stream is handed 0, 1, 2, ..., a completed send is
      never refused by the session's order check, and once close-send has handed
      its EOF nothing follows it. */
  lemma StreamNumberingIsContiguous(d0: Direct, before: seq<DirectStep>, after: seq<DirectStep>)
    requires InitialDirect(d0)
    ensures var d := RunDirect(d0, before);
            var d' := RunDirect(d, after);
            && CountsFromZero(d.transport.handed)
            && (d.call.Sent? ==>
                  && SendVerdict(d.world.session, d.call.ack) != Rejected(NotStrictlyOrdered)
                  && SendVerdict(d.world.session, d.call.ack) != Rejected(SequenceRequired))
            && (d.transport.eof ==> d'.transport.handed == d.transport.handed)
  {
    InitialInv(d0.world);
    RunKeepsDirectInv(d0, before);
    if RunDirect(d0, before).transport.eof {
      NothingFollowsEof(RunDirect(d0, before), after);
    }
  }

  /** What a send answers and hands over: a well-formed frame with the next number, on an open
      transport with an open send side, goes to the stream and is acknowledged as it is, or
      with the stream's fault; anything else is refused and nothing is handed over.  A closed
      send side is reported as an interruption, everything else as a hard fault. */
  lemma SendIsDecided(t: Transport, f: Frame, encodes: bool, stream: StreamResult)
    ensures var (t', ack) := SendUp(t, f, encodes, stream);
            var encoded := f.kind != NoKind && 0 < f.sequence < UINT64_LIMIT && encodes;
            var next := if t.lastUpSequence == UINT64_LIMIT - 1 then 0 else t.lastUpSequence + 1;
            var goes := encoded && !t.closed && !t.sendClosed && f.sequence == next;
            && t'.handed == (if goes then t.handed + [f.sequence] else t.handed)
            && t' == t.(handed := t'.handed, lastUpSequence := if goes then next else t.lastUpSequence)
            && (goes ==> ack == if stream.StreamOk? then FrameText(f) else FrameFault(stream.fault))
            && (!goes ==> ack == FrameFault(if encoded && !t.closed && t.sendClosed then Interruption else OtherFault))
  {
  }

  /** What a close-send answers and hands over: on an open transport with an open send side
      the EOF takes the next number, even when the stream then fails. */
  lemma CloseSendIsDecided(t: Transport, sessionID: string, stream: StreamResult)
    ensures var (t', outcome) := CloseSendUp(t, sessionID, stream);
            var next := if t.lastUpSequence == UINT64_LIMIT - 1 then 0 else t.lastUpSequence + 1;
            if t.closed || t.sendClosed then
              t' == t && outcome == OutcomeFault(if t.closed then OtherFault else Interruption)
            else
              && t' == Transport(false, true, next, t.handed + [next], true)
              && outcome == if stream.StreamOk? then OutcomeText(Outcome(sessionID, HalfClosedLocal, false))
                            else OutcomeFault(stream.fault)
  {
  }

  /** A closed transport hands nothing over any more, and says so; closing hands over nothing. */
  lemma CloseStopsTheTransport(t: Transport, f: Frame, encodes: bool, sessionID: string, stream: StreamResult)
    ensures var c := CloseTransport(t);
            && c.handed == t.handed && c.lastUpSequence == t.lastUpSequence && c.eof == t.eof
            && c.closed && (!t.closed ==> c.sendClosed) && (t.closed ==> c == t)
            && SendUp(c, f, encodes, stream) == (c, FrameFault(OtherFault))
            && CloseSendUp(c, sessionID, stream) == (c, OutcomeFault(OtherFault))
  {
  }

  /** The transport object; the wire stream is outside, so what it was handed is ghost. */
  class DirectBidiTransport {
    var closed: bool
    var sendClosed: bool
    var lastUpSequence: uint64
    ghost var handed: seq<nat>
    ghost var eof: bool

    ghost function View(): Transport
      reads this
    {
      Transport(closed, sendClosed, lastUpSequence, handed, eof)
    }

    constructor ()
      ensures View() == OPENED
    {
      closed, sendClosed, lastUpSequence := false, false, 0;
      handed, eof := [0], false;
    }

    method Send(f: Frame, encodes: bool, stream: StreamResult) returns (ack: FrameAnswer)
      modifies this
      ensures (View(), ack) == SendUp(old(View()), f, encodes, stream)
    {
      if !DecodesAsFrame(f) || !encodes || closed {
        return FrameFault(OtherFault);
      }
      if sendClosed {
        return FrameFault(Interruption);
      }
      if f.sequence != Increment(lastUpSequence) {
        return FrameFault(OtherFault);
      }
      lastUpSequence := f.sequence;
      handed := handed + [f.sequence];
      if stream.StreamError? {
        return FrameFault(stream.fault);
      }
      return FrameText(f);
    }

    method CloseSend(sessionID: string, stream: StreamResult) returns (outcome: OutcomeAnswer)
      modifies this
      ensures (View(), outcome) == CloseSendUp(old(View()), sessionID, stream)
    {
      if closed {
        return OutcomeFault(OtherFault);
      }
      if sendClosed {
        return OutcomeFault(Interruption);
      }
      lastUpSequence := Increment(lastUpSequence);
      sendClosed := true;
      handed, eof := handed + [lastUpSequence], true;
      if stream.StreamError? {
        return OutcomeFault(stream.fault);
      }
      return OutcomeText(Outcome(sessionID, HalfClosedLocal, false));
    }

    method Close()
      modifies this
      ensures View() == CloseTransport(old(View()))
    {
      if closed {
        return;
      }
      closed, sendClosed := true, true;
    }
  }
}
