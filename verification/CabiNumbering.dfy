/** The C ABI bidi transport numbers the frames it delivers.  Composed with the
    session's strict receive order over every interleaving: the numbers are
    1, 2, 3, ... and never refused, unless a callback text reached the session
    without being numbered. */
module CabiNumbering {
  import opened Common
  import opened BidiModel
  import opened BidiRuns

  /** What the transport's receive gets from the callback inbox.  A text that
      decodes as a generic JSON object is projected, which replaces its sequence
      number; a text that does not is handed on as it came.  A text of None is
      one the session cannot decode as a frame. */
  datatype Callback =
    | InboxFault(fault: Fault)
    | Projected(text: Option<Frame>)
    | Unprojected(text: Option<Frame>)

  function AllocateSequence(next: uint64, observed: Option<uint64>): (uint64, uint64) {
    if observed.Some? && observed.value > 0 then
      (observed.value, if next <= observed.value then Increment(observed.value) else next)
    else
      (next, Increment(next))
  }

  /** The answer the session sees, and the transport's next number.  A bidi
      receive never passes an observed number. */
  function Deliver(next: uint64, c: Callback): (FrameAnswer, uint64) {
    match c
    case InboxFault(fault) => (FrameFault(fault), next)
    case Unprojected(text) => (if text.Some? then FrameText(text.value) else FrameGarbled, next)
    case Projected(text) =>
      var (sequence, next') := AllocateSequence(next, None);
      (if text.Some? then FrameText(text.value.(sequence := sequence)) else FrameGarbled, next')
  }

  /** The session, the transport's counter, and how many recorded frames were
      never numbered. */
  datatype Numbered = Numbered(world: World, next: uint64, unnumbered: nat)

  datatype CabiStep = Receive(callback: Callback) | Other(step: Step)

  function OnReceive(n: Numbered, c: Callback): Numbered {
    if !n.world.receiveInFlight then n else
    var (a, next') := Deliver(n.next, c);
    Numbered(OnFinishReceive(n.world, a), next',
             if c.Unprojected? && Recorded(n.world.session, a) then n.unnumbered + 1 else n.unnumbered)
  }

  function NextNumbered(n: Numbered, st: CabiStep): Numbered {
    match st
    case Receive(c) => OnReceive(n, c)
    case Other(step) => if step.FinishReceive? then n else n.(world := Next(n.world, step))
  }

  function RunNumbered(n: Numbered, steps: seq<CabiStep>): Numbered
    decreases |steps|
  {
    if steps == [] then n else RunNumbered(NextNumbered(n, steps[0]), steps[1..])
  }

  ghost predicate InitialNumbered(n: Numbered) {
    Initial(n.world) && n.next == 1 && n.unnumbered == 0
  }

  // --------------------------------------------------------------- invariant

  ghost predicate CountsUp(log: seq<Frame>) {
    forall i :: 0 <= i < |log| ==> log[i].sequence == i + 1
  }

  /** Some further receive may still complete. */
  predicate Receivable(w: World) {
    w.session.carrier.CarrierOpen? || w.receiveInFlight
  }

  /** How the counter stands to the log; `last` is the last recorded number. */
  ghost predicate Numbering(log: seq<Frame>, last: nat, next: nat, unnumbered: nat, receivable: bool) {
    && (unnumbered == 0 ==> CountsUp(log))
    && (receivable && unnumbered == 0 ==> next == (|log| + 1) % UINT64_LIMIT)
    && (receivable && unnumbered > 0 ==> 1 <= next <= last)
  }

  ghost predicate NumberedInv(n: Numbered) {
    && Inv(n.world)
    && Numbering(n.world.receivedLog, n.world.session.inbound.last, n.next, n.unnumbered, Receivable(n.world))
  }

  lemma {:induction false} OtherStepKeepsReceiving(w: World, step: Step)
    requires Inv(w) && !step.FinishReceive?
    ensures var w' := Next(w, step);
            && w'.receivedLog == w.receivedLog && w'.session.inbound == w.session.inbound
            && (Receivable(w') ==> Receivable(w))
  {
    match step
    case FinishSend(a) => assert Next(w, step) == OnFinishSend(w, a);
    case FinishCloseSend(a) => assert Next(w, step) == OnFinishCloseSend(w, a);
    case FinishCancel(a) => assert Next(w, step) == OnFinishCancel(w, a);
    case StartReceive => assert Next(w, step) == OnStartReceive(w);
    case _ =>
  }

  /** With a receive in flight the session is not terminal. */
  lemma {:induction false} ReceivingIsLive(w: World)
    requires Inv(w) && w.receiveInFlight
    ensures !RuntimeTerminal(w.session.runtime) && !Ended(w.receivedLog)
  {
  }

  lemma {:induction false} CountBoundsLog(n: Numbered)
    requires NumberedInv(n) && n.unnumbered == 0
    ensures |n.world.receivedLog| == n.world.session.inbound.last < UINT64_LIMIT
  {
    var log := n.world.receivedLog;
    if log != [] {
      assert log[|log| - 1].sequence == |log|;
    }
  }

  /** The effect of one receive on what the invariant looks at. */
  lemma {:induction false} ReceiveEffect(w: World, a: FrameAnswer)
    requires Inv(w) && w.receiveInFlight
    ensures var w' := OnFinishReceive(w, a);
            && !w'.receiveInFlight
            && (Recorded(w.session, a) ==>
                  w'.receivedLog == w.receivedLog + [a.frame] && w'.session.inbound.last == a.frame.sequence)
            && (!Recorded(w.session, a) ==>
                  w'.receivedLog == w.receivedLog && w'.session.inbound == w.session.inbound)
            && (w'.session.carrier.CarrierOpen? ==>
                  w.session.carrier.CarrierOpen? && (Recorded(w.session, a) || a == FrameFault(Interruption)))
  {
    ReceivingIsLive(w);
    var v := ReceiveVerdict(w.session, a);
    if !Recorded(w.session, a) && a != FrameFault(Interruption) {
      assert BreaksCarrier(v);
    }
  }

  /** Recording one more frame, numbered or not, on the counters alone. */
  lemma NumberingAfterRecord(log: seq<Frame>, last: nat, next: uint64, unnumbered: nat, f: Frame, projected: bool)
    requires Numbering(log, last, next, unnumbered, true)
    requires unnumbered == 0 ==> |log| == last
    requires last < f.sequence < UINT64_LIMIT
    requires projected ==> f.sequence == next
    ensures Numbering(log + [f], f.sequence, if projected then Increment(next) else next,
                      if projected then unnumbered else unnumbered + 1, true)
  {
  }

  lemma {:induction false} RecordKeepsNumbering(n: Numbered, c: Callback)
    requires NumberedInv(n) && n.world.receiveInFlight
    requires Recorded(n.world.session, Deliver(n.next, c).0)
    ensures NumberedInv(OnReceive(n, c))
  {
    var a := Deliver(n.next, c).0;
    StepKeepsInv(n.world, FinishReceive(a));
    ReceiveEffect(n.world, a);
    if n.unnumbered == 0 {
      CountBoundsLog(n);
    }
    NumberingAfterRecord(n.world.receivedLog, n.world.session.inbound.last, n.next, n.unnumbered, a.frame, c.Projected?);
  }

  lemma {:induction false} RefusalKeepsNumbering(n: Numbered, c: Callback)
    requires NumberedInv(n) && n.world.receiveInFlight
    requires !Recorded(n.world.session, Deliver(n.next, c).0)
    ensures NumberedInv(OnReceive(n, c))
  {
    var a := Deliver(n.next, c).0;
    StepKeepsInv(n.world, FinishReceive(a));
    ReceiveEffect(n.world, a);
  }

  lemma {:induction false} ReceiveKeepsNumbering(n: Numbered, c: Callback)
    requires NumberedInv(n)
    ensures NumberedInv(OnReceive(n, c))
  {
    if n.world.receiveInFlight {
      var a := Deliver(n.next, c).0;
      if Recorded(n.world.session, a) {
        RecordKeepsNumbering(n, c);
      } else {
        RefusalKeepsNumbering(n, c);
      }
    }
  }

  lemma {:induction false} StepKeepsNumbering(n: Numbered, st: CabiStep)
    requires NumberedInv(n)
    ensures NumberedInv(NextNumbered(n, st))
  {
    match st
    case Receive(c) => ReceiveKeepsNumbering(n, c);
    case Other(step) =>
      if !step.FinishReceive? {
        StepKeepsInv(n.world, step);
        OtherStepKeepsReceiving(n.world, step);
      }
  }

  lemma {:induction false} RunKeepsNumbering(n: Numbered, steps: seq<CabiStep>)
    requires NumberedInv(n)
    ensures NumberedInv(RunNumbered(n, steps))
    decreases |steps|
  {
    if steps != [] {
      StepKeepsNumbering(n, steps[0]);
      RunKeepsNumbering(NextNumbered(n, steps[0]), steps[1..]);
    }
  }

  // ---------------------------------------------------------------- theorems

  /** While every recorded frame was numbered, the received sequence is exactly
      1, 2, 3, ... */
  lemma ReceivedFramesCountUp(n0: Numbered, steps: seq<CabiStep>)
    requires InitialNumbered(n0)
    requires RunNumbered(n0, steps).unnumbered == 0
    ensures CountsUp(RunNumbered(n0, steps).world.receivedLog)
    ensures RunNumbered(n0, steps).world.session.inbound.last == |RunNumbered(n0, steps).world.receivedLog|
  {
    InitialInv(n0.world);
    RunKeepsNumbering(n0, steps);
    CountBoundsLog(RunNumbered(n0, steps));
  }

  /** A numbered frame is refused by the order check exactly when some frame
      before it was recorded without being numbered. */
  lemma NumberedFrameRefusedIff(n0: Numbered, steps: seq<CabiStep>, f: Frame)
    requires InitialNumbered(n0)
    requires RunNumbered(n0, steps).world.receiveInFlight
    ensures var n := RunNumbered(n0, steps);
            var a := Deliver(n.next, Projected(Some(f))).0;
            (ReceiveVerdict(n.world.session, a) == Rejected(NotStrictlyOrdered) <==>
             n.unnumbered > 0 && !f.kind.NoKind?)
  {
    InitialInv(n0.world);
    RunKeepsNumbering(n0, steps);
    var n := RunNumbered(n0, steps);
    ReceivingIsLive(n.world);
    if n.unnumbered == 0 {
      CountBoundsLog(n);
    }
  }

  lemma RunNumberedOne(n: Numbered, st: CabiStep, rest: seq<CabiStep>)
    ensures RunNumbered(n, [st] + rest) == RunNumbered(NextNumbered(n, st), rest)
  {
    assert ([st] + rest)[1..] == rest;
  }

  ghost predicate RefusesNumberedFrame(n0: Numbered, steps: seq<CabiStep>, f: Frame) {
    var n := RunNumbered(n0, steps);
    && InitialNumbered(n0) && n.world.receiveInFlight
    && ReceiveVerdict(n.world.session, Deliver(n.next, Projected(Some(f))).0) == Rejected(NotStrictlyOrdered)
  }

  /** Such a run exists: the runtime sends a text whose payload number the
      generic decoding cannot hold, and the next frame is refused. */
  lemma UnnumberedTextBreaksNumbering()
    ensures exists n0, steps, f :: RefusesNumberedFrame(n0, steps, f)
  {
    var s := Session("s", 4, Open, CarrierOpen, Track([], 0), Track([], 0), None, false, false, false, false);
    assert OpenSession(OpenMetadata("s", Some(Open), 4)) == Some(s);
    var w := World(s, NoSend, false, 0, 0, [], []);
    var n0 := Numbered(w, 1, 0);
    var f := Frame(5, OtherKind("data"), false, false, "", "", "");
    var start, deliver := Other(StartReceive), Receive(Unprojected(Some(f)));
    var steps := [start] + ([deliver] + ([start] + []));
    var w1 := OnStartReceive(w);
    assert w1 == w.(session := s.(receiving := true), receiveInFlight := true);
    assert Recorded(w1.session, FrameText(f));
    var n2 := OnReceive(Numbered(w1, 1, 0), Unprojected(Some(f)));
    assert n2.unnumbered == 1 && n2.world.session.carrier.CarrierOpen? && n2.world.session.runtime == Open;
    assert OnStartReceive(n2.world).receiveInFlight;
    RunNumberedOne(n0, start, [deliver] + ([start] + []));
    RunNumberedOne(Numbered(w1, 1, 0), deliver, [start] + []);
    RunNumberedOne(n2, start, []);
    assert RunNumbered(n0, steps) == n2.(world := OnStartReceive(n2.world));
    NumberedFrameRefusedIff(n0, steps, f);
    assert RefusesNumberedFrame(n0, steps, f);
  }

  /** Two allocations in a row never repeat a number, short of a wrap: an observed number is
      handed out as it is and the counter moves past it, never back; without one the counter
      itself is handed out and moves on by one. */
  lemma AllocationsMoveOn(next: uint64, observed: Option<uint64>)
    ensures var (sequence, after) := AllocateSequence(next, observed);
            var seen := observed.Some? && observed.value != 0;
            && sequence == (if seen then observed.value else next)
            && (sequence < UINT64_LIMIT - 1 && next < UINT64_LIMIT - 1 ==> after > sequence && after >= next)
            && (sequence < UINT64_LIMIT - 1 && next < UINT64_LIMIT - 1 ==> after == next || after == sequence + 1)
            && (sequence == UINT64_LIMIT - 1 ==> after == 0)
            && (!seen && next < UINT64_LIMIT - 1 ==> after == next + 1)
  {
  }

  /** The transport's counter, behind its own lock. */
  class SequenceCounter {
    var nextRecvSeq: uint64

    constructor ()
      ensures nextRecvSeq == 1
    {
      nextRecvSeq := 1;
    }

    method Allocate(observed: Option<uint64>) returns (sequence: uint64)
      modifies this
      ensures (sequence, nextRecvSeq) == AllocateSequence(old(nextRecvSeq), observed)
    {
      if observed.Some? && observed.value > 0 {
        if nextRecvSeq <= observed.value {
          nextRecvSeq := Increment(observed.value);
        }
        return observed.value;
      }
      sequence := nextRecvSeq;
      nextRecvSeq := Increment(nextRecvSeq);
    }
  }
}
