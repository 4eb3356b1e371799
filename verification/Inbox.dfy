/** The bounded queue between the native callbacks and the receiving goroutines.
    Pushing, failing, closing and discarding hold the inbox's mutex, and so does the
    loop that drains it; a receiver holds the mutex only to look for a failure and then
    takes from the queue without it. */
module Inbox {
  import opened Common

  datatype Cause = Backpressure | Reported(error: nat)

  /** Packets are named by the order in which they are pushed.  `released` records the
      release calls made on packets that were not handed over. */
  datatype Box = Box(
    capacity: nat, rawStream: bool, queue: seq<nat>, closed: bool,
    protocolFailure: Option<Cause>, failurePacket: bool, failureDelivered: bool,
    released: multiset<nat>)

  function NewBox(maxItems: int, rawStream: bool): Box {
    Box(if maxItems <= 0 then 1 else maxItems, rawStream, [], false, None, false, false, multiset{})
  }

  // ------------------------------------------- what each critical section does

  predicate Overflows(b: Box) {
    !b.closed && |b.queue| >= b.capacity
  }

  function PushBox(b: Box, packet: nat): Box {
    b.(queue := if b.closed || Overflows(b) then b.queue else b.queue + [packet],
       released := if b.closed || Overflows(b) then b.released + multiset{packet} else b.released,
       protocolFailure := if Overflows(b) && b.rawStream then Some(Backpressure) else b.protocolFailure,
       failurePacket := b.failurePacket || (Overflows(b) && !b.rawStream),
       closed := b.closed || Overflows(b))
  }

  function FailBox(b: Box, error: nat): Box {
    b.(protocolFailure := if b.closed then b.protocolFailure else Some(Reported(error)), closed := true)
  }

  function CloseBox(b: Box): Box {
    b.(closed := true)
  }

  function DrainHead(b: Box): Box
    requires b.queue != []
  {
    b.(queue := b.queue[1..], released := b.released + multiset{b.queue[0]})
  }

  function Drained(b: Box): Box {
    b.(queue := [], released := b.released + multiset(b.queue))
  }

  /** The failure that a receiver finds when it looks. */
  function PendingFailure(b: Box): Option<Cause> {
    if b.failureDelivered then None
    else if b.protocolFailure.Some? then b.protocolFailure
    else if b.failurePacket then Some(Backpressure)
    else None
  }

  function TakeFailure(b: Box): Box
    requires PendingFailure(b).Some?
  {
    b.(failureDelivered := true, failurePacket := b.failurePacket && b.protocolFailure.Some?)
  }

  // ------------------------------------------------------------------ steps

  datatype Outcome = Packet(id: nat) | Failed(cause: Cause) | ClosedError | ContextError

  /** `draining`: a drain loop holds the mutex.  `waiting`: the receivers that found no
      failure and now wait for the queue.  `outcomes`: what receivers were given, in order. */
  datatype World = World(box: Box, draining: bool, pushed: nat, waiting: set<nat>, outcomes: seq<Outcome>)

  datatype Step = Push | DrainOne | Look(receiver: nat) | Take(receiver: nat) | GiveUp(receiver: nat)
                | Fail(error: nat) | Close | Discard

  function Initial(maxItems: int, rawStream: bool): World {
    World(NewBox(maxItems, rawStream), false, 0, {}, [])
  }

  function OnPush(w: World): World {
    if w.draining then w
    else w.(box := PushBox(w.box, w.pushed), draining := Overflows(w.box), pushed := w.pushed + 1)
  }

  function OnDrainOne(w: World): World {
    if !w.draining then w
    else if w.box.queue == [] then w.(draining := false)
    else w.(box := DrainHead(w.box))
  }

  function OnLook(w: World, receiver: nat): World {
    if w.draining || receiver in w.waiting then w
    else if PendingFailure(w.box).Some? then
      w.(box := TakeFailure(w.box), outcomes := w.outcomes + [Failed(PendingFailure(w.box).value)])
    else w.(waiting := w.waiting + {receiver})
  }

  function OnTake(w: World, receiver: nat): World {
    if receiver !in w.waiting || (w.box.queue == [] && !w.box.closed) then w
    else if w.box.queue == [] then w.(waiting := w.waiting - {receiver}, outcomes := w.outcomes + [ClosedError])
    else w.(waiting := w.waiting - {receiver}, outcomes := w.outcomes + [Packet(w.box.queue[0])],
            box := w.box.(queue := w.box.queue[1..]))
  }

  function OnGiveUp(w: World, receiver: nat): World {
    if receiver !in w.waiting then w
    else w.(waiting := w.waiting - {receiver}, outcomes := w.outcomes + [ContextError])
  }

  function OnFail(w: World, error: nat): World {
    if w.draining then w else w.(box := FailBox(w.box, error), draining := !w.box.closed)
  }

  function OnClose(w: World): World {
    if w.draining then w else w.(box := CloseBox(w.box))
  }

  function OnDiscard(w: World): World {
    if w.draining then w else w.(box := CloseBox(w.box), draining := true)
  }

  /** A step that cannot be taken, because the mutex is held or the receiver is elsewhere,
      changes nothing. */
  function Next(w: World, step: Step): World {
    match step
    case Push => OnPush(w)
    case DrainOne => OnDrainOne(w)
    case Look(receiver) => OnLook(w, receiver)
    case Take(receiver) => OnTake(w, receiver)
    case GiveUp(receiver) => OnGiveUp(w, receiver)
    case Fail(error) => OnFail(w, error)
    case Close => OnClose(w)
    case Discard => OnDiscard(w)
  }

  function Run(w: World, steps: seq<Step>): World
    decreases |steps|
  {
    if steps == [] then w else Run(Next(w, steps[0]), steps[1..])
  }

  // -------------------------------------------------------------- invariants

  /** How often the packet was delivered, is queued or was released, together. */
  function Places(w: World, id: nat): nat {
    multiset(w.outcomes)[Packet(id)] + multiset(w.box.queue)[id] + w.box.released[id]
  }

  ghost predicate Conserved(w: World) {
    forall id: nat :: Places(w, id) == if id < w.pushed then 1 else 0
  }

  predicate Ordered(outcomes: seq<Outcome>, queue: seq<nat>, pushed: nat) {
    && (forall i, j :: 0 <= i < j < |outcomes| && outcomes[i].Packet? && outcomes[j].Packet? ==>
          outcomes[i].id < outcomes[j].id)
    && (forall i, k :: 0 <= i < |outcomes| && outcomes[i].Packet? && 0 <= k < |queue| ==> outcomes[i].id < queue[k])
    && (forall k, l :: 0 <= k < l < |queue| ==> queue[k] < queue[l])
    && (forall i :: 0 <= i < |outcomes| && outcomes[i].Packet? ==> outcomes[i].id < pushed)
    && (forall k :: 0 <= k < |queue| ==> queue[k] < pushed)
  }

  predicate IsEnd(outcome: Outcome) {
    outcome.ClosedError? || outcome.ContextError?
  }

  /** After a failure only ends follow. */
  predicate FailureIsLast(outcomes: seq<Outcome>) {
    forall i, j :: 0 <= i < j < |outcomes| && outcomes[i].Failed? ==> IsEnd(outcomes[j])
  }

  predicate FailureLogged(outcomes: seq<Outcome>) {
    exists i :: 0 <= i < |outcomes| && outcomes[i].Failed?
  }

  predicate HasFailed(b: Box) {
    b.protocolFailure.Some? || b.failurePacket || b.failureDelivered
  }

  predicate BoxInv(b: Box, draining: bool) {
    && |b.queue| <= b.capacity && b.capacity > 0
    && (draining || HasFailed(b) ==> b.closed)
    && (HasFailed(b) && !draining ==> b.queue == [])
    && (b.failureDelivered ==> b.queue == [] && !b.failurePacket)
    && (b.protocolFailure.Some? ==> !b.failurePacket)
    && (!b.closed ==> b.released == multiset{})
  }

  predicate LogInv(w: World) {
    && FailureIsLast(w.outcomes)
    && (w.box.failureDelivered <==> FailureLogged(w.outcomes))
  }

  ghost predicate Inv(w: World) {
    && Conserved(w)
    && Ordered(w.outcomes, w.box.queue, w.pushed)
    && BoxInv(w.box, w.draining)
    && LogInv(w)
  }

  // --------------------------------------------------- every step keeps them

  lemma PushConserves(w: World)
    requires Conserved(w)
    ensures Conserved(OnPush(w))
  {
    var v := OnPush(w);
    forall id: nat ensures Places(v, id) == if id < v.pushed then 1 else 0 {
      assert Places(w, id) == if id < w.pushed then 1 else 0;
    }
  }

  lemma PushKeepsOrder(outcomes: seq<Outcome>, queue: seq<nat>, pushed: nat)
    requires Ordered(outcomes, queue, pushed)
    ensures Ordered(outcomes, queue, pushed + 1) && Ordered(outcomes, queue + [pushed], pushed + 1)
  {
  }

  lemma PushKeepsInv(w: World)
    requires Inv(w)
    ensures Inv(OnPush(w))
  {
    PushConserves(w);
    PushKeepsOrder(w.outcomes, w.box.queue, w.pushed);
  }

  lemma DropHead(queue: seq<nat>, id: nat)
    requires queue != []
    ensures multiset(queue)[id] == multiset(queue[1..])[id] + (if id == queue[0] then 1 else 0)
  {
    assert queue == [queue[0]] + queue[1..];
  }

  lemma DrainOneKeepsInv(w: World)
    requires Inv(w)
    ensures Inv(OnDrainOne(w))
  {
    var v := OnDrainOne(w);
    forall id: nat ensures Places(v, id) == if id < v.pushed then 1 else 0 {
      assert Places(w, id) == if id < w.pushed then 1 else 0;
      if w.box.queue != [] { DropHead(w.box.queue, id); }
    }
  }

  lemma LookKeepsInv(w: World, receiver: nat)
    requires Inv(w)
    ensures Inv(OnLook(w, receiver))
  {
    var v := OnLook(w, receiver);
    forall id: nat ensures Places(v, id) == if id < v.pushed then 1 else 0 {
      assert Places(w, id) == if id < w.pushed then 1 else 0;
    }
    if !w.draining && receiver !in w.waiting && PendingFailure(w.box).Some? {
      assert v.outcomes[|w.outcomes|].Failed?;
    }
  }

  lemma LogEnd(w: World, outcome: Outcome)
    requires LogInv(w) && !outcome.Failed? && (w.box.failureDelivered ==> IsEnd(outcome))
    ensures LogInv(w.(outcomes := w.outcomes + [outcome]))
  {
    var outcomes := w.outcomes + [outcome];
    if FailureLogged(w.outcomes) {
      var i :| 0 <= i < |w.outcomes| && w.outcomes[i].Failed?;
      assert outcomes[i].Failed?;
    }
  }

  lemma TakeConserves(w: World, receiver: nat)
    requires Conserved(w)
    ensures Conserved(OnTake(w, receiver))
  {
    var v := OnTake(w, receiver);
    forall id: nat ensures Places(v, id) == if id < v.pushed then 1 else 0 {
      assert Places(w, id) == if id < w.pushed then 1 else 0;
      if w.box.queue != [] { DropHead(w.box.queue, id); }
    }
  }

  lemma TakeKeepsOrder(outcomes: seq<Outcome>, queue: seq<nat>, pushed: nat)
    requires Ordered(outcomes, queue, pushed) && queue != []
    ensures Ordered(outcomes + [Packet(queue[0])], queue[1..], pushed)
  {
  }

  lemma TakeKeepsInv(w: World, receiver: nat)
    requires Inv(w)
    ensures Inv(OnTake(w, receiver))
  {
    var v := OnTake(w, receiver);
    TakeConserves(w, receiver);
    if w.box.queue != [] { TakeKeepsOrder(w.outcomes, w.box.queue, w.pushed); }
    if receiver in w.waiting {
      LogEnd(w, if w.box.queue == [] then ClosedError else Packet(w.box.queue[0]));
    }
  }

  lemma GiveUpKeepsInv(w: World, receiver: nat)
    requires Inv(w)
    ensures Inv(OnGiveUp(w, receiver))
  {
    var v := OnGiveUp(w, receiver);
    forall id: nat ensures Places(v, id) == if id < v.pushed then 1 else 0 {
      assert Places(w, id) == if id < w.pushed then 1 else 0;
    }
    if receiver in w.waiting { LogEnd(w, ContextError); }
  }

  lemma EndingKeepsInv(w: World, step: Step)
    requires Inv(w) && (step.Fail? || step.Close? || step.Discard?)
    ensures Inv(Next(w, step))
  {
    var v := Next(w, step);
    forall id: nat ensures Places(v, id) == if id < v.pushed then 1 else 0 {
      assert Places(w, id) == if id < w.pushed then 1 else 0;
    }
  }

  lemma StepKeepsInv(w: World, step: Step)
    requires Inv(w)
    ensures Inv(Next(w, step))
  {
    match step
    case Push => PushKeepsInv(w);
    case DrainOne => DrainOneKeepsInv(w);
    case Look(receiver) => LookKeepsInv(w, receiver);
    case Take(receiver) => TakeKeepsInv(w, receiver);
    case GiveUp(receiver) => GiveUpKeepsInv(w, receiver);
    case _ => EndingKeepsInv(w, step);
  }

  lemma {:induction false} RunKeepsInv(w: World, steps: seq<Step>)
    requires Inv(w)
    ensures Inv(Run(w, steps))
    decreases |steps|
  {
    if steps != [] {
      StepKeepsInv(w, steps[0]);
      RunKeepsInv(Next(w, steps[0]), steps[1..]);
    }
  }

  // ---------------------------------------------------------------- theorems

  predicate Strictly(outcomes: seq<Outcome>) {
    forall i, j :: 0 <= i < j < |outcomes| && outcomes[i].Packet? && outcomes[j].Packet? ==>
      outcomes[i].id < outcomes[j].id
  }

  /** In every run each pushed packet is exactly one of delivered, queued and released,
      delivery follows push order, and nothing is released while the inbox is open. */
  lemma PacketsAreAccountedFor(maxItems: int, rawStream: bool, steps: seq<Step>)
    ensures var w := Run(Initial(maxItems, rawStream), steps);
            && (forall id: nat :: Places(w, id) == if id < w.pushed then 1 else 0)
            && Strictly(w.outcomes)
            && (forall i, k :: 0 <= i < |w.outcomes| && w.outcomes[i].Packet? && 0 <= k < |w.box.queue| ==>
                  w.outcomes[i].id < w.box.queue[k])
            && |w.box.queue| <= w.box.capacity
            && (!w.box.closed ==> w.box.released == multiset{})
  {
    RunKeepsInv(Initial(maxItems, rawStream), steps);
  }

  /** In every run at most one failure is delivered, and no packet after it. */
  lemma NoPacketAfterFailure(maxItems: int, rawStream: bool, steps: seq<Step>, i: nat, j: nat)
    ensures var w := Run(Initial(maxItems, rawStream), steps);
            i < j < |w.outcomes| && w.outcomes[i].Failed? ==> w.outcomes[j].ClosedError? || w.outcomes[j].ContextError?
  {
    RunKeepsInv(Initial(maxItems, rawStream), steps);
    var w := Run(Initial(maxItems, rawStream), steps);
    if i < j < |w.outcomes| && w.outcomes[i].Failed? {
      assert IsEnd(w.outcomes[j]);
    }
  }

  predicate ExactlyOneFailure(outcomes: seq<Outcome>) {
    exists i :: 0 <= i < |outcomes| && outcomes[i].Failed? &&
      forall j :: 0 <= j < |outcomes| && outcomes[j].Failed? ==> j == i
  }

  lemma DeliveredMeansOne(w: World)
    requires LogInv(w)
    ensures if w.box.failureDelivered then ExactlyOneFailure(w.outcomes) else !FailureLogged(w.outcomes)
  {
    if FailureLogged(w.outcomes) {
      var i :| 0 <= i < |w.outcomes| && w.outcomes[i].Failed?;
      forall j | 0 <= j < |w.outcomes| && w.outcomes[j].Failed? ensures j == i {
        assert j < i ==> IsEnd(w.outcomes[i]);
        assert i < j ==> IsEnd(w.outcomes[j]);
      }
    }
  }

  lemma {:induction false} DeliveryIsRemembered(w: World, steps: seq<Step>)
    requires w.box.failureDelivered
    ensures Run(w, steps).box.failureDelivered
    decreases |steps|
  {
    if steps != [] {
      DeliveryIsRemembered(Next(w, steps[0]), steps[1..]);
    }
  }

  /** A failed inbox delivers exactly one failure in every run: it goes to the first receiver
      that looks once the drain is over, unless it was delivered already, and whatever
      follows there is never a second one. */
  lemma FirstLookGetsTheFailure(maxItems: int, rawStream: bool, before: seq<Step>, receiver: nat, after: seq<Step>)
    requires HasFailed(Run(Initial(maxItems, rawStream), before).box)
    requires !Run(Initial(maxItems, rawStream), before).draining
    requires receiver !in Run(Initial(maxItems, rawStream), before).waiting
    ensures var w := Run(Initial(maxItems, rawStream), before);
            var v := Next(w, Look(receiver));
            && (w.box.failureDelivered ==> v.outcomes == w.outcomes)
            && (!w.box.failureDelivered ==> v.outcomes == w.outcomes + [Failed(PendingFailure(w.box).value)])
            && ExactlyOneFailure(v.outcomes) && ExactlyOneFailure(Run(v, after).outcomes)
  {
    RunKeepsInv(Initial(maxItems, rawStream), before);
    var w := Run(Initial(maxItems, rawStream), before);
    var v := Next(w, Look(receiver));
    StepKeepsInv(w, Look(receiver));
    DeliveredMeansOne(v);
    RunKeepsInv(v, after);
    DeliveryIsRemembered(v, after);
    DeliveredMeansOne(Run(v, after));
  }

  /** What the end of an open inbox leaves to be delivered. */
  function CauseOf(w: World, step: Step): Option<Cause> {
    if w.draining || w.box.closed then None
    else if step.Push? && Overflows(w.box) then Some(Backpressure)
    else if step.Fail? then Some(Reported(step.error))
    else None
  }

  predicate OwedOrDelivered(w: World, cause: Cause) {
    PendingFailure(w.box) == Some(cause) || Failed(cause) in w.outcomes
  }

  lemma EndOwesItsCause(w: World, step: Step)
    requires Inv(w) && CauseOf(w, step).Some?
    ensures PendingFailure(Next(w, step).box) == CauseOf(w, step) && Next(w, step).box.closed
    ensures Next(w, step).draining
  {
  }

  lemma StaysOwed(w: World, step: Step, cause: Cause)
    requires Inv(w) && OwedOrDelivered(w, cause)
    ensures OwedOrDelivered(Next(w, step), cause)
  {
    var v := Next(w, step);
    if Failed(cause) in w.outcomes {
      assert w.outcomes <= v.outcomes by {
        assert [step][1..] == [];
        LogGrows(w, [step]);
        assert Run(w, [step]) == v;
      }
    } else {
      assert w.box.closed && !Overflows(w.box);
      if step.Look? && v.box != w.box {
        assert v.outcomes[|w.outcomes|] == Failed(cause);
      }
    }
  }

  /** Overflow owes the backpressure failure and a protocol failure its own error, in every
      continuation until it is delivered. */
  lemma {:induction false} FailureIsOwedUntilDelivered(w: World, step: Step, steps: seq<Step>)
    requires Inv(w) && CauseOf(w, step).Some?
    ensures OwedOrDelivered(Run(Next(w, step), steps), CauseOf(w, step).value)
  {
    EndOwesItsCause(w, step);
    StepKeepsInv(w, step);
    RunStaysOwed(Next(w, step), steps, CauseOf(w, step).value);
  }

  lemma {:induction false} RunStaysOwed(w: World, steps: seq<Step>, cause: Cause)
    requires Inv(w) && OwedOrDelivered(w, cause)
    ensures OwedOrDelivered(Run(w, steps), cause)
    decreases |steps|
  {
    if steps != [] {
      StaysOwed(w, steps[0], cause);
      StepKeepsInv(w, steps[0]);
      RunStaysOwed(Next(w, steps[0]), steps[1..], cause);
    }
  }

  /** The first outcome that `v` has beyond those of `w`, if any, is the failure. */
  predicate FailureComesFirst(w: World, v: World) {
    |v.outcomes| > |w.outcomes| ==> v.outcomes[|w.outcomes|].Failed?
  }

  lemma StepLogGrows(w: World, step: Step)
    ensures w.outcomes <= Next(w, step).outcomes
  {
    match step
    case Look(receiver) => assert Next(w, step) == OnLook(w, receiver);
    case Take(receiver) => assert Next(w, step) == OnTake(w, receiver);
    case GiveUp(receiver) => assert Next(w, step) == OnGiveUp(w, receiver);
    case _ =>
  }

  lemma {:induction false} LogGrows(w: World, steps: seq<Step>)
    ensures w.outcomes <= Run(w, steps).outcomes
    decreases |steps|
  {
    if steps != [] {
      StepLogGrows(w, steps[0]);
      LogGrows(Next(w, steps[0]), steps[1..]);
    }
  }

  lemma UnwatchedStep(w: World, step: Step)
    requires Inv(w) && HasFailed(w.box) && !w.box.failureDelivered && w.waiting == {}
    ensures var v := Next(w, step);
            if v.box.failureDelivered then |v.outcomes| == |w.outcomes| + 1 && v.outcomes[|w.outcomes|].Failed?
            else v.outcomes == w.outcomes && v.waiting == {} && HasFailed(v.box)
  {
    if step.Look? && !w.draining {
      assert PendingFailure(w.box).Some?;
    }
  }

  lemma {:induction false} UnwatchedFailureComesFirst(w: World, steps: seq<Step>)
    requires Inv(w) && HasFailed(w.box) && !w.box.failureDelivered && w.waiting == {}
    ensures FailureComesFirst(w, Run(w, steps))
    decreases |steps|
  {
    if steps != [] {
      var v := Next(w, steps[0]);
      StepKeepsInv(w, steps[0]);
      UnwatchedStep(w, steps[0]);
      if v.box.failureDelivered {
        LogGrows(v, steps[1..]);
      } else {
        UnwatchedFailureComesFirst(v, steps[1..]);
      }
    }
  }

  /** However the run goes on, the failure is the next thing any receiver is given. */
  ghost predicate FailureIsNext(w: World) {
    forall steps: seq<Step> :: FailureComesFirst(w, Run(w, steps))
  }

  lemma FailureIsNextIff(w: World)
    requires Inv(w) && HasFailed(w.box) && !w.box.failureDelivered
    ensures FailureIsNext(w) <==> w.waiting == {}
  {
    if w.waiting == {} {
      forall steps: seq<Step> ensures FailureComesFirst(w, Run(w, steps)) {
        UnwatchedFailureComesFirst(w, steps);
      }
    } else {
      var receiver :| receiver in w.waiting;
      var steps := [Take(receiver)];
      assert steps[1..] == [];
      assert Run(w, steps) == OnTake(w, receiver);
    }
  }

  /** In every run, once overflow or a protocol failure has happened, the failure is the
      next thing any receiver is given, if and only if no receiver was already past its
      look at that moment. */
  lemma FailureComesFirstIff(maxItems: int, rawStream: bool, before: seq<Step>)
    requires HasFailed(Run(Initial(maxItems, rawStream), before).box)
    requires !Run(Initial(maxItems, rawStream), before).box.failureDelivered
    ensures var w := Run(Initial(maxItems, rawStream), before);
            FailureIsNext(w) <==> w.waiting == {}
  {
    RunKeepsInv(Initial(maxItems, rawStream), before);
    FailureIsNextIff(Run(Initial(maxItems, rawStream), before));
  }

  // ----------------------------------------------- when a push is one too many

  /** How many packets were delivered. */
  function DeliveredCount(outcomes: seq<Outcome>): nat {
    if outcomes == [] then 0
    else DeliveredCount(outcomes[..|outcomes| - 1]) + (if outcomes[|outcomes| - 1].Packet? then 1 else 0)
  }

  lemma OneMoreOutcome(outcomes: seq<Outcome>, outcome: Outcome)
    ensures DeliveredCount(outcomes + [outcome]) == DeliveredCount(outcomes) + if outcome.Packet? then 1 else 0
  {
    assert (outcomes + [outcome])[..|outcomes|] == outcomes;
  }

  /** While the inbox is open its queue holds whatever is pushed and undelivered. */
  predicate OpenHolds(w: World) {
    !w.box.closed ==> |w.box.queue| + DeliveredCount(w.outcomes) == w.pushed
  }

  lemma TakeKeepsOpenHolds(w: World, receiver: nat)
    requires OpenHolds(w)
    ensures OpenHolds(OnTake(w, receiver))
  {
    OneMoreOutcome(w.outcomes, ClosedError);
    if w.box.queue != [] { OneMoreOutcome(w.outcomes, Packet(w.box.queue[0])); }
  }

  lemma StepKeepsOpenHolds(w: World, step: Step)
    requires Inv(w) && OpenHolds(w)
    ensures OpenHolds(Next(w, step)) && Next(w, step).box.capacity == w.box.capacity
  {
    match step
    case Push => assert Next(w, step) == OnPush(w);
    case DrainOne => assert w.draining ==> w.box.closed;
    case Look(receiver) => assert PendingFailure(w.box).Some? ==> w.box.closed;
    case Take(receiver) => TakeKeepsOpenHolds(w, receiver);
    case GiveUp(receiver) => OneMoreOutcome(w.outcomes, ContextError);
    case _ =>
  }

  lemma {:induction false} RunKeepsOpenHolds(w: World, steps: seq<Step>)
    requires Inv(w) && OpenHolds(w)
    ensures OpenHolds(Run(w, steps)) && Run(w, steps).box.capacity == w.box.capacity
    decreases |steps|
  {
    if steps != [] {
      StepKeepsOpenHolds(w, steps[0]);
      StepKeepsInv(w, steps[0]);
      RunKeepsOpenHolds(Next(w, steps[0]), steps[1..]);
    }
  }

  /** In every run a push on an open inbox ends it if and only if exactly `maxItems` packets,
      or one where `maxItems` is not positive, are pushed and undelivered at that moment.
      Otherwise the packet is queued last and nothing is released or owed. */
  lemma PushEndsTheInboxIff(maxItems: int, rawStream: bool, before: seq<Step>)
    requires !Run(Initial(maxItems, rawStream), before).box.closed
    ensures var w := Run(Initial(maxItems, rawStream), before);
            var v := Next(w, Push);
            && (v.box.closed <==> w.pushed - DeliveredCount(w.outcomes) == if maxItems <= 0 then 1 else maxItems)
            && (v.box.closed ==>
                  v.box.released == multiset{w.pushed} && PendingFailure(v.box) == Some(Backpressure) && v.draining)
            && (!v.box.closed ==>
                  v.box.queue == w.box.queue + [w.pushed] && v.box.released == multiset{} &&
                  PendingFailure(v.box).None? && !v.draining)
            && v.pushed == w.pushed + 1
  {
    RunKeepsInv(Initial(maxItems, rawStream), before);
    RunKeepsOpenHolds(Initial(maxItems, rawStream), before);
  }

  /** A push on an inbox that has ended only releases the packet. */
  lemma PushAfterTheEnd(w: World)
    requires w.box.closed && !w.draining
    ensures Next(w, Push) == w.(box := w.box.(released := w.box.released + multiset{w.pushed}), pushed := w.pushed + 1)
  {
  }

  /** Closing keeps the queue for its receivers; discarding, failing and closing all end an
      open inbox, and only failing leaves something owed. */
  lemma EndsAreDecided(w: World, error: nat)
    requires Inv(w) && !w.draining
    ensures Next(w, Close) == w.(box := w.box.(closed := true))
    ensures Next(w, Discard) == w.(box := w.box.(closed := true), draining := true)
    ensures w.box.closed ==> Next(w, Fail(error)) == w
    ensures !w.box.closed ==>
              Next(w, Fail(error)) ==
              w.(box := w.box.(closed := true, protocolFailure := Some(Reported(error))), draining := true)
  {
  }

  // ------------------------------------------- packets behind a failure's back

  /** Nobody can take a packet any more. */
  ghost predicate Exhausted(w: World) {
    && Inv(w) && HasFailed(w.box)
    && (w.box.queue == [] || (w.waiting == {} && !w.box.failureDelivered))
  }

  lemma StepStaysExhausted(w: World, step: Step)
    requires Exhausted(w)
    ensures var v := Next(w, step);
            && Exhausted(v) && w.outcomes <= v.outcomes
            && forall i :: |w.outcomes| <= i < |v.outcomes| ==> !v.outcomes[i].Packet?
  {
    StepKeepsInv(w, step);
  }

  /** Of the outcomes that `v` has beyond those of `w`, one is a packet. */
  predicate GainsPacket(w: World, v: World) {
    exists i :: |w.outcomes| <= i < |v.outcomes| && v.outcomes[i].Packet?
  }

  lemma {:induction false} ExhaustedGivesNoPacket(w: World, steps: seq<Step>)
    requires Exhausted(w)
    ensures !GainsPacket(w, Run(w, steps))
    decreases |steps|
  {
    if steps != [] {
      StepStaysExhausted(w, steps[0]);
      var v := Next(w, steps[0]);
      LogGrows(v, steps[1..]);
      ExhaustedGivesNoPacket(v, steps[1..]);
      forall i | |w.outcomes| <= i < |Run(v, steps[1..]).outcomes| ensures !Run(v, steps[1..]).outcomes[i].Packet? {
        if i < |v.outcomes| { assert Run(v, steps[1..]).outcomes[i] == v.outcomes[i]; }
      }
    }
  }

  ghost predicate SomePacketFollows(w: World) {
    exists steps: seq<Step> :: GainsPacket(w, Run(w, steps))
  }

  lemma SomePacketFollowsIff(w: World)
    requires Inv(w) && HasFailed(w.box) && !w.box.failureDelivered
    ensures SomePacketFollows(w) <==> w.waiting != {} && w.box.queue != []
  {
    if w.waiting != {} && w.box.queue != [] {
      var receiver :| receiver in w.waiting;
      var steps := [Take(receiver)];
      assert steps[1..] == [];
      assert Run(w, steps) == OnTake(w, receiver);
      assert Run(w, steps).outcomes[|w.outcomes|] == Packet(w.box.queue[0]);
      assert GainsPacket(w, Run(w, steps));
    } else {
      forall steps: seq<Step> ensures !GainsPacket(w, Run(w, steps)) {
        ExhaustedGivesNoPacket(w, steps);
      }
    }
  }

  /** In every run, once overflow or a protocol failure has happened, a packet can still be
      delivered if and only if some receiver is past its look and the drain has not yet
      emptied the queue. */
  lemma PacketFollowsFailureIff(maxItems: int, rawStream: bool, before: seq<Step>)
    requires HasFailed(Run(Initial(maxItems, rawStream), before).box)
    requires !Run(Initial(maxItems, rawStream), before).box.failureDelivered
    ensures var w := Run(Initial(maxItems, rawStream), before);
            SomePacketFollows(w) <==> w.waiting != {} && w.box.queue != []
  {
    RunKeepsInv(Initial(maxItems, rawStream), before);
    SomePacketFollowsIff(Run(Initial(maxItems, rawStream), before));
  }

  /** A receiver that waited through an overflow is handed a packet that was queued before
      it; the failure reaches the next call. */
  lemma PacketAfterOverflow()
    ensures exists steps: seq<Step> ::
              var w := Run(Initial(1, true), steps);
              w.box.closed && w.outcomes == [Packet(0), Failed(Backpressure)]
  {
    var w0 := Initial(1, true);
    var w1 := Next(w0, Look(0));
    var w2 := Next(Next(w1, Push), Push);
    assert Overflows(Next(w1, Push).box) && w2.draining && w2.outcomes == [];
    var w3 := Next(w2, Take(0));
    assert w3.outcomes == [Packet(0)] && w3.box.queue == [];
    var w4 := Next(Next(w3, DrainOne), Look(0));
    assert w4.outcomes == [Packet(0), Failed(Backpressure)];
    RunsThrough(w0, [Look(0), Push, Push], [Take(0), DrainOne, Look(0)]);
    assert Run(w0, [Look(0), Push, Push]) == w2 by { ThreeSteps(w0, Look(0), Push, Push); }
    ThreeSteps(w2, Take(0), DrainOne, Look(0));
  }

  lemma {:induction false} RunsThrough(w: World, first: seq<Step>, second: seq<Step>)
    ensures Run(w, first + second) == Run(Run(w, first), second)
    decreases |first|
  {
    if first == [] {
      assert first + second == second;
    } else {
      assert (first + second)[1..] == first[1..] + second;
      RunsThrough(Next(w, first[0]), first[1..], second);
    }
  }

  lemma ThreeSteps(w: World, a: Step, b: Step, c: Step)
    ensures Run(w, [a, b, c]) == Next(Next(Next(w, a), b), c)
  {
    assert [a, b, c][1..] == [b, c] && [b, c][1..] == [c] && [c][1..] == [];
    assert Run(w, [a, b, c]) == Run(Next(w, a), [b, c]);
    assert Run(Next(w, a), [b, c]) == Run(Next(Next(w, a), b), [c]);
  }

  /** The drain loop, run to its end without interruption. */
  lemma {:induction false} DrainLoop(w: World)
    requires w.draining
    ensures exists steps: seq<Step> :: Run(w, steps) == w.(box := Drained(w.box), draining := false)
    decreases |w.box.queue|
  {
    var v := OnDrainOne(w);
    if w.box.queue == [] {
      assert [DrainOne][1..] == [];
      assert Run(w, [DrainOne]) == v;
      assert Drained(w.box) == w.box;
    } else {
      DrainLoop(v);
      var rest :| Run(v, rest) == v.(box := Drained(v.box), draining := false);
      assert w.box.queue == [w.box.queue[0]] + w.box.queue[1..];
      assert Drained(v.box) == Drained(w.box);
      assert ([DrainOne] + rest)[1..] == rest;
      assert Run(w, [DrainOne] + rest) == Run(v, rest);
    }
  }

  // ------------------------------------------------------------------ object

  class CallbackInbox {
    const capacity: nat
    const rawStream: bool
    var queue: seq<nat>
    var closed: bool
    var protocolFailure: Option<Cause>
    var failurePacket: bool
    var failureDelivered: bool
    var released: multiset<nat>

    ghost function View(): Box
      reads this
    {
      Box(capacity, rawStream, queue, closed, protocolFailure, failurePacket, failureDelivered, released)
    }

    constructor (maxItems: int, rawStream: bool)
      ensures View() == NewBox(maxItems, rawStream)
      ensures capacity == (if maxItems <= 0 then 1 else maxItems) && queue == [] && !closed
    {
      capacity := if maxItems <= 0 then 1 else maxItems;
      this.rawStream := rawStream;
      queue, closed := [], false;
      protocolFailure, failurePacket, failureDelivered := None, false, false;
      released := multiset{};
    }

    method DrainLeasedLocked()
      modifies this
      ensures View() == Drained(old(View()))
    {
      while queue != []
        invariant View() == old(View()).(queue := queue, released := released)
        invariant released + multiset(queue) == old(released) + multiset(old(queue))
        decreases |queue|
      {
        assert queue == [queue[0]] + queue[1..];
        released := released + multiset{queue[0]};
        queue := queue[1..];
      }
    }

    method Push(packet: nat)
      modifies this
      ensures View() == if Overflows(old(View())) then Drained(PushBox(old(View()), packet))
                        else PushBox(old(View()), packet)
      ensures !old(closed) && |old(queue)| < capacity ==>
                View() == old(View()).(queue := old(queue) + [packet])
      ensures !old(closed) && |old(queue)| >= capacity ==>
                closed && queue == [] && released == old(released) + multiset{packet} + multiset(old(queue)) &&
                (rawStream ==> protocolFailure == Some(Backpressure)) && (!rawStream ==> failurePacket)
      ensures old(closed) ==> View() == old(View()).(released := old(released) + multiset{packet})
    {
      if closed {
        released := released + multiset{packet};
      } else if |queue| < capacity {
        queue := queue + [packet];
      } else {
        released := released + multiset{packet};
        if rawStream {
          protocolFailure := Some(Backpressure);
        } else {
          failurePacket := true;
        }
        closed := true;
        DrainLeasedLocked();
      }
    }

    /** The half of `recv` under the mutex. */
    method Look() returns (failure: Option<Cause>)
      modifies this
      ensures failure == PendingFailure(old(View()))
      ensures View() == if failure.Some? then TakeFailure(old(View())) else old(View())
    {
      failure := None;
      if protocolFailure.Some? && !failureDelivered {
        failureDelivered := true;
        failure := protocolFailure;
      } else if failurePacket && !failureDelivered {
        failureDelivered := true;
        failure := Some(Backpressure);
        failurePacket := false;
      }
    }

    /** The half of `recv` that takes from the queue; None when it would have to wait. */
    method Take() returns (outcome: Option<Outcome>)
      modifies this
      ensures old(queue) != [] ==> outcome == Some(Packet(old(queue)[0])) && View() == old(View()).(queue := old(queue)[1..])
      ensures old(queue) == [] ==> View() == old(View()) && outcome == if closed then Some(ClosedError) else None
    {
      if queue != [] {
        outcome := Some(Packet(queue[0]));
        queue := queue[1..];
      } else if closed {
        outcome := Some(ClosedError);
      } else {
        outcome := None;
      }
    }

    method Fail(error: nat)
      modifies this
      ensures View() == if old(closed) then old(View()) else Drained(FailBox(old(View()), error))
    {
      if !closed {
        protocolFailure := Some(Reported(error));
        closed := true;
        DrainLeasedLocked();
      }
    }

    method Close()
      modifies this
      ensures View() == CloseBox(old(View()))
    {
      closed := true;
    }

    method Discard()
      modifies this
      ensures View() == Drained(CloseBox(old(View())))
    {
      if !closed {
        closed := true;
      }
      DrainLeasedLocked();
    }
  }
}
