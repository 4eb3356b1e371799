/** One leased stream from end to end: frames arrive in callbacks, their payloads are leased
    and handed to the inbox, receivers take them, the application retains and releases what
    it was given, and the stream is closed.  A step of the stream takes at most one step of
    the lease protocol and one of the inbox: whatever the inbox releases releases the payload
    that the packet carries. */
module LeasedStream {
  import opened Common
  import Inbox
  import Leases

  const SCOPE: nat := 1
  const CLOSER: nat := 0

  /** Who is answerable for a payload.  `Stranded`: its packet found no inbox to be pushed to.
      `Refused`: the callback gave it back.  `Owned`: the application was given it. */
  datatype Place = InCallback(op: nat) | InPacket(id: nat) | Stranded | Refused | Owned

  /** `carried`: the payload of each pushed packet.  `callbacks`: the callbacks at work, with
      the payload they hold once it is leased. */
  datatype World = World(
    leases: Leases.World, inbox: Inbox.World, carried: seq<Option<nat>>, place: seq<Place>,
    callbacks: map<nat, Option<nat>>, nativeClosed: bool, discarded: bool)

  datatype Step =
    | Arrive(op: nat, lease: nat, hasData: bool, length: nat, admitted: bool)
    | Lease(op: nat)
    | Refuse(op: nat)
    | Strand(op: nat)
    | Hand(op: nat)
    | HandEmpty
    | DrainOne
    | Take(receiver: nat)
    | Quiet(step: Inbox.Step)
    | BeginRetain(op: nat, payload: nat)
    | CommitRetain(op: nat)
    | Release(payload: nat)
    | NativeClose
    | Discard
    | BeginClose
    | Snapshot
    | CloseOne(payload: nat)

  function Initial(maxItems: int): World {
    World(Leases.EMPTY, Inbox.Initial(maxItems, true), [], [], map[], false, false)
  }

  // ------------------------------------------------------- when a step is taken

  /** The native close suppresses later callbacks. */
  predicate MayArrive(w: World, op: nat) {
    !w.nativeClosed && op !in w.callbacks && op !in w.leases.pending
  }

  predicate IsLeasing(w: World, op: nat) {
    op in w.callbacks && w.callbacks[op].None?
  }

  predicate Holds(w: World, op: nat) {
    op in w.callbacks && w.callbacks[op].Some? && w.callbacks[op].value < |w.place|
  }

  predicate MayHand(w: World, op: nat) {
    Holds(w, op) && !w.inbox.draining
  }

  /** The inbox keeps a pushed packet unless it is closed or full. */
  predicate Keeps(box: Inbox.Box) {
    !box.closed && !Inbox.Overflows(box)
  }

  /** The payload of the packet at the head of the queue. */
  function HeadPayload(w: World): Option<nat> {
    if w.inbox.box.queue == [] || w.inbox.box.queue[0] >= |w.carried| then None
    else w.carried[w.inbox.box.queue[0]]
  }

  /** The application retains and releases only what it was given. */
  predicate Owns(w: World, payload: nat) {
    payload < |w.place| && w.place[payload] == Owned
  }

  predicate IsRetaining(w: World, op: nat) {
    op in w.leases.pending && w.leases.pending[op].Retaining?
  }

  predicate MayDiscard(w: World) {
    w.nativeClosed && !w.discarded && !w.inbox.draining
  }

  // ------------------------------------------- what it does to each protocol

  /** The step of the lease protocol that a step of the stream takes. */
  function LeasePart(w: World, step: Step): Option<Leases.Step> {
    match step
    case Arrive(op, lease, hasData, length, admitted) =>
      if MayArrive(w, op) then Some(Leases.Arrive(op, lease, hasData, length, SCOPE, admitted)) else None
    case Lease(op) => if IsLeasing(w, op) then Some(Leases.Commit(op)) else None
    case Refuse(op) => if Holds(w, op) then Some(Leases.Release(w.callbacks[op].value)) else None
    case Hand(op) =>
      if MayHand(w, op) && !Keeps(w.inbox.box) then Some(Leases.Release(w.callbacks[op].value)) else None
    case DrainOne =>
      if w.inbox.draining && HeadPayload(w).Some? then Some(Leases.Release(HeadPayload(w).value)) else None
    case BeginRetain(op, payload) =>
      if Owns(w, payload) && op !in w.callbacks then Some(Leases.BeginRetain(op, payload)) else None
    case CommitRetain(op) => if IsRetaining(w, op) then Some(Leases.Commit(op)) else None
    case Release(payload) => if Owns(w, payload) then Some(Leases.Release(payload)) else None
    case BeginClose => if w.discarded && !w.inbox.draining then Some(Leases.BeginClose(CLOSER, SCOPE)) else None
    case Snapshot => Some(Leases.Snapshot(CLOSER))
    case CloseOne(payload) => Some(Leases.CloseOne(CLOSER, payload))
    case _ => None
  }

  /** The step of the inbox that a step of the stream takes. */
  function InboxPart(w: World, step: Step): Option<Inbox.Step> {
    match step
    case Hand(op) => if MayHand(w, op) then Some(Inbox.Push) else None
    case HandEmpty => if w.nativeClosed || w.inbox.draining then None else Some(Inbox.Push)
    case DrainOne => Some(Inbox.DrainOne)
    case Take(receiver) => Some(Inbox.Take(receiver))
    case Quiet(s) => if s.Look? || s.GiveUp? || s.Fail? || s.Close? then Some(s) else None
    case Discard => if MayDiscard(w) then Some(Inbox.Discard) else None
    case _ => None
  }

  function LeasesAfter(w: World, step: Step): Leases.World {
    var part := LeasePart(w, step);
    if part.None? then w.leases else Leases.Next(w.leases, part.value)
  }

  function InboxAfter(w: World, step: Step): Inbox.World {
    var part := InboxPart(w, step);
    if part.None? then w.inbox else Inbox.Next(w.inbox, part.value)
  }

  // ---------------------------------------------------- what it does to the rest

  function CarriedAfter(w: World, step: Step): seq<Option<nat>> {
    if step.Hand? && MayHand(w, step.op) then w.carried + [w.callbacks[step.op]]
    else if step.HandEmpty? && InboxPart(w, step).Some? then w.carried + [None]
    else w.carried
  }

  function PlaceAfter(w: World, step: Step): seq<Place> {
    match step
    case Lease(op) => if IsLeasing(w, op) then w.place + [InCallback(op)] else w.place
    case Refuse(op) => if Holds(w, op) then w.place[w.callbacks[op].value := Refused] else w.place
    case Strand(op) => if Holds(w, op) then w.place[w.callbacks[op].value := Stranded] else w.place
    case Hand(op) => if MayHand(w, op) then w.place[w.callbacks[op].value := InPacket(w.inbox.pushed)] else w.place
    case Take(receiver) =>
      if receiver in w.inbox.waiting && HeadPayload(w).Some? && HeadPayload(w).value < |w.place|
      then w.place[HeadPayload(w).value := Owned] else w.place
    case CommitRetain(op) =>
      if |LeasesAfter(w, step).payloads| > |w.leases.payloads| then w.place + [Owned] else w.place
    case _ => w.place
  }

  function CallbacksAfter(w: World, step: Step): map<nat, Option<nat>> {
    match step
    case Arrive(op, _, _, _, _) =>
      if MayArrive(w, op) && op in LeasesAfter(w, step).pending then w.callbacks[op := None] else w.callbacks
    case Lease(op) => if IsLeasing(w, op) then w.callbacks[op := Some(|w.place|)] else w.callbacks
    case Refuse(op) => if Holds(w, op) then w.callbacks - {op} else w.callbacks
    case Strand(op) => if Holds(w, op) then w.callbacks - {op} else w.callbacks
    case Hand(op) => if MayHand(w, op) then w.callbacks - {op} else w.callbacks
    case _ => w.callbacks
  }

  /** The native close waits for the callbacks at work. */
  predicate NativeClosedAfter(w: World, step: Step) {
    w.nativeClosed || (step.NativeClose? && w.callbacks == map[])
  }

  function Next(w: World, step: Step): World {
    World(LeasesAfter(w, step), InboxAfter(w, step), CarriedAfter(w, step), PlaceAfter(w, step),
          CallbacksAfter(w, step), NativeClosedAfter(w, step), w.discarded || (step.Discard? && MayDiscard(w)))
  }

  function Run(w: World, steps: seq<Step>): World
    decreases |steps|
  {
    if steps == [] then w else Run(Next(w, steps[0]), steps[1..])
  }

  // -------------------------------------------------------------- invariants

  ghost predicate PartsInv(w: World) {
    Leases.Inv(w.leases) && Inbox.Inv(w.inbox)
  }

  predicate ShapeInv(w: World) {
    && |w.place| == |w.leases.payloads| && |w.carried| == w.inbox.pushed
    && (forall p :: 0 <= p < |w.leases.payloads| ==> w.leases.payloads[p].scope == SCOPE)
  }

  /** Deliveries under way are callbacks that are leasing; a callback that holds a payload is
      where the payload says it is. */
  predicate CallbackInv(w: World) {
    && (forall op :: op in w.callbacks && w.callbacks[op].None? ==>
          op in w.leases.pending && w.leases.pending[op].Delivering? && w.leases.pending[op].scope == SCOPE)
    && (forall op :: op in w.leases.pending && w.leases.pending[op].Delivering? ==>
          op in w.callbacks && w.callbacks[op].None?)
    && (forall op :: op in w.callbacks && w.callbacks[op].Some? ==>
          w.callbacks[op].value < |w.place| && w.place[w.callbacks[op].value] == InCallback(op))
    && (forall p :: 0 <= p < |w.place| && w.place[p].InCallback? ==>
          w.place[p].op in w.callbacks && w.callbacks[w.place[p].op] == Some(p))
  }

  predicate Delivered(i: Inbox.World, id: nat) {
    Inbox.Packet(id) in i.outcomes
  }

  /** A packet's payload is the application's once the packet is delivered, and the packet's
      until then; no two packets carry the same one. */
  predicate PacketInv(w: World) {
    && (forall id :: 0 <= id < |w.carried| && w.carried[id].Some? ==>
          w.carried[id].value < |w.place| &&
          w.place[w.carried[id].value] == if Delivered(w.inbox, id) then Owned else InPacket(id))
    && (forall p :: 0 <= p < |w.place| && w.place[p].InPacket? ==>
          w.place[p].id < |w.carried| && w.carried[w.place[p].id] == Some(p))
  }

  /** Where the holder of a payload has let go of it, its reference has been given back. */
  predicate ReleaseInv(w: World) {
    forall p :: p in w.leases.registered && p < |w.place| ==>
      w.place[p] != Refused && (w.place[p].InPacket? ==> w.place[p].id in w.inbox.box.queue)
  }

  /** Only the application's payloads are ever retained. */
  predicate RetainInv(w: World) {
    forall op :: op in w.leases.pending && w.leases.pending[op].Retaining? ==> Owns(w, w.leases.pending[op].payload)
  }

  predicate CloseInv(w: World) {
    && (w.nativeClosed ==> w.callbacks == map[])
    && (w.discarded ==> w.nativeClosed && w.inbox.box.closed && (w.inbox.draining || w.inbox.box.queue == []))
    && w.leases.closedScopes == (if CLOSER in w.leases.closing then {SCOPE} else {})
    && (forall c :: c in w.leases.closing ==> c == CLOSER && w.leases.closing[c].scope == SCOPE)
    && (CLOSER in w.leases.closing ==> w.discarded && !w.inbox.draining)
  }

  /** What is not the application's is on the closer's list from the snapshot on. */
  predicate SnapshotInv(w: World) {
    CLOSER in w.leases.closing && w.leases.closing[CLOSER].snapshot ==>
      forall p :: p in w.leases.registered && p < |w.place| && w.place[p] != Owned ==>
        p in w.leases.closing[CLOSER].remaining
  }

  predicate IsKept(place: Place, queue: seq<nat>) {
    place.InCallback? || place.Stranded? || (place.InPacket? && place.id in queue)
  }

  /** Until the close, what a callback, a queued packet or nobody holds stays registered. */
  predicate KeptInv(w: World) {
    CLOSER !in w.leases.closing ==>
      forall p :: 0 <= p < |w.place| && IsKept(w.place[p], w.inbox.box.queue) ==> p in w.leases.registered
  }

  predicate PlaceInv(w: World) {
    ShapeInv(w) && CallbackInv(w) && PacketInv(w)
  }

  predicate FateInv(w: World) {
    ReleaseInv(w) && RetainInv(w) && CloseInv(w) && SnapshotInv(w) && KeptInv(w)
  }

  predicate CoreInv(w: World) {
    PlaceInv(w) && FateInv(w)
  }

  ghost predicate Inv(w: World) {
    PartsInv(w) && CoreInv(w)
  }

  lemma StepKeepsParts(w: World, step: Step)
    requires PartsInv(w)
    ensures PartsInv(Next(w, step))
  {
    var lease, inbox := LeasePart(w, step), InboxPart(w, step);
    if lease.Some? { Leases.StepKeepsInv(w.leases, lease.value); }
    if inbox.Some? { Inbox.StepKeepsInv(w.inbox, inbox.value); }
  }

  // ------------------------------------------------------ what the parts change

  /** `l'` differs from `l` in its references and counters and in these registrations only. */
  predicate Registers(l: Leases.World, l': Leases.World, registered: set<nat>) {
    && l'.payloads == l.payloads && l'.registered == registered && l'.pending == l.pending
    && l'.closing == l.closing && l'.closedScopes == l.closedScopes
  }

  lemma ReleaseEffect(l: Leases.World, p: nat)
    requires Leases.Booked(l)
    ensures var l' := Leases.OnRelease(l, p);
            && Registers(l, l', l'.registered)
            && l.registered - {p} <= l'.registered <= l.registered
            && (!Leases.Locked(l, p) ==> l'.registered == l.registered - {p})
  {
    if Leases.Releasable(l, p) {
      assert Leases.OnRelease(l, p).registered == l.registered - {p};
    } else {
      assert Leases.OnRelease(l, p) == l;
      assert !Leases.Locked(l, p) ==> l.registered - {p} == l.registered;
    }
  }

  predicate Commits(l: Leases.World, l': Leases.World, op: nat) {
    && l'.pending == l.pending - {op} && l'.registered == l.registered + {|l.payloads|}
    && l'.closing == l.closing && l'.closedScopes == l.closedScopes
    && |l'.payloads| == |l.payloads| + 1 && l'.payloads[..|l.payloads|] == l.payloads
  }

  lemma CommitEffect(l: Leases.World, op: nat)
    requires Leases.Inv(l) && op in l.pending
    ensures var l' := Leases.OnCommit(l, op);
            && Commits(l, l', op)
            && (l.pending[op].Delivering? ==> l'.payloads[|l.payloads|].scope == l.pending[op].scope)
            && (l.pending[op].Retaining? ==> l.pending[op].payload < |l.payloads|)
            && (l.pending[op].Retaining? ==> l'.payloads[|l.payloads|] == l.payloads[l.pending[op].payload])
  {
    if l.pending[op].Retaining? { Leases.RegisteredIsReferenced(l, l.pending[op].payload); }
  }

  lemma QueueIsUndelivered(i: Inbox.World, k: nat)
    requires Inbox.Inv(i) && k < |i.box.queue|
    ensures i.box.queue[k] < i.pushed && !Delivered(i, i.box.queue[k])
    ensures forall j :: 0 <= j < |i.box.queue| && j != k ==> i.box.queue[j] != i.box.queue[k]
  {
  }

  /** What is not the application's is not locked. */
  lemma OnlyOwnedIsLocked(w: World, p: nat)
    requires RetainInv(w) && p < |w.place| && w.place[p] != Owned
    ensures !Leases.Locked(w.leases, p)
  {
  }

  lemma HeadIsInPacket(w: World)
    requires Inv(w) && HeadPayload(w).Some?
    ensures var id := w.inbox.box.queue[0];
            HeadPayload(w).value < |w.place| && w.place[HeadPayload(w).value] == InPacket(id) && w.carried[id] == HeadPayload(w)
  {
    QueueIsUndelivered(w.inbox, 0);
  }

  // --------------------------------------------------------- callbacks at work

  /** An arrival that is let in, or one that changes nothing here. */
  predicate Arrives(w: World, l: Leases.World, op: nat, lease: nat) {
    && Registers(w.leases.(pending := l.pending), l, w.leases.registered)
    && (l.pending == w.leases.pending || l.pending == w.leases.pending[op := Leases.Delivering(lease, SCOPE)])
  }

  lemma ArrivePlaces(w: World, l: Leases.World, op: nat, lease: nat)
    requires CoreInv(w) && MayArrive(w, op) && Arrives(w, l, op, lease)
    ensures PlaceInv(w.(leases := l, callbacks := if op in l.pending then w.callbacks[op := None] else w.callbacks))
  {
  }

  lemma ArriveFates(w: World, l: Leases.World, op: nat, lease: nat)
    requires CoreInv(w) && MayArrive(w, op) && Arrives(w, l, op, lease)
    ensures FateInv(w.(leases := l, callbacks := if op in l.pending then w.callbacks[op := None] else w.callbacks))
  {
  }

  lemma ArriveKeeps(w: World, op: nat, lease: nat, hasData: bool, length: nat, admitted: bool)
    requires Inv(w)
    ensures CoreInv(Next(w, Arrive(op, lease, hasData, length, admitted)))
  {
    var v := Next(w, Arrive(op, lease, hasData, length, admitted));
    if MayArrive(w, op) {
      Leases.ArrivalOnlyAdds(w.leases, op, lease, hasData, length, SCOPE, admitted);
      ArrivePlaces(w, v.leases, op, lease);
      ArriveFates(w, v.leases, op, lease);
    } else {
      assert v == w;
    }
  }

  lemma LeasePlaces(w: World, l: Leases.World, op: nat)
    requires CoreInv(w) && IsLeasing(w, op) && Commits(w.leases, l, op) && l.payloads[|w.place|].scope == SCOPE
    ensures PlaceInv(w.(leases := l, place := w.place + [InCallback(op)], callbacks := w.callbacks[op := Some(|w.place|)]))
  {
  }

  lemma LeaseFates(w: World, l: Leases.World, op: nat)
    requires CoreInv(w) && IsLeasing(w, op) && Commits(w.leases, l, op)
    ensures FateInv(w.(leases := l, place := w.place + [InCallback(op)], callbacks := w.callbacks[op := Some(|w.place|)]))
  {
  }

  lemma LeaseKeeps(w: World, op: nat)
    requires Inv(w)
    ensures CoreInv(Next(w, Lease(op)))
  {
    var v := Next(w, Lease(op));
    if IsLeasing(w, op) {
      CommitEffect(w.leases, op);
      LeasePlaces(w, v.leases, op);
      LeaseFates(w, v.leases, op);
    } else {
      assert v == w;
    }
  }

  lemma RefuseCore(w: World, l: Leases.World, op: nat)
    requires CoreInv(w) && Holds(w, op) && Registers(w.leases, l, w.leases.registered - {w.callbacks[op].value})
    ensures CoreInv(w.(leases := l, place := w.place[w.callbacks[op].value := Refused], callbacks := w.callbacks - {op}))
  {
  }

  lemma RefuseKeeps(w: World, op: nat)
    requires Inv(w)
    ensures CoreInv(Next(w, Refuse(op)))
  {
    var v := Next(w, Refuse(op));
    if Holds(w, op) {
      var p := w.callbacks[op].value;
      ReleaseEffect(w.leases, p);
      OnlyOwnedIsLocked(w, p);
      RefuseCore(w, v.leases, op);
    } else {
      assert v == w;
    }
  }

  lemma StrandCore(w: World, op: nat)
    requires CoreInv(w) && Holds(w, op)
    ensures CoreInv(w.(place := w.place[w.callbacks[op].value := Stranded], callbacks := w.callbacks - {op}))
  {
  }

  lemma StrandKeeps(w: World, op: nat)
    requires Inv(w)
    ensures CoreInv(Next(w, Strand(op)))
  {
    var v := Next(w, Strand(op));
    if Holds(w, op) {
      StrandCore(w, op);
    } else {
      assert v == w;
    }
  }

  /** A packet is pushed: queued, or turned away. */
  predicate Pushes(i: Inbox.World, i': Inbox.World, kept: bool) {
    && i'.pushed == i.pushed + 1 && i'.outcomes == i.outcomes
    && i'.box.queue == if kept then i.box.queue + [i.pushed] else i.box.queue
  }

  lemma PushEffect(i: Inbox.World)
    requires Inbox.Inv(i) && !i.draining
    ensures Pushes(i, Inbox.OnPush(i), Keeps(i.box)) && !Delivered(i, i.pushed) && i.pushed !in i.box.queue
  {
  }

  lemma HandPlaces(w: World, i: Inbox.World, l: Leases.World, op: nat, kept: bool)
    requires CoreInv(w) && Holds(w, op) && Pushes(w.inbox, i, kept) && !Delivered(w.inbox, w.inbox.pushed)
    requires Registers(w.leases, l, l.registered)
    ensures PlaceInv(w.(inbox := i, leases := l, carried := w.carried + [w.callbacks[op]],
                        place := w.place[w.callbacks[op].value := InPacket(w.inbox.pushed)],
                        callbacks := w.callbacks - {op}))
  {
  }

  lemma HandFates(w: World, i: Inbox.World, l: Leases.World, op: nat, kept: bool)
    requires CoreInv(w) && Holds(w, op) && Pushes(w.inbox, i, kept) && w.inbox.pushed !in w.inbox.box.queue
    requires Registers(w.leases, l, if kept then w.leases.registered else w.leases.registered - {w.callbacks[op].value})
    ensures FateInv(w.(inbox := i, leases := l, carried := w.carried + [w.callbacks[op]],
                       place := w.place[w.callbacks[op].value := InPacket(w.inbox.pushed)],
                       callbacks := w.callbacks - {op}))
  {
  }

  lemma HandKeeps(w: World, op: nat)
    requires Inv(w)
    ensures CoreInv(Next(w, Hand(op)))
  {
    var v := Next(w, Hand(op));
    if MayHand(w, op) {
      var p := w.callbacks[op].value;
      ReleaseEffect(w.leases, p);
      OnlyOwnedIsLocked(w, p);
      PushEffect(w.inbox);
      HandPlaces(w, v.inbox, v.leases, op, Keeps(w.inbox.box));
      HandFates(w, v.inbox, v.leases, op, Keeps(w.inbox.box));
    } else {
      assert v == w;
    }
  }

  lemma HandEmptyCore(w: World, i: Inbox.World, kept: bool)
    requires CoreInv(w) && !w.nativeClosed && Pushes(w.inbox, i, kept)
    ensures CoreInv(w.(inbox := i, carried := w.carried + [None]))
  {
  }

  lemma HandEmptyKeeps(w: World)
    requires Inv(w)
    ensures CoreInv(Next(w, HandEmpty))
  {
    var v := Next(w, HandEmpty);
    if w.nativeClosed || w.inbox.draining {
      assert v == w;
    } else {
      PushEffect(w.inbox);
      HandEmptyCore(w, v.inbox, Keeps(w.inbox.box));
    }
  }

  // --------------------------------------------------------- packets on the way

  /** The head of the queue is gone. */
  predicate Pops(i: Inbox.World, i': Inbox.World) {
    && i.box.queue != [] && i'.box.queue == i.box.queue[1..] && i'.pushed == i.pushed
    && i'.box.closed == i.box.closed && i'.draining == i.draining
  }

  lemma DrainCore(w: World, i: Inbox.World, l: Leases.World)
    requires CoreInv(w) && w.inbox.draining && Pops(w.inbox, i) && i.outcomes == w.inbox.outcomes
    requires Registers(w.leases, l, if HeadPayload(w).Some? then w.leases.registered - {HeadPayload(w).value}
                                    else w.leases.registered)
    requires w.inbox.box.queue[0] < |w.carried| && w.inbox.box.queue[0] !in i.box.queue
    ensures CoreInv(w.(inbox := i, leases := l))
  {
    assert forall id :: id in w.inbox.box.queue && id != w.inbox.box.queue[0] ==> id in i.box.queue;
  }

  lemma DrainedCore(w: World, i: Inbox.World)
    requires CoreInv(w) && w.inbox.box.queue == [] && i == w.inbox.(draining := false)
    ensures CoreInv(w.(inbox := i))
  {
  }

  lemma DrainOneKeeps(w: World)
    requires Inv(w)
    ensures CoreInv(Next(w, DrainOne))
  {
    var v := Next(w, DrainOne);
    if !w.inbox.draining {
      assert v == w;
    } else if w.inbox.box.queue == [] {
      DrainedCore(w, v.inbox);
    } else {
      QueueIsUndelivered(w.inbox, 0);
      if HeadPayload(w).Some? {
        HeadIsInPacket(w);
        OnlyOwnedIsLocked(w, HeadPayload(w).value);
        ReleaseEffect(w.leases, HeadPayload(w).value);
      }
      DrainCore(w, v.inbox, v.leases);
    }
  }

  predicate Hands(i: Inbox.World, i': Inbox.World) {
    Pops(i, i') && i'.outcomes == i.outcomes + [Inbox.Packet(i.box.queue[0])]
  }

  lemma TakePlaces(w: World, i: Inbox.World, place: seq<Place>)
    requires CoreInv(w) && Hands(w.inbox, i) && w.inbox.box.queue[0] < |w.carried|
    requires HeadPayload(w).Some? ==> HeadPayload(w).value < |w.place|
    requires place == if HeadPayload(w).Some? then w.place[HeadPayload(w).value := Owned] else w.place
    requires !Delivered(w.inbox, w.inbox.box.queue[0])
    ensures PlaceInv(w.(inbox := i, place := place))
  {
    assert forall id :: Delivered(i, id) <==> Delivered(w.inbox, id) || id == w.inbox.box.queue[0];
  }

  lemma TakeFates(w: World, i: Inbox.World, place: seq<Place>)
    requires CoreInv(w) && Hands(w.inbox, i) && w.inbox.box.queue[0] < |w.carried|
    requires HeadPayload(w).Some? ==> HeadPayload(w).value < |w.place|
    requires place == if HeadPayload(w).Some? then w.place[HeadPayload(w).value := Owned] else w.place
    ensures FateInv(w.(inbox := i, place := place))
  {
    assert forall id :: id in w.inbox.box.queue && id != w.inbox.box.queue[0] ==> id in i.box.queue;
    assert forall id :: id in i.box.queue ==> id in w.inbox.box.queue;
  }

  /** No packet moves: the same queue and the same deliveries. */
  predicate Rests(i: Inbox.World, i': Inbox.World) {
    && i'.box.queue == i.box.queue && i'.pushed == i.pushed
    && (i.box.closed ==> i'.box.closed && i'.draining == i.draining)
    && i.outcomes <= i'.outcomes && |i'.outcomes| <= |i.outcomes| + 1
    && (|i'.outcomes| > |i.outcomes| ==> !i'.outcomes[|i.outcomes|].Packet?)
  }

  lemma RestCore(w: World, i: Inbox.World)
    requires CoreInv(w) && Rests(w.inbox, i)
    ensures CoreInv(w.(inbox := i))
  {
    forall id: nat ensures Delivered(i, id) == Delivered(w.inbox, id) {
      if Delivered(w.inbox, id) {
        var k :| 0 <= k < |w.inbox.outcomes| && w.inbox.outcomes[k] == Inbox.Packet(id);
        assert i.outcomes[k] == Inbox.Packet(id);
      }
      if Delivered(i, id) {
        var k :| 0 <= k < |i.outcomes| && i.outcomes[k] == Inbox.Packet(id);
        assert k < |w.inbox.outcomes| && w.inbox.outcomes[k] == Inbox.Packet(id);
      }
    }
  }

  lemma TakeKeeps(w: World, receiver: nat)
    requires Inv(w)
    ensures CoreInv(Next(w, Take(receiver)))
  {
    var v := Next(w, Take(receiver));
    if receiver !in w.inbox.waiting {
      assert v == w;
    } else if w.inbox.box.queue == [] {
      RestCore(w, v.inbox);
    } else {
      QueueIsUndelivered(w.inbox, 0);
      if HeadPayload(w).Some? { HeadIsInPacket(w); }
      TakePlaces(w, v.inbox, v.place);
      TakeFates(w, v.inbox, v.place);
    }
  }

  lemma QuietEffect(i: Inbox.World, step: Inbox.Step)
    requires step.Look? || step.GiveUp? || step.Fail? || step.Close?
    requires i.draining ==> i.box.closed
    ensures Rests(i, Inbox.Next(i, step))
  {
  }

  lemma QuietKeeps(w: World, step: Inbox.Step)
    requires Inv(w)
    ensures CoreInv(Next(w, Quiet(step)))
  {
    var v := Next(w, Quiet(step));
    if InboxPart(w, Quiet(step)).Some? {
      QuietEffect(w.inbox, step);
      RestCore(w, v.inbox);
    } else {
      assert v == w;
    }
  }

  // ------------------------------------------------------------- application

  lemma BeginRetainCore(w: World, op: nat, payload: nat)
    requires CoreInv(w) && Owns(w, payload) && op !in w.callbacks && op !in w.leases.pending
    ensures CoreInv(w.(leases := w.leases.(pending := w.leases.pending[op := Leases.Retaining(payload)])))
  {
  }

  lemma BeginRetainKeeps(w: World, op: nat, payload: nat)
    requires Inv(w)
    ensures CoreInv(Next(w, BeginRetain(op, payload)))
  {
    var v := Next(w, BeginRetain(op, payload));
    if v.leases == w.leases {
      assert v == w;
    } else {
      assert v.leases == w.leases.(pending := w.leases.pending[op := Leases.Retaining(payload)]);
      BeginRetainCore(w, op, payload);
    }
  }

  lemma CommitRetainPlaces(w: World, l: Leases.World, op: nat)
    requires CoreInv(w) && IsRetaining(w, op) && Commits(w.leases, l, op) && l.payloads[|w.place|].scope == SCOPE
    ensures PlaceInv(w.(leases := l, place := w.place + [Owned]))
  {
  }

  lemma CommitRetainFates(w: World, l: Leases.World, op: nat)
    requires CoreInv(w) && IsRetaining(w, op) && Commits(w.leases, l, op)
    ensures FateInv(w.(leases := l, place := w.place + [Owned]))
  {
  }

  lemma CommitRetainKeeps(w: World, op: nat)
    requires Inv(w)
    ensures CoreInv(Next(w, CommitRetain(op)))
  {
    var v := Next(w, CommitRetain(op));
    if IsRetaining(w, op) {
      CommitEffect(w.leases, op);
      CommitRetainPlaces(w, v.leases, op);
      CommitRetainFates(w, v.leases, op);
    } else {
      assert v == w;
    }
  }

  /** Letting go of what is the application's, or on the closer's list, loosens nothing. */
  lemma ReleaseCore(w: World, l: Leases.World, p: nat)
    requires CoreInv(w) && Owns(w, p) && w.leases.registered - {p} <= l.registered <= w.leases.registered
    requires Registers(w.leases, l, l.registered)
    ensures CoreInv(w.(leases := l))
  {
  }

  lemma ReleaseKeeps(w: World, payload: nat)
    requires Inv(w)
    ensures CoreInv(Next(w, Release(payload)))
  {
    var v := Next(w, Release(payload));
    if Owns(w, payload) {
      ReleaseEffect(w.leases, payload);
      ReleaseCore(w, v.leases, payload);
    } else {
      assert v == w;
    }
  }

  // ----------------------------------------------------------------- closing

  lemma EndingCore(w: World, i: Inbox.World, nativeClosed: bool, discarded: bool)
    requires CoreInv(w) && i.box.queue == w.inbox.box.queue && i.outcomes == w.inbox.outcomes && i.pushed == w.inbox.pushed
    requires (w.nativeClosed ==> nativeClosed) && (nativeClosed ==> w.callbacks == map[])
    requires discarded ==> nativeClosed && i.box.closed
    requires (i.draining == w.inbox.draining && discarded == w.discarded) || (discarded && i.draining && !w.discarded)
    ensures CoreInv(w.(inbox := i, nativeClosed := nativeClosed, discarded := discarded))
  {
    assert forall id :: Delivered(i, id) == Delivered(w.inbox, id);
  }

  lemma EndingKeeps(w: World, step: Step)
    requires Inv(w) && (step.NativeClose? || step.Discard?)
    ensures CoreInv(Next(w, step))
  {
    var v := Next(w, step);
    EndingCore(w, v.inbox, v.nativeClosed, v.discarded);
  }

  /** Places do not depend on what is registered or being closed. */
  lemma SamePlaces(w: World, l: Leases.World)
    requires PlaceInv(w) && l.payloads == w.leases.payloads && l.pending == w.leases.pending
    ensures PlaceInv(w.(leases := l))
  {
  }

  lemma BeginCloseFates(w: World, l: Leases.World)
    requires CoreInv(w) && w.discarded && !w.inbox.draining && CLOSER !in w.leases.closing
    requires l == w.leases.(closing := w.leases.closing[CLOSER := Leases.Closing(SCOPE, false, {})],
                            closedScopes := w.leases.closedScopes + {SCOPE})
    ensures FateInv(w.(leases := l))
  {
  }

  lemma BeginCloseKeeps(w: World)
    requires Inv(w)
    ensures CoreInv(Next(w, BeginClose))
  {
    var v := Next(w, BeginClose);
    if w.discarded && !w.inbox.draining && CLOSER !in w.leases.closing {
      assert v.leases == Leases.OnBeginClose(w.leases, CLOSER, SCOPE);
      SamePlaces(w, v.leases);
      BeginCloseFates(w, v.leases);
    } else {
      assert v == w;
    }
  }

  lemma SnapshotFates(w: World, l: Leases.World)
    requires CoreInv(w) && CLOSER in w.leases.closing
    requires l == w.leases.(closing := w.leases.closing[CLOSER := Leases.Closing(SCOPE, true, Leases.InScope(w.leases, SCOPE))])
    ensures FateInv(w.(leases := l))
  {
  }

  lemma SnapshotKeeps(w: World)
    requires Inv(w)
    ensures CoreInv(Next(w, Snapshot))
  {
    var v := Next(w, Snapshot);
    assert v.leases == Leases.OnSnapshot(w.leases, CLOSER);
    if CLOSER in w.leases.closing && !w.leases.closing[CLOSER].snapshot {
      SamePlaces(w, v.leases);
      SnapshotFates(w, v.leases);
    } else {
      assert v == w;
    }
  }

  predicate Strikes(l: Leases.World, l': Leases.World, p: nat) {
    && CLOSER in l.closing
    && Registers(l.(closing := l'.closing), l', l.registered - {p})
    && l'.closing == l.closing[CLOSER := l.closing[CLOSER].(remaining := l.closing[CLOSER].remaining - {p})]
  }

  lemma CloseOneEffect(l: Leases.World, p: nat)
    requires Leases.Booked(l)
    ensures var l' := Leases.OnCloseOne(l, CLOSER, p);
            if CLOSER in l.closing && p in l.closing[CLOSER].remaining && !Leases.Locked(l, p) then Strikes(l, l', p)
            else l' == l
  {
    ReleaseEffect(l, p);
  }

  lemma CloseOneFates(w: World, l: Leases.World, p: nat)
    requires CoreInv(w) && Strikes(w.leases, l, p)
    ensures FateInv(w.(leases := l))
  {
  }

  lemma CloseOneKeeps(w: World, payload: nat)
    requires Inv(w)
    ensures CoreInv(Next(w, CloseOne(payload)))
  {
    var v := Next(w, CloseOne(payload));
    assert v.leases == Leases.OnCloseOne(w.leases, CLOSER, payload);
    CloseOneEffect(w.leases, payload);
    if v.leases == w.leases {
      assert v == w;
    } else {
      SamePlaces(w, v.leases);
      CloseOneFates(w, v.leases, payload);
    }
  }

  lemma StepKeepsInv(w: World, step: Step)
    requires Inv(w)
    ensures Inv(Next(w, step))
  {
    StepKeepsParts(w, step);
    match step
    case Arrive(op, lease, hasData, length, admitted) => ArriveKeeps(w, op, lease, hasData, length, admitted);
    case Lease(op) => LeaseKeeps(w, op);
    case Refuse(op) => RefuseKeeps(w, op);
    case Strand(op) => StrandKeeps(w, op);
    case Hand(op) => HandKeeps(w, op);
    case HandEmpty => HandEmptyKeeps(w);
    case DrainOne => DrainOneKeeps(w);
    case Take(receiver) => TakeKeeps(w, receiver);
    case Quiet(s) => QuietKeeps(w, s);
    case BeginRetain(op, payload) => BeginRetainKeeps(w, op, payload);
    case CommitRetain(op) => CommitRetainKeeps(w, op);
    case Release(payload) => ReleaseKeeps(w, payload);
    case BeginClose => BeginCloseKeeps(w);
    case Snapshot => SnapshotKeeps(w);
    case CloseOne(payload) => CloseOneKeeps(w, payload);
    case _ => EndingKeeps(w, step);
  }

  lemma {:induction false} RunKeepsInv(w: World, steps: seq<Step>)
    requires Inv(w)
    ensures Inv(Run(w, steps))
    decreases |steps|
  {
    if steps != [] {
      StepKeepsInv(w, steps[0]);
      RunKeepsInv(Next(w, steps[0]), steps[1..]);
    }
  }

  lemma Reached(maxItems: int, steps: seq<Step>)
    ensures Inv(Run(Initial(maxItems), steps))
  {
    Leases.NothingYet();
    RunKeepsInv(Initial(maxItems), steps);
  }

  // ---------------------------------------------------------------- theorems

  /** Somebody is answerable for the payload: the application, a callback at work, a queued
      packet that carries it, or, where its packet was dropped, the close. */
  predicate HasHolder(w: World, p: nat) {
    && p < |w.place|
    && match w.place[p]
       case Owned => true
       case Stranded => true
       case InCallback(op) => op in w.callbacks && w.callbacks[op] == Some(p)
       case InPacket(id) => id in w.inbox.box.queue && id < |w.carried| && w.carried[id] == Some(p)
       case Refused => false
  }

  /** In every run each registered payload has a holder, and until the close begins whatever
      a callback, a queued packet or nobody holds is registered. */
  lemma EveryPayloadHasAHolder(maxItems: int, steps: seq<Step>, p: nat)
    ensures var w := Run(Initial(maxItems), steps);
            && (p in w.leases.registered ==> HasHolder(w, p))
            && (CLOSER !in w.leases.closing && HasHolder(w, p) && w.place[p] != Owned ==> p in w.leases.registered)
  {
    Reached(maxItems, steps);
    var w := Run(Initial(maxItems), steps);
    assert p in w.leases.registered ==> p < |w.place|;
  }

  /** In every run the payload of a packet is the application's exactly when the packet was
      delivered; a packet that is neither delivered nor queued has had its payload's one
      native release. */
  lemma UndeliveredPacketsAreGivenBack(maxItems: int, steps: seq<Step>, id: nat)
    ensures var w := Run(Initial(maxItems), steps);
            id < |w.carried| && w.carried[id].Some? ==>
              var p := w.carried[id].value;
              && p < |w.place| && (Delivered(w.inbox, id) <==> w.place[p] == Owned)
              && (!Delivered(w.inbox, id) && id !in w.inbox.box.queue ==>
                    p in w.leases.released && w.leases.issued[p] == 1)
  {
    Reached(maxItems, steps);
    var w := Run(Initial(maxItems), steps);
    if id < |w.carried| && w.carried[id].Some? {
      assert w.carried[id].value < |w.place|;
    }
  }

  /** The close has worked through its list. */
  predicate Finished(w: World) {
    CLOSER in w.leases.closing && w.leases.closing[CLOSER].snapshot && w.leases.closing[CLOSER].remaining == {}
  }

  /** In every run, once the close has finished, every payload that the application was not
      given has had its one native release, also where a packet was dropped without an inbox;
      and a lease's references are exactly the payloads the application still holds on it,
      beside what leaked on arrival. */
  lemma FinishedCloseLeavesTheApplications(maxItems: int, steps: seq<Step>, p: nat, lease: nat)
    requires Finished(Run(Initial(maxItems), steps))
    ensures var w := Run(Initial(maxItems), steps);
            && (p < |w.place| && w.place[p] != Owned ==> p in w.leases.released && w.leases.issued[p] == 1)
            && (p in w.leases.registered ==> Owns(w, p))
            && w.leases.native[lease] ==
               |Leases.Holders(w.leases.registered, w.leases.payloads, lease)| + w.leases.leaked[lease]
  {
    Reached(maxItems, steps);
    var w := Run(Initial(maxItems), steps);
    assert Leases.CountedAt(w.leases, lease);
    assert Leases.Incoming(w.leases.pending, lease) == {};
  }

  predicate IsStranded(w: World, p: nat) {
    p < |w.place| && w.place[p] == Stranded
  }

  lemma StrandedStep(w: World, step: Step, p: nat)
    requires Inv(w) && IsStranded(w, p)
    ensures IsStranded(Next(w, step), p)
  {
    if step.Take? && HeadPayload(w).Some? { HeadIsInPacket(w); }
    assert forall op :: Holds(w, op) ==> w.place[w.callbacks[op].value] == InCallback(op);
  }

  lemma {:induction false} StrandedRun(w: World, steps: seq<Step>, p: nat)
    requires Inv(w) && IsStranded(w, p)
    ensures IsStranded(Run(w, steps), p) && Inv(Run(w, steps))
    decreases |steps|
  {
    if steps != [] {
      StrandedStep(w, steps[0], p);
      StepKeepsInv(w, steps[0]);
      StrandedRun(Next(w, steps[0]), steps[1..], p);
    }
  }

  /** A payload whose packet was dropped for want of an inbox stays registered and referenced,
      whatever happens, until the close begins, and has its one native release once the close
      has finished. */
  lemma StrandedUntilTheClose(maxItems: int, before: seq<Step>, after: seq<Step>, p: nat)
    requires IsStranded(Run(Initial(maxItems), before), p)
    ensures var w := Run(Run(Initial(maxItems), before), after);
            && p < |w.leases.payloads|
            && (CLOSER !in w.leases.closing ==>
                  p in w.leases.registered && w.leases.native[w.leases.payloads[p].lease] > 0)
            && (Finished(w) ==> p in w.leases.released && w.leases.issued[p] == 1)
  {
    Reached(maxItems, before);
    StrandedRun(Run(Initial(maxItems), before), after, p);
    var w := Run(Run(Initial(maxItems), before), after);
    if p in w.leases.registered { Leases.RegisteredIsReferenced(w.leases, p); }
  }

  predicate AllAdmitted(steps: seq<Step>) {
    forall i :: 0 <= i < |steps| && steps[i].Arrive? ==> steps[i].admitted
  }

  lemma AdmittedStepDoesNotLeak(w: World, step: Step)
    requires Inv(w) && (step.Arrive? ==> step.admitted)
    ensures Next(w, step).leases.leaked == w.leases.leaked
  {
    var part := LeasePart(w, step);
    if part.Some? {
      Leases.StepLeaksIff(w.leases, part.value);
      assert SCOPE in w.leases.closedScopes ==> w.nativeClosed;
    }
  }

  lemma {:induction false} AdmittedRunDoesNotLeak(w: World, steps: seq<Step>)
    requires Inv(w) && AllAdmitted(steps)
    ensures Run(w, steps).leases.leaked == w.leases.leaked
    decreases |steps|
  {
    if steps != [] {
      AdmittedStepDoesNotLeak(w, steps[0]);
      StepKeepsInv(w, steps[0]);
      assert AllAdmitted(steps[1..]);
      AdmittedRunDoesNotLeak(Next(w, steps[0]), steps[1..]);
    }
  }

  /** Because the native close waits for its callbacks, no frame of a known layout with a
      registered inbox ever meets a closed scope: such runs leak nothing, and once the close
      has finished the application's payloads are all that is referenced. */
  lemma AdmittedFramesDoNotLeak(maxItems: int, steps: seq<Step>, lease: nat)
    requires AllAdmitted(steps)
    ensures var w := Run(Initial(maxItems), steps);
            && w.leases.leaked == multiset{}
            && (Finished(w) ==>
                  w.leases.native[lease] == |Leases.Holders(w.leases.registered, w.leases.payloads, lease)|)
  {
    Leases.NothingYet();
    AdmittedRunDoesNotLeak(Initial(maxItems), steps);
    if Finished(Run(Initial(maxItems), steps)) {
      FinishedCloseLeavesTheApplications(maxItems, steps, 0, lease);
    }
  }

  /** The inbox has been discarded and drained. */
  predicate Silent(w: World) {
    w.discarded && !w.inbox.draining
  }

  lemma SilentStep(w: World, step: Step, id: nat)
    requires Inv(w) && Silent(w)
    ensures Silent(Next(w, step)) && (Delivered(Next(w, step).inbox, id) ==> Delivered(w.inbox, id))
  {
    assert w.inbox.box.queue == [] && w.inbox.box.closed && w.callbacks == map[];
    var v := Next(w, step);
    if Delivered(v.inbox, id) {
      var k :| 0 <= k < |v.inbox.outcomes| && v.inbox.outcomes[k] == Inbox.Packet(id);
      assert |v.inbox.outcomes| <= |w.inbox.outcomes| + 1;
      assert k < |w.inbox.outcomes| && w.inbox.outcomes[k] == Inbox.Packet(id);
    }
  }

  lemma {:induction false} SilentRun(w: World, steps: seq<Step>, id: nat)
    requires Inv(w) && Silent(w)
    ensures Delivered(Run(w, steps).inbox, id) ==> Delivered(w.inbox, id)
    decreases |steps|
  {
    if steps != [] {
      SilentStep(w, steps[0], id);
      StepKeepsInv(w, steps[0]);
      SilentRun(Next(w, steps[0]), steps[1..], id);
    }
  }

  /** In every run, once the inbox has been discarded and drained no further packet is ever
      delivered. */
  lemma NothingIsDeliveredAfterDiscard(maxItems: int, before: seq<Step>, after: seq<Step>, id: nat)
    requires Silent(Run(Initial(maxItems), before))
    ensures var w := Run(Initial(maxItems), before);
            Delivered(Run(w, after).inbox, id) ==> Delivered(w.inbox, id)
  {
    Reached(maxItems, before);
    SilentRun(Run(Initial(maxItems), before), after, id);
  }

  // ------------------------------------------------- a close can always finish

  lemma {:induction false} RunsThrough(w: World, first: seq<Step>, second: seq<Step>)
    ensures Run(w, first + second) == Run(Run(w, first), second)
    decreases |first|
  {
    if first == [] {
      assert first + second == second;
    } else {
      assert (first + second)[1..] == first[1..] + second;
      RunsThrough(Next(w, first[0]), first[1..], second);
    }
  }

  lemma Then(w: World, step: Step, rest: seq<Step>)
    ensures Run(w, [step] + rest) == Run(Next(w, step), rest)
  {
    assert ([step] + rest)[1..] == rest;
  }

  lemma OneFewer<T>(m: map<nat, T>, key: nat)
    requires key in m
    ensures |m - {key}| < |m|
  {
    assert m == (m - {key})[key := m[key]];
  }

  lemma LeaseAdvances(w: World, op: nat)
    requires IsLeasing(w, op)
    ensures var v := Next(w, Lease(op)); Holds(v, op) && v.callbacks == w.callbacks[op := Some(|w.place|)]
  {
  }

  lemma StrandAdvances(w: World, op: nat)
    requires Holds(w, op)
    ensures Next(w, Strand(op)).callbacks == w.callbacks - {op}
  {
  }

  /** A callback at work can end, whatever it has done so far. */
  lemma FinishCallback(w: World, op: nat) returns (steps: seq<Step>)
    requires Inv(w) && op in w.callbacks
    ensures Inv(Run(w, steps)) && Run(w, steps).callbacks == w.callbacks - {op}
  {
    if w.callbacks[op].None? {
      LeaseAdvances(w, op);
      TwoSteps(w, Lease(op), Strand(op));
      StrandAdvances(Next(w, Lease(op)), op);
      steps := [Lease(op)] + ([Strand(op)] + []);
      assert w.callbacks[op := Some(|w.place|)] - {op} == w.callbacks - {op};
    } else {
      StepKeepsInv(w, Strand(op));
      StrandAdvances(w, op);
      Then(w, Strand(op), []);
      steps := [Strand(op)] + [];
    }
  }

  lemma {:induction false} FinishCallbacks(w: World) returns (steps: seq<Step>)
    requires Inv(w)
    ensures Inv(Run(w, steps)) && Run(w, steps).callbacks == map[]
    decreases |w.callbacks|
  {
    if w.callbacks == map[] {
      steps := [];
    } else {
      var op :| op in w.callbacks;
      var one := FinishCallback(w, op);
      var v := Run(w, one);
      OneFewer(w.callbacks, op);
      var rest := FinishCallbacks(v);
      RunsThrough(w, one, rest);
      steps := one + rest;
    }
  }

  /** The two worlds are equally far in the close. */
  predicate SameStage(w: World, v: World) {
    && v.callbacks == w.callbacks && v.nativeClosed == w.nativeClosed && v.discarded == w.discarded
    && v.leases.closing == w.leases.closing
  }

  lemma {:induction false} FinishDrain(w: World) returns (steps: seq<Step>)
    requires Inv(w)
    ensures var v := Run(w, steps); Inv(v) && !v.inbox.draining && SameStage(w, v)
    decreases |w.inbox.box.queue|, w.inbox.draining
  {
    if !w.inbox.draining {
      steps := [];
    } else {
      var v := Next(w, DrainOne);
      StepKeepsInv(w, DrainOne);
      if HeadPayload(w).Some? { ReleaseEffect(w.leases, HeadPayload(w).value); }
      assert SameStage(w, v);
      var rest := FinishDrain(v);
      steps := [DrainOne] + rest;
      Then(w, DrainOne, rest);
    }
  }

  lemma CommitRetainAdvances(w: World, op: nat)
    requires Inv(w) && w.callbacks == map[] && op in w.leases.pending
    ensures var v := Next(w, CommitRetain(op));
            SameStage(w, v) && v.leases.pending == w.leases.pending - {op}
  {
    assert IsRetaining(w, op);
    CommitEffect(w.leases, op);
  }

  lemma {:induction false} FinishRetains(w: World) returns (steps: seq<Step>)
    requires Inv(w) && w.callbacks == map[]
    ensures var v := Run(w, steps); Inv(v) && v.leases.pending == map[] && SameStage(w, v)
    decreases |w.leases.pending|
  {
    if w.leases.pending == map[] {
      steps := [];
    } else {
      var op :| op in w.leases.pending;
      var v := Next(w, CommitRetain(op));
      StepKeepsInv(w, CommitRetain(op));
      CommitRetainAdvances(w, op);
      OneFewer(w.leases.pending, op);
      var rest := FinishRetains(v);
      steps := [CommitRetain(op)] + rest;
      Then(w, CommitRetain(op), rest);
    }
  }

  predicate Listing(w: World) {
    w.leases.pending == map[] && CLOSER in w.leases.closing && w.leases.closing[CLOSER].snapshot
  }

  lemma CloseOneAdvances(w: World, p: nat)
    requires Leases.Booked(w.leases) && Listing(w) && p in w.leases.closing[CLOSER].remaining
    ensures var v := Next(w, CloseOne(p));
            Listing(v) && v.leases.closing[CLOSER].remaining == w.leases.closing[CLOSER].remaining - {p}
  {
    assert !Leases.Locked(w.leases, p);
    CloseOneEffect(w.leases, p);
  }

  lemma {:induction false} FinishList(w: World) returns (steps: seq<Step>)
    requires Inv(w) && Listing(w)
    ensures Finished(Run(w, steps))
    decreases w.leases.closing[CLOSER].remaining
  {
    if w.leases.closing[CLOSER].remaining == {} {
      steps := [];
    } else {
      var p :| p in w.leases.closing[CLOSER].remaining;
      var v := Next(w, CloseOne(p));
      StepKeepsInv(w, CloseOne(p));
      CloseOneAdvances(w, p);
      var rest := FinishList(v);
      steps := [CloseOne(p)] + rest;
      Then(w, CloseOne(p), rest);
    }
  }

  lemma DiscardAdvances(w: World)
    requires Inv(w) && w.callbacks == map[] && !w.inbox.draining
    ensures var v := Next(Next(w, NativeClose), Discard); v.discarded && v.callbacks == map[]
  {
  }

  lemma BeginCloseAdvances(w: World)
    requires w.discarded && !w.inbox.draining
    ensures var v := Next(Next(w, BeginClose), Snapshot);
            v.callbacks == w.callbacks && CLOSER in v.leases.closing && v.leases.closing[CLOSER].snapshot
  {
    var v := Next(w, BeginClose);
    assert v.leases == Leases.OnBeginClose(w.leases, CLOSER, SCOPE);
    assert Next(v, Snapshot).leases == Leases.OnSnapshot(v.leases, CLOSER);
  }

  lemma TwoSteps(w: World, first: Step, second: Step)
    requires Inv(w)
    ensures Run(w, [first] + ([second] + [])) == Next(Next(w, first), second)
    ensures Inv(Next(Next(w, first), second))
  {
    StepKeepsInv(w, first);
    StepKeepsInv(Next(w, first), second);
    Then(w, first, [second] + []);
    Then(Next(w, first), second, []);
  }

  lemma BeginTheClose(w: World) returns (steps: seq<Step>)
    requires Inv(w) && w.callbacks == map[] && !w.inbox.draining
    ensures var v := Run(w, steps);
            Inv(v) && v.callbacks == map[] && CLOSER in v.leases.closing && v.leases.closing[CLOSER].snapshot
  {
    var discard := [NativeClose] + ([Discard] + []);
    TwoSteps(w, NativeClose, Discard);
    DiscardAdvances(w);
    var w1 := Run(w, discard);
    var drain := FinishDrain(w1);
    var w2 := Run(w1, drain);
    var close := [BeginClose] + ([Snapshot] + []);
    TwoSteps(w2, BeginClose, Snapshot);
    BeginCloseAdvances(w2);
    RunsThrough(w1, drain, close);
    RunsThrough(w, discard, drain + close);
    steps := discard + (drain + close);
  }

  /** From every reachable state some continuation finishes the close. */
  lemma CloseCanFinish(maxItems: int, before: seq<Step>) returns (steps: seq<Step>)
    ensures Finished(Run(Initial(maxItems), before + steps))
  {
    Reached(maxItems, before);
    var w := Run(Initial(maxItems), before);
    var callbacks := FinishCallbacks(w);
    var w1 := Run(w, callbacks);
    var drain := FinishDrain(w1);
    var w2 := Run(w1, drain);
    var begin := BeginTheClose(w2);
    var w3 := Run(w2, begin);
    var retains := FinishRetains(w3);
    var w4 := Run(w3, retains);
    var list := FinishList(w4);
    RunsThrough(w3, retains, list);
    RunsThrough(w2, begin, retains + list);
    RunsThrough(w1, drain, begin + (retains + list));
    RunsThrough(w, callbacks, drain + (begin + (retains + list)));
    steps := callbacks + (drain + (begin + (retains + list)));
    RunsThrough(Initial(maxItems), before, steps);
  }
}
