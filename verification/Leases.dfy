/** Leased payloads of a native stream and the reference counts behind them.  The native
    side is the multiset of its references: a lease id occurs once per reference held.
    Each operation is cut where its locks are: a frame's arrival and a Retain first pass
    the scope check and later register under the table's mutex; closing a scope marks it,
    takes a snapshot and then releases payload by payload. */
module Leases {
  import opened Common

  const MAX_PAYLOAD_BYTES: nat := 268435456

  datatype Payload = Payload(lease: nat, scope: nat)

  /** An operation that has passed the scope check and not yet registered.  A Retain holds
      its payload's mutex until it has. */
  datatype Pending = Delivering(lease: nat, scope: nat) | Retaining(payload: nat)

  datatype Closing = Closing(scope: nat, snapshot: bool, remaining: set<nat>)

  /** `issued`: payloads for which a native release was called.  `refused`: native calls that
      named a lease with no reference.  `leaked`: references that no payload stands for. */
  datatype World = World(
    native: multiset<nat>, payloads: seq<Payload>, registered: set<nat>, released: set<nat>,
    closedScopes: set<nat>, pending: map<nat, Pending>, closing: map<nat, Closing>,
    issued: multiset<nat>, refused: nat, leaked: multiset<nat>)

  const EMPTY := World(multiset{}, [], {}, {}, {}, map[], map[], multiset{}, 0, multiset{})

  datatype Step =
    | Arrive(op: nat, lease: nat, hasData: bool, length: nat, scope: nat, admitted: bool)
    | BeginRetain(op: nat, payload: nat)
    | Commit(op: nat)
    | Release(payload: nat)
    | BeginClose(closer: nat, scope: nat)
    | Snapshot(closer: nat)
    | CloseOne(closer: nat, payload: nat)

  // ------------------------------------------------------------------- steps

  /** The shapes of a frame's payload that are refused and whose reference is given back. */
  predicate Malformed(lease: nat, hasData: bool, length: nat) {
    if length == 0 then lease != 0 || hasData
    else lease == 0 || !hasData || length > MAX_PAYLOAD_BYTES
  }

  function Granted(native: multiset<nat>, lease: nat): multiset<nat> {
    if lease == 0 then native else native + multiset{lease}
  }

  function GivenBack(native: multiset<nat>, lease: nat): multiset<nat> {
    if lease == 0 then native else native - multiset{lease}
  }

  predicate Locked(w: World, payload: nat) {
    exists op :: op in w.pending && w.pending[op] == Retaining(payload)
  }

  /** The frame brings one reference on its lease.  `admitted`: its layout is the expected
      one and its inbox is still registered. */
  function OnArrive(w: World, op: nat, lease: nat, hasData: bool, length: nat, scope: nat, admitted: bool): World {
    if op in w.pending then w
    else if !admitted then
      w.(native := Granted(w.native, lease), leaked := Granted(w.leaked, lease))
    else if Malformed(lease, hasData, length) then
      w.(native := GivenBack(Granted(w.native, lease), lease))
    else if length == 0 then w
    else if scope in w.closedScopes then
      w.(native := Granted(w.native, lease), leaked := w.leaked + multiset{lease})
    else
      w.(native := Granted(w.native, lease), pending := w.pending[op := Delivering(lease, scope)])
  }

  predicate Retainable(w: World, payload: nat) {
    && payload < |w.payloads| && !Locked(w, payload)
    && payload !in w.released && w.payloads[payload].scope !in w.closedScopes
  }

  function OnBeginRetain(w: World, op: nat, payload: nat): World {
    if op in w.pending || !Retainable(w, payload) then w
    else w.(pending := w.pending[op := Retaining(payload)])
  }

  function Register(w: World, op: nat, payload: Payload): World {
    w.(payloads := w.payloads + [payload], registered := w.registered + {|w.payloads|}, pending := w.pending - {op})
  }

  function OnCommit(w: World, op: nat): World {
    if op !in w.pending then w
    else match w.pending[op]
      case Delivering(lease, scope) => Register(w, op, Payload(lease, scope))
      case Retaining(payload) =>
        if payload < |w.payloads| && w.payloads[payload].lease in w.native then
          Register(w, op, w.payloads[payload]).(native := w.native + multiset{w.payloads[payload].lease})
        else w.(refused := w.refused + 1, pending := w.pending - {op})
  }

  predicate Releasable(w: World, payload: nat) {
    payload < |w.payloads| && !Locked(w, payload) && payload !in w.released
  }

  function OnRelease(w: World, payload: nat): World {
    if !Releasable(w, payload) then w
    else
      var lease := w.payloads[payload].lease;
      w.(released := w.released + {payload}, registered := w.registered - {payload},
         issued := w.issued + multiset{payload},
         native := w.native - multiset{lease},
         refused := if lease in w.native then w.refused else w.refused + 1)
  }

  function OnBeginClose(w: World, closer: nat, scope: nat): World {
    if closer in w.closing then w
    else w.(closedScopes := w.closedScopes + {scope}, closing := w.closing[closer := Closing(scope, false, {})])
  }

  function InScope(w: World, scope: nat): set<nat> {
    set p | p in w.registered && p < |w.payloads| && w.payloads[p].scope == scope
  }

  function OnSnapshot(w: World, closer: nat): World {
    if closer !in w.closing || w.closing[closer].snapshot then w
    else w.(closing := w.closing[closer := Closing(w.closing[closer].scope, true, InScope(w, w.closing[closer].scope))])
  }

  /** Releasing a payload already released does nothing; a locked one has to wait. */
  function OnCloseOne(w: World, closer: nat, payload: nat): World {
    if closer !in w.closing || payload !in w.closing[closer].remaining || Locked(w, payload) then w
    else
      OnRelease(w, payload).(closing :=
        w.closing[closer := w.closing[closer].(remaining := w.closing[closer].remaining - {payload})])
  }

  function Next(w: World, step: Step): World {
    match step
    case Arrive(op, lease, hasData, length, scope, admitted) => OnArrive(w, op, lease, hasData, length, scope, admitted)
    case BeginRetain(op, payload) => OnBeginRetain(w, op, payload)
    case Commit(op) => OnCommit(w, op)
    case Release(payload) => OnRelease(w, payload)
    case BeginClose(closer, scope) => OnBeginClose(w, closer, scope)
    case Snapshot(closer) => OnSnapshot(w, closer)
    case CloseOne(closer, payload) => OnCloseOne(w, closer, payload)
  }

  function Run(w: World, steps: seq<Step>): World
    decreases |steps|
  {
    if steps == [] then w else Run(Next(w, steps[0]), steps[1..])
  }

  // -------------------------------------------------------------- invariants

  /** The registered payloads on a lease. */
  function Holders(registered: set<nat>, payloads: seq<Payload>, lease: nat): set<nat> {
    set p | p in registered && p < |payloads| && payloads[p].lease == lease
  }

  /** The deliveries on a lease that have not registered yet. */
  function Incoming(pending: map<nat, Pending>, lease: nat): set<nat> {
    set op | op in pending && pending[op].Delivering? && pending[op].lease == lease
  }

  /** References equal registered payloads, deliveries under way and leaks. */
  ghost predicate CountedAt(w: World, lease: nat) {
    w.native[lease] == |Holders(w.registered, w.payloads, lease)| + |Incoming(w.pending, lease)| + w.leaked[lease]
  }

  ghost predicate Counted(w: World) {
    forall lease: nat :: CountedAt(w, lease)
  }

  ghost predicate Booked(w: World) {
    && (forall p: nat :: p in w.registered <==> p < |w.payloads| && p !in w.released)
    && (forall p: nat :: p in w.released ==> p < |w.payloads|)
    && (forall p: nat :: w.issued[p] == if p in w.released then 1 else 0)
  }

  predicate PendingInv(w: World) {
    && (forall op :: op in w.pending && w.pending[op].Retaining? ==> w.pending[op].payload in w.registered)
    && w.refused == 0
  }

  ghost predicate Inv(w: World) {
    Counted(w) && Booked(w) && PendingInv(w)
  }

  // --------------------------------------------------- every step keeps them

  lemma RegisterAddsHolder(registered: set<nat>, payloads: seq<Payload>, payload: Payload, lease: nat)
    requires forall p :: p in registered ==> p < |payloads|
    ensures |Holders(registered + {|payloads|}, payloads + [payload], lease)| ==
            |Holders(registered, payloads, lease)| + if payload.lease == lease then 1 else 0
  {
    var was := Holders(registered, payloads, lease);
    var now := Holders(registered + {|payloads|}, payloads + [payload], lease);
    if payload.lease == lease {
      assert now == was + {|payloads|};
    } else {
      assert now == was;
    }
  }

  lemma UnregisterDropsHolder(registered: set<nat>, payloads: seq<Payload>, p: nat, lease: nat)
    requires p in registered && p < |payloads|
    ensures |Holders(registered, payloads, lease)| ==
            |Holders(registered - {p}, payloads, lease)| + if payloads[p].lease == lease then 1 else 0
  {
    var was := Holders(registered, payloads, lease);
    var now := Holders(registered - {p}, payloads, lease);
    if payloads[p].lease == lease {
      assert was == now + {p};
    } else {
      assert now == was;
    }
  }

  lemma PendingAddsIncoming(pending: map<nat, Pending>, op: nat, entry: Pending, lease: nat)
    requires op !in pending
    ensures |Incoming(pending[op := entry], lease)| ==
            |Incoming(pending, lease)| + if entry.Delivering? && entry.lease == lease then 1 else 0
  {
    var was := Incoming(pending, lease);
    var now := Incoming(pending[op := entry], lease);
    if entry.Delivering? && entry.lease == lease {
      assert now == was + {op};
    } else {
      assert now == was;
    }
  }

  lemma DoneDropsIncoming(pending: map<nat, Pending>, op: nat, lease: nat)
    requires op in pending
    ensures |Incoming(pending, lease)| ==
            |Incoming(pending - {op}, lease)| + if pending[op].Delivering? && pending[op].lease == lease then 1 else 0
  {
    assert (pending - {op})[op := pending[op]] == pending;
    PendingAddsIncoming(pending - {op}, op, pending[op], lease);
  }

  /** A registered payload's lease has a reference. */
  lemma RegisteredIsReferenced(w: World, p: nat)
    requires Counted(w) && p in w.registered && p < |w.payloads|
    ensures w.native[w.payloads[p].lease] > 0
  {
    var lease := w.payloads[p].lease;
    assert p in Holders(w.registered, w.payloads, lease);
    assert CountedAt(w, lease);
  }

  lemma ArriveKeepsInv(w: World, op: nat, lease: nat, hasData: bool, length: nat, scope: nat, admitted: bool)
    requires Inv(w)
    ensures Inv(OnArrive(w, op, lease, hasData, length, scope, admitted))
  {
    var v := OnArrive(w, op, lease, hasData, length, scope, admitted);
    forall l: nat ensures CountedAt(v, l) {
      assert CountedAt(w, l);
      if op !in w.pending { PendingAddsIncoming(w.pending, op, Delivering(lease, scope), l); }
    }
  }

  lemma BeginRetainKeepsInv(w: World, op: nat, payload: nat)
    requires Inv(w)
    ensures Inv(OnBeginRetain(w, op, payload))
  {
    var v := OnBeginRetain(w, op, payload);
    forall l: nat ensures CountedAt(v, l) {
      assert CountedAt(w, l);
      if op !in w.pending { PendingAddsIncoming(w.pending, op, Retaining(payload), l); }
    }
  }

  lemma CommitKeepsInv(w: World, op: nat)
    requires Inv(w)
    ensures Inv(OnCommit(w, op))
  {
    if op in w.pending {
      var v := OnCommit(w, op);
      if w.pending[op].Retaining? { RegisteredIsReferenced(w, w.pending[op].payload); }
      forall l: nat ensures CountedAt(v, l) {
        assert CountedAt(w, l);
        DoneDropsIncoming(w.pending, op, l);
        RegisterAddsHolder(w.registered, w.payloads, v.payloads[|w.payloads|], l);
      }
    }
  }

  lemma ReleaseKeepsInv(w: World, payload: nat)
    requires Inv(w)
    ensures Inv(OnRelease(w, payload))
  {
    if Releasable(w, payload) {
      var v := OnRelease(w, payload);
      RegisteredIsReferenced(w, payload);
      forall l: nat ensures CountedAt(v, l) {
        assert CountedAt(w, l);
        UnregisterDropsHolder(w.registered, w.payloads, payload, l);
      }
    }
  }

  lemma ClosingIsNoConcern(w: World, closing: map<nat, Closing>, closedScopes: set<nat>)
    requires Inv(w)
    ensures Inv(w.(closing := closing, closedScopes := closedScopes))
  {
    var v := w.(closing := closing, closedScopes := closedScopes);
    forall l: nat ensures CountedAt(v, l) {
      assert CountedAt(w, l);
    }
  }

  lemma StepKeepsInv(w: World, step: Step)
    requires Inv(w)
    ensures Inv(Next(w, step))
  {
    var v := Next(w, step);
    match step
    case Arrive(op, lease, hasData, length, scope, admitted) =>
      ArriveKeepsInv(w, op, lease, hasData, length, scope, admitted);
    case BeginRetain(op, payload) => BeginRetainKeepsInv(w, op, payload);
    case Commit(op) => CommitKeepsInv(w, op);
    case Release(payload) => ReleaseKeepsInv(w, payload);
    case CloseOne(closer, payload) =>
      ReleaseKeepsInv(w, payload);
      ClosingIsNoConcern(OnRelease(w, payload), v.closing, w.closedScopes);
    case _ => ClosingIsNoConcern(w, v.closing, v.closedScopes);
  }

  lemma {:induction false} RunKeepsInv(w: World, steps: seq<Step>)
    requires Inv(w)
    ensures Inv(Run(w, steps))
    decreases |steps|
  {
    if steps != [] {
      StepKeepsInv(w, steps[0]);
      RunKeepsInv(Next(w, steps[0]), steps[1..]);
    }
  }

  // ------------------------------------------------ what becomes of an arrival

  /** Told from the frame alone: the empty payload {0, no data, 0} and every refused shape
      leave the protocol as it was, references included.  A lease id with data of 1 byte to
      256 MiB is let in while its scope is open, and leaks once it is closed; a frame that is
      not admitted leaks whatever reference it brings. */
  lemma ArrivalIsDecided(w: World, op: nat, lease: nat, hasData: bool, length: nat, scope: nat, admitted: bool)
    requires op !in w.pending
    ensures var v := OnArrive(w, op, lease, hasData, length, scope, admitted);
            var whole := lease != 0 && hasData && 0 < length <= 268435456;
            && (op in v.pending <==> admitted && whole && scope !in w.closedScopes)
            && (op in v.pending ==>
                  v == w.(pending := w.pending[op := Delivering(lease, scope)], native := w.native + multiset{lease}))
            && (admitted && whole && scope in w.closedScopes ==>
                  v == w.(native := w.native + multiset{lease}, leaked := w.leaked + multiset{lease}))
            && (admitted && !whole ==> v == w)
            && (!admitted && lease != 0 ==>
                  v == w.(native := w.native + multiset{lease}, leaked := w.leaked + multiset{lease}))
            && (!admitted && lease == 0 ==> v == w)
  {
    assert w.native + multiset{lease} - multiset{lease} == w.native;
  }

  /** A Retain gets past its check exactly when its payload is there, unreleased, in an open
      scope and not being retained by another; a release takes effect exactly when its payload
      is there, unreleased and not being retained. */
  lemma RetainsAndReleasesAreDecided(w: World, op: nat, p: nat)
    requires op !in w.pending
    ensures var free := p < |w.payloads| && p !in w.released && forall o :: o in w.pending ==> w.pending[o] != Retaining(p);
            && OnBeginRetain(w, op, p) ==
                 (if free && w.payloads[p].scope !in w.closedScopes
                  then w.(pending := w.pending[op := Retaining(p)]) else w)
            && (p in OnRelease(w, p).released <==> free || p in w.released)
            && (!free ==> OnRelease(w, p) == w)
  {
  }

  // --------------------------------------------------------- reference counts

  /** In every run the references on a lease are its registered payloads, its deliveries
      under way and its leaks; no native call is refused; a payload is registered until its
      one native release; and as long as it is unreleased its bytes are referenced. */
  lemma ReferencesAreCounted(steps: seq<Step>, lease: nat, p: nat)
    ensures var w := Run(EMPTY, steps);
            && w.native[lease] == |Holders(w.registered, w.payloads, lease)| + |Incoming(w.pending, lease)| + w.leaked[lease]
            && w.refused == 0
            && w.issued[p] == (if p in w.released then 1 else 0)
            && (p in w.registered <==> p < |w.payloads| && p !in w.released)
            && (p < |w.payloads| && p !in w.released ==> w.native[w.payloads[p].lease] > 0)
  {
    NothingYet();
    RunKeepsInv(EMPTY, steps);
    var w := Run(EMPTY, steps);
    assert CountedAt(w, lease);
    if p < |w.payloads| && p !in w.released { RegisteredIsReferenced(w, p); }
  }

  lemma NothingYet()
    ensures Inv(EMPTY)
  {
    forall l: nat ensures CountedAt(EMPTY, l) {
      assert Holders(EMPTY.registered, EMPTY.payloads, l) == {};
      assert Incoming(EMPTY.pending, l) == {};
    }
  }

  // ------------------------------------------------------------------- leaks

  /** A frame brings a reference and is turned away by its layout, its missing inbox or its
      closed scope, none of which gives the reference back. */
  predicate Leaks(w: World, step: Step) {
    && step.Arrive? && step.op !in w.pending && step.lease != 0
    && (!step.admitted ||
        (!Malformed(step.lease, step.hasData, step.length) && step.scope in w.closedScopes))
  }

  predicate LeakFree(w: World, steps: seq<Step>)
    decreases |steps|
  {
    steps == [] || (!Leaks(w, steps[0]) && LeakFree(Next(w, steps[0]), steps[1..]))
  }

  lemma StepLeaksIff(w: World, step: Step)
    ensures Leaks(w, step) ==> Next(w, step).leaked == w.leaked + multiset{step.lease}
    ensures !Leaks(w, step) ==> Next(w, step).leaked == w.leaked
  {
  }

  lemma {:induction false} LeaksAccumulate(w: World, steps: seq<Step>)
    ensures w.leaked <= Run(w, steps).leaked
    ensures Run(w, steps).leaked == w.leaked <==> LeakFree(w, steps)
    decreases |steps|
  {
    if steps != [] {
      StepLeaksIff(w, steps[0]);
      LeaksAccumulate(Next(w, steps[0]), steps[1..]);
      if Leaks(w, steps[0]) {
        assert Next(w, steps[0]).leaked[steps[0].lease] == w.leaked[steps[0].lease] + 1;
      }
    }
  }

  /** Every lease has exactly one reference per registered payload and delivery under way. */
  ghost predicate Balanced(w: World) {
    forall lease: nat ::
      w.native[lease] == |Holders(w.registered, w.payloads, lease)| + |Incoming(w.pending, lease)|
  }

  /** A run ends balanced if and only if no frame in it was turned away with its reference. */
  lemma BalancedIff(steps: seq<Step>)
    ensures Balanced(Run(EMPTY, steps)) <==> LeakFree(EMPTY, steps)
  {
    NothingYet();
    RunKeepsInv(EMPTY, steps);
    LeaksAccumulate(EMPTY, steps);
    var w := Run(EMPTY, steps);
    if LeakFree(EMPTY, steps) {
      forall lease: nat
        ensures w.native[lease] == |Holders(w.registered, w.payloads, lease)| + |Incoming(w.pending, lease)|
      {
        assert CountedAt(w, lease);
      }
    } else {
      var lease :| lease in w.leaked;
      assert CountedAt(w, lease);
    }
  }

  /** A frame of an unknown layout leaves its reference behind: one reference, no payload. */
  lemma IncompatibleFrameLeaks(lease: nat, scope: nat)
    requires lease != 0
    ensures var w := Run(EMPTY, [Arrive(0, lease, true, 1, scope, false)]);
            w.native == multiset{lease} && w.payloads == [] && w.pending == map[] && !Balanced(w)
  {
    var steps := [Arrive(0, lease, true, 1, scope, false)];
    assert steps[1..] == [];
    assert Run(EMPTY, steps) == OnArrive(EMPTY, 0, lease, true, 1, scope, false);
    BalancedIff(steps);
  }

  // ----------------------------------------------------------------- closing

  function ScopeOf(w: World, entry: Pending): Option<nat> {
    match entry
    case Delivering(_, scope) => Some(scope)
    case Retaining(payload) => if payload < |w.payloads| then Some(w.payloads[payload].scope) else None
  }

  /** No delivery and no Retain on the scope is between its check and its registration. */
  predicate NoneUnderway(w: World, scope: nat) {
    forall op :: op in w.pending ==> ScopeOf(w, w.pending[op]) != Some(scope)
  }

  predicate ClosingInv(w: World) {
    forall c :: c in w.closing ==>
      && w.closing[c].scope in w.closedScopes
      && (forall p :: p in w.closing[c].remaining ==> p < |w.payloads|)
  }

  /** Everything registered in the scope is still on the closer's list. */
  predicate Covered(w: World, closer: nat) {
    closer in w.closing && forall p :: p in InScope(w, w.closing[closer].scope) ==> p in w.closing[closer].remaining
  }

  /** What holds from a snapshot with nothing under way on. */
  predicate Settled(w: World, closer: nat) {
    && Covered(w, closer) && w.closing[closer].snapshot
    && w.closing[closer].scope in w.closedScopes
    && NoneUnderway(w, w.closing[closer].scope)
  }

  lemma CommitStaysSettled(w: World, op: nat, closer: nat)
    requires Inv(w) && Settled(w, closer)
    ensures Settled(OnCommit(w, op), closer)
  {
    var v := OnCommit(w, op);
    var scope := w.closing[closer].scope;
    if op in w.pending {
      if w.pending[op].Retaining? { RegisteredIsReferenced(w, w.pending[op].payload); }
      assert ScopeOf(w, w.pending[op]) != Some(scope);
      assert v.payloads[|w.payloads|].scope != scope;
      forall o | o in v.pending ensures ScopeOf(v, v.pending[o]) != Some(scope) {
        assert ScopeOf(w, w.pending[o]) != Some(scope);
      }
    }
  }

  lemma ReleaseStaysSettled(w: World, payload: nat, closer: nat)
    requires Inv(w) && Settled(w, closer)
    ensures Settled(OnRelease(w, payload), closer)
  {
    var v := OnRelease(w, payload);
    forall o | o in v.pending ensures ScopeOf(v, v.pending[o]) != Some(w.closing[closer].scope) {
      assert ScopeOf(w, w.pending[o]) != Some(w.closing[closer].scope);
    }
  }

  lemma CloseOneStaysSettled(w: World, other: nat, payload: nat, closer: nat)
    requires Inv(w) && Settled(w, closer)
    ensures Settled(OnCloseOne(w, other, payload), closer)
  {
    var v := OnCloseOne(w, other, payload);
    ReleaseStaysSettled(w, payload, closer);
    if v != w {
      assert payload !in OnRelease(w, payload).registered;
      forall o | o in v.pending ensures ScopeOf(v, v.pending[o]) != Some(w.closing[closer].scope) {
        assert ScopeOf(w, w.pending[o]) != Some(w.closing[closer].scope);
      }
    }
  }

  /** What an arrival can change beside the references. */
  lemma ArrivalOnlyAdds(w: World, op: nat, lease: nat, hasData: bool, length: nat, scope: nat, admitted: bool)
    ensures var v := OnArrive(w, op, lease, hasData, length, scope, admitted);
            && v.closing == w.closing && v.closedScopes == w.closedScopes
            && v.payloads == w.payloads && v.registered == w.registered
            && (v.pending == w.pending ||
                (scope !in w.closedScopes && v.pending == w.pending[op := Delivering(lease, scope)]))
  {
  }

  lemma PendingStaysSettled(w: World, pending: map<nat, Pending>, native: multiset<nat>, leaked: multiset<nat>, closer: nat)
    requires Settled(w, closer)
    requires forall o :: o in pending && (o !in w.pending || pending[o] != w.pending[o]) ==>
                           ScopeOf(w, pending[o]) != Some(w.closing[closer].scope)
    ensures Settled(w.(pending := pending, native := native, leaked := leaked), closer)
  {
    var v := w.(pending := pending, native := native, leaked := leaked);
    var scope := w.closing[closer].scope;
    assert InScope(v, scope) == InScope(w, scope);
    forall o | o in v.pending ensures ScopeOf(v, v.pending[o]) != Some(scope) {
      if o in w.pending { assert ScopeOf(w, w.pending[o]) != Some(scope); }
    }
  }

  lemma StartingStaysSettled(w: World, step: Step, closer: nat)
    requires Settled(w, closer) && (step.Arrive? || step.BeginRetain?)
    ensures Settled(Next(w, step), closer)
  {
    var v := Next(w, step);
    if step.Arrive? {
      ArrivalOnlyAdds(w, step.op, step.lease, step.hasData, step.length, step.scope, step.admitted);
    }
    PendingStaysSettled(w, v.pending, v.native, v.leaked, closer);
  }

  lemma ClosingStaysSettled(w: World, step: Step, closer: nat)
    requires Inv(w) && Settled(w, closer) && (step.BeginClose? || step.Snapshot?)
    ensures Settled(Next(w, step), closer)
  {
    var v := Next(w, step);
    var scope := w.closing[closer].scope;
    assert v.pending == w.pending && v.payloads == w.payloads && v.registered == w.registered;
    assert v.closing[closer] == w.closing[closer];
    assert InScope(v, scope) == InScope(w, scope);
    forall o | o in v.pending ensures ScopeOf(v, v.pending[o]) != Some(scope) {
      assert ScopeOf(w, w.pending[o]) != Some(scope);
    }
  }

  lemma {:induction false} RunStaysSettled(w: World, steps: seq<Step>, closer: nat)
    requires Inv(w) && Settled(w, closer)
    ensures Settled(Run(w, steps), closer) && Run(w, steps).closing[closer].scope == w.closing[closer].scope
    decreases |steps|
  {
    if steps != [] {
      var step := steps[0];
      StepKeepsInv(w, step);
      match step {
        case Commit(op) => CommitStaysSettled(w, op, closer);
        case Release(payload) => ReleaseStaysSettled(w, payload, closer);
        case CloseOne(other, payload) => CloseOneStaysSettled(w, other, payload, closer);
        case Arrive(_, _, _, _, _, _) => StartingStaysSettled(w, step, closer);
        case BeginRetain(_, _) => StartingStaysSettled(w, step, closer);
        case _ => ClosingStaysSettled(w, step, closer);
      }
      RunStaysSettled(Next(w, step), steps[1..], closer);
    }
  }

  lemma ClosingKeepsClosingInv(w: World, step: Step)
    requires ClosingInv(w) && (step.BeginClose? || step.Snapshot? || step.CloseOne?)
    ensures ClosingInv(Next(w, step))
  {
    var v := Next(w, step);
    assert v.payloads == w.payloads && v.closedScopes >= w.closedScopes;
    forall c | c in v.closing
      ensures v.closing[c].scope in v.closedScopes && forall p :: p in v.closing[c].remaining ==> p < |v.payloads| {
      if c in w.closing {
        assert v.closing[c].scope == w.closing[c].scope;
        assert step.Snapshot? || v.closing[c].remaining <= w.closing[c].remaining;
      }
    }
  }

  lemma OthersLeaveClosing(w: World, step: Step)
    requires !step.BeginClose? && !step.Snapshot? && !step.CloseOne?
    ensures var v := Next(w, step);
            v.closing == w.closing && v.closedScopes == w.closedScopes && |v.payloads| >= |w.payloads|
  {
    match step
    case Arrive(op, lease, hasData, length, scope, admitted) =>
      ArrivalOnlyAdds(w, op, lease, hasData, length, scope, admitted);
    case BeginRetain(op, payload) => assert Next(w, step) == OnBeginRetain(w, op, payload);
    case Commit(op) => assert Next(w, step) == OnCommit(w, op);
    case Release(payload) => assert Next(w, step) == OnRelease(w, payload);
  }

  lemma {:induction false} RunKeepsClosingInv(w: World, steps: seq<Step>)
    requires ClosingInv(w)
    ensures ClosingInv(Run(w, steps))
    decreases |steps|
  {
    if steps != [] {
      var v := Next(w, steps[0]);
      if steps[0].BeginClose? || steps[0].Snapshot? || steps[0].CloseOne? {
        ClosingKeepsClosingInv(w, steps[0]);
      } else {
        OthersLeaveClosing(w, steps[0]);
      }
      RunKeepsClosingInv(v, steps[1..]);
    }
  }

  /** Once the closer has worked through its list, its stream has nothing registered. */
  ghost predicate EndsEmpty(w: World, closer: nat) {
    forall steps: seq<Step> :: FinishedMeansEmpty(Run(w, steps), closer)
  }

  predicate FinishedMeansEmpty(w: World, closer: nat) {
    closer in w.closing && w.closing[closer].remaining == {} ==> InScope(w, w.closing[closer].scope) == {}
  }

  /** Operations under way can all register. */
  lemma {:induction false} CommitAll(w: World, kept: nat) returns (steps: seq<Step>)
    requires Inv(w) && kept in w.registered
    ensures var v := Run(w, steps);
            Inv(v) && v.pending == map[] && v.closing == w.closing && kept in v.registered && w.payloads <= v.payloads
    decreases |w.pending|
  {
    if w.pending == map[] {
      steps := [];
    } else {
      var op :| op in w.pending;
      var v := OnCommit(w, op);
      StepKeepsInv(w, Commit(op));
      assert w.pending == v.pending[op := w.pending[op]];
      var rest := CommitAll(v, kept);
      steps := [Commit(op)] + rest;
      assert steps[1..] == rest;
      assert Run(w, steps) == Run(v, rest);
    }
  }

  /** With nothing under way a closer can work through its list, and touches nothing else. */
  lemma {:induction false} CloseAll(w: World, closer: nat, kept: nat) returns (steps: seq<Step>)
    requires Inv(w) && w.pending == map[] && closer in w.closing
    requires kept in w.registered && kept !in w.closing[closer].remaining
    ensures var v := Run(w, steps);
            && closer in v.closing && v.closing[closer] == w.closing[closer].(remaining := {})
            && kept in v.registered && v.payloads == w.payloads
    decreases w.closing[closer].remaining
  {
    if w.closing[closer].remaining == {} {
      steps := [];
    } else {
      var p :| p in w.closing[closer].remaining;
      var v := OnCloseOne(w, closer, p);
      StepKeepsInv(w, CloseOne(closer, p));
      var rest := CloseAll(v, closer, kept);
      steps := [CloseOne(closer, p)] + rest;
      assert steps[1..] == rest;
      assert Run(w, steps) == Run(v, rest);
    }
  }

  lemma OverlapOutlivesClose(w: World, closer: nat, op: nat) returns (steps: seq<Step>)
    requires Inv(w) && ClosingInv(w) && closer in w.closing && op in w.pending
    requires ScopeOf(w, w.pending[op]) == Some(w.closing[closer].scope)
    ensures !FinishedMeansEmpty(Run(w, steps), closer)
  {
    if w.pending[op].Retaining? { RegisteredIsReferenced(w, w.pending[op].payload); }
    var scope := w.closing[closer].scope;
    var v := OnCommit(w, op);
    StepKeepsInv(w, Commit(op));
    var kept := |w.payloads|;
    assert v.payloads[kept].scope == scope && v.closing == w.closing;
    var committing := CommitAll(v, kept);
    var u := Run(v, committing);
    var closing := CloseAll(u, closer, kept);
    var t := Run(u, closing);
    assert kept in InScope(t, scope);
    steps := [Commit(op)] + (committing + closing);
    assert steps[1..] == committing + closing;
    RunsThrough(v, committing, closing);
    assert Run(w, steps) == Run(v, committing + closing);
  }

  /** In every run, a close that takes its snapshot and works through its list leaves no
      payload of its stream registered, if and only if no delivery and no Retain on that
      stream overlaps the snapshot. */
  lemma CloseReleasesEverythingIff(before: seq<Step>, closer: nat)
    requires closer in Run(EMPTY, before).closing && !Run(EMPTY, before).closing[closer].snapshot
    ensures var w := OnSnapshot(Run(EMPTY, before), closer);
            EndsEmpty(w, closer) <==> NoneUnderway(w, w.closing[closer].scope)
  {
    NothingYet();
    RunKeepsInv(EMPTY, before);
    RunKeepsClosingInv(EMPTY, before);
    var u := Run(EMPTY, before);
    StepKeepsInv(u, Snapshot(closer));
    ClosingKeepsClosingInv(u, Snapshot(closer));
    var w := OnSnapshot(u, closer);
    var scope := w.closing[closer].scope;
    assert InScope(w, scope) == InScope(u, scope);
    if NoneUnderway(w, scope) {
      forall steps: seq<Step> ensures FinishedMeansEmpty(Run(w, steps), closer) {
        RunStaysSettled(w, steps, closer);
      }
    } else {
      var op :| op in w.pending && ScopeOf(w, w.pending[op]) == Some(scope);
      var steps := OverlapOutlivesClose(w, closer, op);
      assert !FinishedMeansEmpty(Run(w, steps), closer);
    }
  }

  /** One payload on lease 7 in scope 3, with a Retain of it under way. */
  const UNDERWAY := World(multiset{7}, [Payload(7, 3)], {0}, {}, {}, map[1 := Retaining(0)], map[], multiset{}, 0, multiset{})

  lemma ReachUnderway()
    ensures Run(EMPTY, [Arrive(0, 7, true, 1, 3, true), Commit(0), BeginRetain(1, 0)]) == UNDERWAY
  {
    ThreeSteps(EMPTY, Arrive(0, 7, true, 1, 3, true), Commit(0), BeginRetain(1, 0));
    var w0 := OnArrive(EMPTY, 0, 7, true, 1, 3, true);
    assert w0 == EMPTY.(native := multiset{7}, pending := map[0 := Delivering(7, 3)]);
    var w1 := OnCommit(w0, 0);
    assert w1.pending == map[];
    assert w1 == EMPTY.(native := multiset{7}, payloads := [Payload(7, 3)], registered := {0});
    assert OnBeginRetain(w1, 1, 0) == UNDERWAY;
  }

  /** The Retain has committed behind the snapshot. */
  predicate Behind(w: World) {
    && w.payloads == [Payload(7, 3), Payload(7, 3)] && w.registered == {0, 1} && w.released == {}
    && w.pending == map[] && w.native == multiset{7, 7}
    && w.closing == map[0 := Closing(3, true, {0})]
  }

  lemma CloseAroundUnderway()
    ensures Behind(Run(UNDERWAY, [BeginClose(0, 3), Snapshot(0), Commit(1)]))
  {
    ThreeSteps(UNDERWAY, BeginClose(0, 3), Snapshot(0), Commit(1));
    var w3 := OnBeginClose(UNDERWAY, 0, 3);
    assert InScope(w3, 3) == {0};
    var w4 := OnSnapshot(w3, 0);
    assert w4.closing == map[0 := Closing(3, true, {0})];
    assert w4.pending[1] == Retaining(0);
  }

  /** The close has finished and payload 1 is still there. */
  predicate LeftBehind(w: World) {
    && 0 in w.closing && w.closing[0].snapshot && w.closing[0].remaining == {}
    && 1 in InScope(w, w.closing[0].scope) && w.native[7] == 1
  }

  lemma FinishClose(w: World)
    requires Behind(w)
    ensures LeftBehind(Run(w, [CloseOne(0, 0)]))
  {
    assert [CloseOne(0, 0)][1..] == [];
    var v := OnCloseOne(w, 0, 0);
    assert Run(w, [CloseOne(0, 0)]) == v;
    assert v.registered == {1};
    assert v.closing[0] == Closing(3, true, {0} - {0});
  }

  /** A Retain that passed its check just before the scope was closed: the close finishes
      and its payload stays registered and referenced. */
  lemma RetainOutlivesClose()
    ensures exists steps: seq<Step> :: LeftBehind(Run(EMPTY, steps))
  {
    var first := [Arrive(0, 7, true, 1, 3, true), Commit(0), BeginRetain(1, 0)];
    var second := [BeginClose(0, 3), Snapshot(0), Commit(1)];
    ReachUnderway();
    CloseAroundUnderway();
    RunsThrough(EMPTY, first, second);
    FinishClose(Run(UNDERWAY, second));
    RunsThrough(EMPTY, first + second, [CloseOne(0, 0)]);
    assert LeftBehind(Run(EMPTY, first + second + [CloseOne(0, 0)]));
  }

  lemma {:induction false} RunsThrough(w: World, first: seq<Step>, second: seq<Step>)
    ensures Run(w, first + second) == Run(Run(w, first), second)
    decreases |first|
  {
    if first == [] {
      assert first + second == second;
    } else {
      assert (first + second)[1..] == first[1..] + second;
      RunsThrough(Next(w, first[0]), first[1..], second);
    }
  }

  lemma ThreeSteps(w: World, a: Step, b: Step, c: Step)
    ensures Run(w, [a, b, c]) == Next(Next(Next(w, a), b), c)
  {
    assert [a, b, c][1..] == [b, c] && [b, c][1..] == [c] && [c][1..] == [];
    assert Run(w, [a, b, c]) == Run(Next(w, a), [b, c]);
    assert Run(Next(w, a), [b, c]) == Run(Next(Next(w, a), b), [c]);
  }

  // -------------------------------------------- operations without interruption

  predicate Carries(lease: nat, hasData: bool, length: nat) {
    !Malformed(lease, hasData, length) && length != 0
  }

  function Arrived(w: World, lease: nat, hasData: bool, length: nat, scope: nat): World {
    var added := Carries(lease, hasData, length) && scope !in w.closedScopes;
    w.(native := if Malformed(lease, hasData, length) then GivenBack(Granted(w.native, lease), lease)
                 else Granted(w.native, lease),
       payloads := if added then w.payloads + [Payload(lease, scope)] else w.payloads,
       registered := if added then w.registered + {|w.payloads|} else w.registered,
       leaked := if Carries(lease, hasData, length) && scope in w.closedScopes then w.leaked + multiset{lease} else w.leaked)
  }

  lemma ArrivedIsTwoSteps(w: World, op: nat, lease: nat, hasData: bool, length: nat, scope: nat)
    requires op !in w.pending
    ensures OnCommit(OnArrive(w, op, lease, hasData, length, scope, true), op) == Arrived(w, lease, hasData, length, scope)
  {
    var v := OnArrive(w, op, lease, hasData, length, scope, true);
    assert w.pending[op := Delivering(lease, scope)] - {op} == w.pending;
  }

  /** Open and unreleased: what a Retain asks of its payload. */
  predicate Live(w: World, p: nat) {
    p < |w.payloads| && p !in w.released && w.payloads[p].scope !in w.closedScopes
  }

  predicate Referenced(w: World, p: nat) {
    p < |w.payloads| && w.payloads[p].lease in w.native
  }

  function Retained(w: World, p: nat): World
    requires p < |w.payloads|
  {
    var added := Live(w, p) && Referenced(w, p);
    w.(native := if added then w.native + multiset{w.payloads[p].lease} else w.native,
       payloads := if added then w.payloads + [w.payloads[p]] else w.payloads,
       registered := if added then w.registered + {|w.payloads|} else w.registered,
       refused := if Live(w, p) && !Referenced(w, p) then w.refused + 1 else w.refused)
  }

  lemma RetainedIsTwoSteps(w: World, op: nat, p: nat)
    requires op !in w.pending && p < |w.payloads| && !Locked(w, p)
    ensures OnCommit(OnBeginRetain(w, op, p), op) == Retained(w, p)
  {
    var v := OnBeginRetain(w, op, p);
    assert w.pending[op := Retaining(p)] - {op} == w.pending;
  }

  function Released(w: World, p: nat): World
    requires p < |w.payloads|
  {
    var due := p !in w.released;
    w.(released := if due then w.released + {p} else w.released,
       registered := if due then w.registered - {p} else w.registered,
       issued := if due then w.issued + multiset{p} else w.issued,
       native := if due then w.native - multiset{w.payloads[p].lease} else w.native,
       refused := if due && !Referenced(w, p) then w.refused + 1 else w.refused)
  }

  lemma ReleasedIsOneStep(w: World, p: nat)
    requires p < |w.payloads| && !Locked(w, p)
    ensures OnRelease(w, p) == Released(w, p)
  {
  }

  // ------------------------------------------------------------------ object

  /** The transport's table of leased payloads beside the native side it calls, with every
      operation run through without interruption. */
  class LeaseTable {
    var native: multiset<nat>
    var payloads: seq<Payload>
    var registered: set<nat>
    var released: set<nat>
    var closedScopes: set<nat>
    ghost var issued: multiset<nat>
    ghost var refused: nat
    ghost var leaked: multiset<nat>

    ghost function View(): World
      reads this
    {
      World(native, payloads, registered, released, closedScopes, map[], map[], issued, refused, leaked)
    }

    constructor ()
      ensures View() == EMPTY
    {
      native, payloads, registered, released, closedScopes := multiset{}, [], {}, {}, {};
      issued, refused, leaked := multiset{}, 0, multiset{};
    }

    /** A frame's payload: the new payload, nothing for an empty one, or an error. */
    method NewLeasedPayload(lease: nat, hasData: bool, length: nat, scope: nat)
      returns (ok: bool, payload: Option<nat>)
      modifies this
      ensures View() == Arrived(old(View()), lease, hasData, length, scope)
      ensures ok <==> !Malformed(lease, hasData, length) && (length == 0 || scope !in old(closedScopes))
      ensures payload == if ok && length != 0 then Some(|old(payloads)|) else None
      ensures ok && payload.None? <==> lease == 0 && !hasData && length == 0
      ensures payload.Some? <==> lease != 0 && hasData && 0 < length <= 268435456 && scope !in old(closedScopes)
    {
      var brought := Granted(native, lease);
      ok, payload := false, None;
      if length == 0 && (lease != 0 || hasData) {
        native := GivenBack(brought, lease);
      } else if length == 0 {
        native := brought;
        ok := true;
      } else if lease == 0 || !hasData || length > MAX_PAYLOAD_BYTES {
        native := GivenBack(brought, lease);
      } else if scope in closedScopes {
        native := brought;
        leaked := leaked + multiset{lease};
      } else {
        native := brought;
        ok, payload := true, Some(|payloads|);
        registered := registered + {|payloads|};
        payloads := payloads + [Payload(lease, scope)];
      }
    }

    method Retain(p: nat) returns (retained: Option<nat>)
      requires p < |payloads|
      modifies this
      ensures View() == Retained(old(View()), p)
      ensures retained == if old(Live(View(), p) && Referenced(View(), p)) then Some(|old(payloads)|) else None
      ensures retained.Some? <==>
                p !in old(released) && old(payloads)[p].scope !in old(closedScopes) && old(payloads)[p].lease in old(native)
      ensures retained.Some? ==> payloads == old(payloads) + [old(payloads)[p]]
    {
      retained := None;
      if p !in released && payloads[p].scope !in closedScopes {
        if payloads[p].lease in native {
          native := native + multiset{payloads[p].lease};
          retained := Some(|payloads|);
          registered := registered + {|payloads|};
          payloads := payloads + [payloads[p]];
        } else {
          refused := refused + 1;
        }
      }
    }

    method Release(p: nat)
      requires p < |payloads|
      modifies this
      ensures View() == Released(old(View()), p)
      ensures released == old(released) + {p}
      ensures p !in old(released) ==> native == old(native) - multiset{payloads[p].lease} && registered == old(registered) - {p}
      ensures p in old(released) ==> View() == old(View())
    {
      if p !in released {
        ghost var issuedNow := issued + multiset{p};
        var nativeNow := native - multiset{payloads[p].lease};
        released := released + {p};
        registered := registered - {p};
        issued := issuedNow;
        if payloads[p].lease !in native {
          refused := refused + 1;
        }
        native := nativeNow;
      }
    }

    /** Releasing a registered payload keeps the references balanced. */
    method ReleaseRegistered(p: nat)
      requires Inv(View()) && p in registered
      modifies this
      ensures Inv(View()) && registered == old(registered) - {p} && released == old(released) + {p}
      ensures payloads == old(payloads) && closedScopes == old(closedScopes) && leaked == old(leaked)
    {
      ReleasedIsOneStep(View(), p);
      ReleaseKeepsInv(View(), p);
      Release(p);
    }

    /** Closing a scope: exactly its payloads are released, once each, and the references
        stay balanced with what is left. */
    method ReleaseLeases(scope: nat)
      requires Inv(View())
      modifies this
      ensures Inv(View())
      ensures InScope(View(), scope) == {}
      ensures registered == old(registered) - old(InScope(View(), scope))
      ensures released == old(released) + old(InScope(View(), scope))
      ensures payloads == old(payloads) && closedScopes == old(closedScopes) + {scope} && leaked == old(leaked)
    {
      closedScopes := closedScopes + {scope};
      ghost var w := old(View());
      ClosingIsNoConcern(w, map[], closedScopes);
      var snapshot := set p | p in registered && p < |payloads| && payloads[p].scope == scope;
      assert snapshot == InScope(w, scope);
      var rest := snapshot;
      ghost var done: set<nat> := {};
      while rest != {}
        invariant Inv(View()) && rest <= snapshot && done == snapshot - rest
        invariant registered == old(registered) - done && released == old(released) + done
        invariant payloads == old(payloads) && closedScopes == old(closedScopes) + {scope} && leaked == old(leaked)
        decreases rest
      {
        var p :| p in rest;
        ReleaseRegistered(p);
        rest, done := rest - {p}, done + {p};
        assert registered == old(registered) - done;
      }
      assert done == snapshot;
    }
  }
}
