/** The registry of prepared native handles and its exclusive signing claim.  Every
    operation runs under the registry's mutex, so a run is a sequence of whole operations. */
module PreparedHandles {
  import opened Common

  datatype Handle = Handle(nativeID: nat, signing: bool)

  type Table = map<string, Handle>

  // ------------------------------------------------------ what each call does

  function Registered(table: Table, key: string, nativeID: nat): Table {
    if key in table then table else table[key := Handle(nativeID, false)]
  }

  predicate Claimable(table: Table, key: string) {
    key in table && table[key].nativeID != 0 && !table[key].signing
  }

  function Claimed(table: Table, key: string): Table {
    if Claimable(table, key) then table[key := table[key].(signing := true)] else table
  }

  /** The entry that a release or a consume with this key and id acts on. */
  predicate Held(table: Table, key: string, nativeID: nat) {
    key in table && table[key].nativeID == nativeID && table[key].signing
  }

  function Unclaimed(table: Table, key: string, nativeID: nat): Table {
    if Held(table, key, nativeID) then table[key := table[key].(signing := false)] else table
  }

  function Consumed(table: Table, key: string, nativeID: nat): Table {
    if Held(table, key, nativeID) then table - {key} else table
  }

  // -------------------------------------------------------------------- runs

  /** A submission between its claim and its release or consume. */
  datatype Claim = Claim(key: string, nativeID: nat, registration: nat)

  /** Accepted registrations are numbered; `current` numbers those in the table. */
  datatype World = World(
    table: Table, current: map<string, nat>, registrations: seq<(string, nat)>,
    consumed: set<nat>, drained: set<nat>, claims: map<nat, Claim>)

  datatype Step = Register(key: string, nativeID: nat) | ClaimFor(signer: nat, key: string)
                | Release(signer: nat) | Consume(signer: nat) | Drain

  const EMPTY := World(map[], map[], [], {}, {}, map[])

  function OnRegister(w: World, key: string, nativeID: nat): World {
    if key in w.table then w
    else w.(table := Registered(w.table, key, nativeID),
            current := w.current[key := |w.registrations|],
            registrations := w.registrations + [(key, nativeID)])
  }

  function OnClaim(w: World, signer: nat, key: string): World {
    if signer in w.claims || !Claimable(w.table, key) || key !in w.current then w
    else w.(table := Claimed(w.table, key),
            claims := w.claims[signer := Claim(key, w.table[key].nativeID, w.current[key])])
  }

  function OnRelease(w: World, signer: nat): World {
    if signer !in w.claims then w
    else w.(table := Unclaimed(w.table, w.claims[signer].key, w.claims[signer].nativeID),
            claims := w.claims - {signer})
  }

  function OnConsume(w: World, signer: nat): World {
    if signer !in w.claims then w
    else
      var claim := w.claims[signer];
      var hit := Held(w.table, claim.key, claim.nativeID) && claim.key in w.current;
      w.(table := Consumed(w.table, claim.key, claim.nativeID),
         current := if hit then w.current - {claim.key} else w.current,
         consumed := if hit then w.consumed + {w.current[claim.key]} else w.consumed,
         claims := w.claims - {signer})
  }

  function OnDrain(w: World): World {
    w.(table := map[], current := map[], drained := w.drained + w.current.Values)
  }

  function Next(w: World, step: Step): World {
    match step
    case Register(key, nativeID) => OnRegister(w, key, nativeID)
    case ClaimFor(signer, key) => OnClaim(w, signer, key)
    case Release(signer) => OnRelease(w, signer)
    case Consume(signer) => OnConsume(w, signer)
    case Drain => OnDrain(w)
  }

  function Run(w: World, steps: seq<Step>): World
    decreases |steps|
  {
    if steps == [] then w else Run(Next(w, steps[0]), steps[1..])
  }

  // -------------------------------------------------------------- invariants

  predicate InTable(w: World, registration: nat) {
    registration in w.current.Values
  }

  predicate NumberingInv(w: World) {
    && w.current.Keys == w.table.Keys
    && (forall key :: key in w.current ==>
          w.current[key] < |w.registrations| && w.registrations[w.current[key]] == (key, w.table[key].nativeID))
    && (forall signer :: signer in w.claims ==>
          && w.claims[signer].registration < |w.registrations|
          && w.registrations[w.claims[signer].registration] == (w.claims[signer].key, w.claims[signer].nativeID)
          && w.claims[signer].nativeID != 0)
  }

  /** Every accepted registration is in exactly one of the table, consumed and drained. */
  ghost predicate FateInv(w: World) {
    && w.consumed !! w.drained
    && (forall r: nat :: r < |w.registrations| <==> InTable(w, r) || r in w.consumed || r in w.drained)
    && (forall r: nat :: InTable(w, r) ==> r !in w.consumed && r !in w.drained)
  }

  ghost predicate Inv(w: World) {
    NumberingInv(w) && FateInv(w)
  }

  lemma NumbersAreDistinct(w: World, key: string, other: string)
    requires NumberingInv(w) && key in w.current && other in w.current && key != other
    ensures w.current[key] != w.current[other]
  {
  }

  lemma RegisterKeepsInv(w: World, key: string, nativeID: nat)
    requires Inv(w)
    ensures Inv(OnRegister(w, key, nativeID))
  {
    var v := OnRegister(w, key, nativeID);
    if key !in w.table {
      assert |w.registrations| !in w.consumed && |w.registrations| !in w.drained;
      forall r: nat ensures InTable(v, r) <==> InTable(w, r) || r == |w.registrations| {
        if r == |w.registrations| { assert v.current[key] == r; }
        if InTable(w, r) { var k :| k in w.current && w.current[k] == r; assert v.current[k] == r; }
      }
    }
  }

  lemma ClaimKeepsInv(w: World, signer: nat, key: string)
    requires Inv(w)
    ensures Inv(OnClaim(w, signer, key))
  {
    var v := OnClaim(w, signer, key);
    assert v.current == w.current;
    assert v.table.Keys == w.table.Keys;
    forall r: nat ensures InTable(v, r) == InTable(w, r) {}
  }

  lemma ReleaseKeepsInv(w: World, signer: nat)
    requires Inv(w)
    ensures Inv(OnRelease(w, signer))
  {
    var v := OnRelease(w, signer);
    assert v.current == w.current;
    assert v.table.Keys == w.table.Keys;
    forall r: nat ensures InTable(v, r) == InTable(w, r) {}
  }

  lemma ConsumeKeepsInv(w: World, signer: nat)
    requires Inv(w)
    ensures Inv(OnConsume(w, signer))
  {
    var v := OnConsume(w, signer);
    if signer in w.claims && Held(w.table, w.claims[signer].key, w.claims[signer].nativeID) {
      var key := w.claims[signer].key;
      var gone := w.current[key];
      assert InTable(w, gone);
      forall r: nat ensures InTable(v, r) <==> InTable(w, r) && r != gone {
        if InTable(w, r) && r != gone {
          var k :| k in w.current && w.current[k] == r;
          assert v.current[k] == r;
        }
        if InTable(v, r) {
          var k :| k in v.current && v.current[k] == r;
          NumbersAreDistinct(w, k, key);
          assert w.current[k] == r;
        }
      }
    } else {
      forall r: nat ensures InTable(v, r) == InTable(w, r) {}
    }
  }

  lemma DrainKeepsInv(w: World)
    requires Inv(w)
    ensures Inv(OnDrain(w))
  {
    var v := OnDrain(w);
    forall r: nat ensures !InTable(v, r) && (r in v.drained <==> r in w.drained || InTable(w, r)) {}
    forall r: nat ensures r < |v.registrations| <==> InTable(v, r) || r in v.consumed || r in v.drained {
      assert r < |w.registrations| <==> InTable(w, r) || r in w.consumed || r in w.drained;
    }
    forall r | r in v.consumed ensures r !in v.drained {
      if InTable(w, r) { assert false; }
    }
  }

  lemma StepKeepsInv(w: World, step: Step)
    requires Inv(w)
    ensures Inv(Next(w, step))
  {
    match step
    case Register(key, nativeID) => RegisterKeepsInv(w, key, nativeID);
    case ClaimFor(signer, key) => ClaimKeepsInv(w, signer, key);
    case Release(signer) => ReleaseKeepsInv(w, signer);
    case Consume(signer) => ConsumeKeepsInv(w, signer);
    case Drain => DrainKeepsInv(w);
  }

  lemma {:induction false} RunKeepsInv(w: World, steps: seq<Step>)
    requires Inv(w)
    ensures Inv(Run(w, steps))
    decreases |steps|
  {
    if steps != [] {
      StepKeepsInv(w, steps[0]);
      RunKeepsInv(Next(w, steps[0]), steps[1..]);
    }
  }

  /** In every run, reused native ids or not, every accepted registration is in exactly one
      of the table, the consumed ones and the drained ones. */
  lemma RegistrationsAreAccountedFor(steps: seq<Step>, r: nat)
    ensures var w := Run(EMPTY, steps);
            && (r < |w.registrations| <==> InTable(w, r) || r in w.consumed || r in w.drained)
            && !(InTable(w, r) && r in w.consumed) && !(InTable(w, r) && r in w.drained)
            && !(r in w.consumed && r in w.drained)
  {
    RunKeepsInv(EMPTY, steps);
  }

  // ------------------------------------------------------------ exclusiveness

  /** No two submissions hold the same registration. */
  predicate Exclusive(w: World) {
    forall a, b :: a in w.claims && b in w.claims && w.claims[a].registration == w.claims[b].registration ==> a == b
  }

  predicate IsCurrent(w: World, claim: Claim) {
    claim.key in w.current && w.current[claim.key] == claim.registration
  }

  predicate LooksCurrent(table: Table, claim: Claim) {
    claim.key in table && table[claim.key].nativeID == claim.nativeID
  }

  /** A claim on the current registration is the one recorded in the table, and no stale
      claim can be taken for it. */
  predicate Recorded(w: World) {
    && (forall a :: a in w.claims && IsCurrent(w, w.claims[a]) && w.claims[a].key in w.table ==>
          w.table[w.claims[a].key].signing)
    && (forall a :: a in w.claims && LooksCurrent(w.table, w.claims[a]) ==> IsCurrent(w, w.claims[a]))
  }

  ghost predicate ExclusionInv(w: World) {
    Inv(w) && Exclusive(w) && Recorded(w)
  }

  /** A submission still out holds this key with this native id. */
  predicate Outstanding(w: World, key: string, nativeID: nat) {
    exists a :: a in w.claims && w.claims[a].key == key && w.claims[a].nativeID == nativeID
  }

  /** The native side does not hand out an id again for a key while an old claim on that
      pair is out. */
  predicate Clean(w: World, step: Step) {
    step.Register? && step.key !in w.table ==> !Outstanding(w, step.key, step.nativeID)
  }

  predicate CleanRun(w: World, steps: seq<Step>)
    decreases |steps|
  {
    steps == [] || (Clean(w, steps[0]) && CleanRun(Next(w, steps[0]), steps[1..]))
  }

  lemma RegisterKeepsExclusion(w: World, key: string, nativeID: nat)
    requires ExclusionInv(w) && Clean(w, Register(key, nativeID))
    ensures ExclusionInv(OnRegister(w, key, nativeID))
  {
    RegisterKeepsInv(w, key, nativeID);
  }

  lemma ClaimKeepsExclusion(w: World, signer: nat, key: string)
    requires ExclusionInv(w)
    ensures ExclusionInv(OnClaim(w, signer, key))
  {
    ClaimKeepsInv(w, signer, key);
  }

  lemma ReleaseKeepsExclusion(w: World, signer: nat)
    requires ExclusionInv(w)
    ensures ExclusionInv(OnRelease(w, signer))
  {
    ReleaseKeepsInv(w, signer);
  }

  lemma ConsumeKeepsExclusion(w: World, signer: nat)
    requires ExclusionInv(w)
    ensures ExclusionInv(OnConsume(w, signer))
  {
    ConsumeKeepsInv(w, signer);
  }

  lemma StepKeepsExclusion(w: World, step: Step)
    requires ExclusionInv(w) && Clean(w, step)
    ensures ExclusionInv(Next(w, step))
  {
    match step
    case Register(key, nativeID) => RegisterKeepsExclusion(w, key, nativeID);
    case ClaimFor(signer, key) => ClaimKeepsExclusion(w, signer, key);
    case Release(signer) => ReleaseKeepsExclusion(w, signer);
    case Consume(signer) => ConsumeKeepsExclusion(w, signer);
    case Drain => DrainKeepsInv(w);
  }

  lemma {:induction false} RunKeepsExclusion(w: World, steps: seq<Step>)
    requires ExclusionInv(w) && CleanRun(w, steps)
    ensures ExclusionInv(Run(w, steps))
    decreases |steps|
  {
    if steps != [] {
      StepKeepsExclusion(w, steps[0]);
      RunKeepsExclusion(Next(w, steps[0]), steps[1..]);
    }
  }

  /** No native id is ever registered twice. */
  predicate FreshRun(w: World, steps: seq<Step>)
    decreases |steps|
  {
    steps != [] ==>
    && (steps[0].Register? ==> forall r :: 0 <= r < |w.registrations| ==> w.registrations[r].1 != steps[0].nativeID)
    && FreshRun(Next(w, steps[0]), steps[1..])
  }

  lemma {:induction false} FreshRunsAreClean(w: World, steps: seq<Step>)
    requires Inv(w) && FreshRun(w, steps)
    ensures CleanRun(w, steps)
    decreases |steps|
  {
    if steps != [] {
      StepKeepsInv(w, steps[0]);
      FreshRunsAreClean(Next(w, steps[0]), steps[1..]);
    }
  }

  /** With native ids never reused, every run has at most one signer per registration; the
      holder's release makes the key claimable again and its consume retires it; and a release or consume left over
      from a drained registration changes nothing. */
  lemma OneSignerAtATime(steps: seq<Step>, a: nat, b: nat)
    requires FreshRun(EMPTY, steps)
    requires a in Run(EMPTY, steps).claims
    ensures var w := Run(EMPTY, steps);
            && (b in w.claims && w.claims[a].registration == w.claims[b].registration ==> a == b)
            && (IsCurrent(w, w.claims[a]) ==>
                  && Held(w.table, w.claims[a].key, w.claims[a].nativeID)
                  && Claimable(OnRelease(w, a).table, w.claims[a].key)
                  && w.claims[a].key !in OnConsume(w, a).table
                  && w.claims[a].registration in OnConsume(w, a).consumed)
            && (!IsCurrent(w, w.claims[a]) ==>
                  OnRelease(w, a).table == w.table && OnConsume(w, a).table == w.table &&
                  OnConsume(w, a).consumed == w.consumed)
  {
    FreshRunsAreClean(EMPTY, steps);
    RunKeepsExclusion(EMPTY, steps);
  }

  // --------------------------------------------- what happens when ids come back

  /** However the run goes on without further reuse, no registration gets two signers. */
  ghost predicate StaysExclusive(w: World) {
    forall steps: seq<Step> :: CleanRun(w, steps) ==> Exclusive(Run(w, steps))
  }

  lemma {:induction false} SomethingElse(s: set<nat>) returns (n: nat)
    ensures n !in s
  {
    var rest := s;
    n := 0;
    while rest != {}
      invariant rest <= s
      invariant forall x :: x in s && x !in rest ==> x < n
      decreases rest
    {
      var x :| x in rest;
      rest := rest - {x};
      n := if x < n then n else x + 1;
    }
  }

  /** An old holder `a`, a new holder `b`, and `a` again. */
  lemma StaleReleaseAdmitsASecondSigner(w: World, key: string, nativeID: nat, a: nat, b: nat)
    requires ExclusionInv(w) && key !in w.table && a in w.claims && b !in w.claims
    requires w.claims[a].key == key && w.claims[a].nativeID == nativeID
    ensures var v := OnClaim(OnRelease(OnClaim(OnRegister(w, key, nativeID), b, key), a), a, key);
            a in v.claims && b in v.claims && v.claims[a].registration == v.claims[b].registration && a != b
  {
    var v := OnRegister(w, key, nativeID);
    assert Claimable(v.table, key);
    var u := OnClaim(v, b, key);
    assert Held(u.table, key, nativeID) && u.claims[a] == w.claims[a];
    var t := OnRelease(u, a);
    assert Claimable(t.table, key) && t.current == v.current;
  }

  /** Registering a key keeps signing exclusive if and only if no old claim on the same key
      and native id is still out. */
  lemma RegisterIsSafeIff(w: World, key: string, nativeID: nat)
    requires ExclusionInv(w) && key !in w.table
    ensures StaysExclusive(OnRegister(w, key, nativeID)) <==> !Outstanding(w, key, nativeID)
  {
    var v := OnRegister(w, key, nativeID);
    if Outstanding(w, key, nativeID) {
      var a :| a in w.claims && w.claims[a].key == key && w.claims[a].nativeID == nativeID;
      var b := SomethingElse(w.claims.Keys);
      StaleReleaseAdmitsASecondSigner(w, key, nativeID, a, b);
      ThreeQuietSteps(v, ClaimFor(b, key), Release(a), ClaimFor(a, key));
      assert !Exclusive(Run(v, [ClaimFor(b, key), Release(a), ClaimFor(a, key)]));
    } else {
      RegisterKeepsExclusion(w, key, nativeID);
      forall steps: seq<Step> | CleanRun(v, steps) ensures Exclusive(Run(v, steps)) {
        RunKeepsExclusion(v, steps);
      }
    }
  }

  /** It does happen: a submission is out when the registry is drained, and the native side
      then hands out the same id for the same key. */
  lemma ReuseAfterDrainIsUnsafe(key: string, nativeID: nat, signer: nat)
    requires nativeID != 0
    ensures var w := OnDrain(OnClaim(OnRegister(EMPTY, key, nativeID), signer, key));
            !StaysExclusive(OnRegister(w, key, nativeID))
  {
    RegisterKeepsExclusion(EMPTY, key, nativeID);
    var v := OnRegister(EMPTY, key, nativeID);
    ClaimKeepsExclusion(v, signer, key);
    var u := OnClaim(v, signer, key);
    StepKeepsExclusion(u, Drain);
    assert u.claims[signer].key == key && u.claims[signer].nativeID == nativeID;
    var w := OnDrain(u);
    assert signer in w.claims;
    RegisterIsSafeIff(w, key, nativeID);
  }

  lemma ThreeQuietSteps(w: World, x: Step, y: Step, z: Step)
    requires !x.Register? && !y.Register? && !z.Register?
    ensures CleanRun(w, [x, y, z])
    ensures Run(w, [x, y, z]) == Next(Next(Next(w, x), y), z)
  {
    var v := Next(w, x);
    var u := Next(v, y);
    assert [x, y, z][1..] == [y, z] && [y, z][1..] == [z] && [z][1..] == [];
    assert Run(u, [z]) == Next(u, z) && CleanRun(u, [z]);
    assert Run(v, [y, z]) == Run(u, [z]) && CleanRun(v, [y, z]);
  }

  // ------------------------------------------------------------------ object

  class PreparedHandleRegistry {
    var handles: Table

    constructor ()
      ensures handles == map[]
    {
      handles := map[];
    }

    /** `freed` is the id given back to the native side when the key is taken. */
    method Register(key: string, preparedID: nat) returns (freed: Option<nat>)
      modifies this
      ensures handles == Registered(old(handles), key, preparedID)
      ensures freed == if key in old(handles) then Some(preparedID) else None
      ensures key in handles && (key !in old(handles) ==> handles[key] == Handle(preparedID, false))
      ensures forall k :: k in old(handles) ==> k in handles && handles[k] == old(handles)[k]
      ensures handles.Keys == old(handles).Keys + {key}
    {
      if key in handles {
        freed := Some(preparedID);
      } else {
        handles := handles[key := Handle(preparedID, false)];
        freed := None;
      }
    }

    method ClaimForSigning(key: string) returns (claim: Option<nat>)
      modifies this
      ensures handles == Claimed(old(handles), key)
      ensures claim.Some? <==> Claimable(old(handles), key)
      ensures claim.Some? ==> Held(handles, key, claim.value) && !Held(old(handles), key, claim.value)
      ensures claim.Some? <==> key in old(handles) && old(handles)[key].nativeID != 0 && !old(handles)[key].signing
      ensures claim.Some? ==> claim.value == old(handles)[key].nativeID && handles == old(handles)[key := Handle(claim.value, true)]
      ensures claim.None? ==> handles == old(handles)
    {
      if key !in handles || handles[key].nativeID == 0 || handles[key].signing {
        claim := None;
      } else {
        claim := Some(handles[key].nativeID);
        handles := handles[key := handles[key].(signing := true)];
      }
    }

    method ReleaseSigningClaim(key: string, preparedID: nat)
      modifies this
      ensures handles == Unclaimed(old(handles), key, preparedID)
      ensures handles == if key in old(handles) && old(handles)[key] == Handle(preparedID, true)
                         then old(handles)[key := Handle(preparedID, false)] else old(handles)
    {
      if key in handles && handles[key].nativeID == preparedID && handles[key].signing {
        handles := handles[key := handles[key].(signing := false)];
      }
    }

    method ConsumeSigningClaim(key: string, preparedID: nat)
      modifies this
      ensures handles == Consumed(old(handles), key, preparedID)
      ensures handles == if key in old(handles) && old(handles)[key] == Handle(preparedID, true)
                         then old(handles) - {key} else old(handles)
    {
      if key in handles && handles[key].nativeID == preparedID && handles[key].signing {
        handles := handles - {key};
      }
    }

    /** Every entry's id is returned once; `order` is the order in which they were met. */
    method Drain() returns (ids: seq<nat>, ghost order: seq<string>)
      modifies this
      ensures handles == map[]
      ensures |order| == |ids| && forall key :: key in order <==> key in old(handles)
      ensures forall i, j :: 0 <= i < j < |order| ==> order[i] != order[j]
      ensures forall i :: 0 <= i < |ids| ==> order[i] in old(handles) && ids[i] == old(handles)[order[i]].nativeID
    {
      ids, order := [], [];
      var rest := handles.Keys;
      while rest != {}
        invariant handles == old(handles) && rest <= handles.Keys && |order| == |ids|
        invariant forall key :: key in order <==> key in handles && key !in rest
        invariant forall i, j :: 0 <= i < j < |order| ==> order[i] != order[j]
        invariant forall i :: 0 <= i < |ids| ==> order[i] in handles && ids[i] == handles[order[i]].nativeID
        decreases rest
      {
        var key :| key in rest;
        rest := rest - {key};
        ids := ids + [handles[key].nativeID];
        order := order + [key];
      }
      handles := map[];
    }
  }
}
