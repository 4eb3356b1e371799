/** The H.264 access-unit assembler: it collects the depacketized bytes of all
    RTP packets that share a timestamp and hands them on at the marker bit
    (section 5.1 of RFC 6184), watching the 16-bit wrapping sequence numbers
    (section 5.1 of RFC 3550).  The depacketizer's answer to each packet is
    arbitrary. */
module AccessUnits {
  import opened Common

  type uint16 = n: nat | n < 0x1_0000
  type byte = n: nat | n < 256

  const USIZE_MAX: nat := UINT64_LIMIT - 1

  function After(sequence: uint16): uint16 {
    (sequence + 1) % 0x1_0000
  }

  datatype Depacketized = Bytes(bytes: seq<byte>) | DepacketError

  datatype Packet = Packet(timestamp: nat, sequence: uint16, marker: bool, payload: Depacketized)

  datatype Assembler = Assembler(
    accessUnit: seq<byte>, active: Option<nat>, next: Option<uint16>, invalid: bool, dropped: nat)

  const FRESH: Assembler := Assembler([], None, None, false, 0)

  datatype Pushed = Nothing | Emit(accessUnit: seq<byte>) | PushError

  function SaturatingIncrement(n: nat): nat {
    if n < USIZE_MAX then n + 1 else n
  }

  function DropCurrent(a: Assembler): Assembler {
    a.(active := None, invalid := false, accessUnit := [],
       dropped := if a.active.Some? then SaturatingIncrement(a.dropped) else a.dropped)
  }

  predicate TimestampBreak(a: Assembler, p: Packet) {
    a.active.Some? && a.active.value != p.timestamp
  }

  predicate SequenceBreak(a: Assembler, p: Packet) {
    a.next.Some? && a.next.value != p.sequence
  }

  /** The assembler once the boundaries before packet `p` have been dealt with. */
  function Enter(a: Assembler, p: Packet): Assembler {
    var a1 := if TimestampBreak(a, p) then DropCurrent(a) else a;
    var a2 := if a1.active.None? then a1.(active := Some(p.timestamp), invalid := false) else a1;
    a2.(next := Some(After(p.sequence)),
        invalid := a2.invalid || (SequenceBreak(a, p) && !TimestampBreak(a, p)),
        accessUnit := if SequenceBreak(a, p) then [] else a2.accessUnit)
  }

  function Push(a: Assembler, p: Packet): (Assembler, Pushed) {
    var a' := Enter(a, p);
    if a'.invalid then (if p.marker then DropCurrent(a') else a', Nothing)
    else if p.payload.DepacketError? then (a', PushError)
    else
      var whole := a'.accessUnit + p.payload.bytes;
      if !p.marker then (a'.(accessUnit := whole), Nothing)
      else (a'.(active := None, accessUnit := []), if whole == [] then Nothing else Emit(whole))
  }

  // -------------------------------------------------------------- whole runs

  /** An emitted unit and the packets `from <= i < to` of the run it came from. */
  datatype Emission = Emission(accessUnit: seq<byte>, from: nat, to: nat)

  /** A run so far: the packets pushed, where the bytes of the current unit
      start, and how the units that were opened have ended. */
  datatype Trace = Trace(
    assembler: Assembler, packets: seq<Packet>, start: nat,
    started: nat, emitted: seq<Emission>, discarded: nat, empty: nat)

  const NO_PACKETS: Trace := Trace(FRESH, [], 0, 0, [], 0, 0)

  predicate Opens(a: Assembler, p: Packet) {
    a.active.None? || TimestampBreak(a, p)
  }

  /** Where the current unit's bytes start once `p`, the packet after the first
      `count`, has been pushed. */
  function StartAfter(a: Assembler, p: Packet, start: nat, count: nat): nat {
    if Opens(a, p) then count else start
  }

  /** Packet `p` ends the unit it belongs to: the unit is thrown away or complete. */
  predicate Discards(a: Assembler, p: Packet) {
    p.marker && Enter(a, p).invalid
  }

  predicate Completes(a: Assembler, p: Packet) {
    p.marker && !Enter(a, p).invalid && p.payload.Bytes?
  }

  function Count(b: bool): nat {
    if b then 1 else 0
  }

  function Emissions(a: Assembler, p: Packet, start: nat, count: nat): seq<Emission> {
    var pushed := Push(a, p).1;
    if pushed.Emit? then [Emission(pushed.accessUnit, StartAfter(a, p, start, count), count + 1)] else []
  }

  function Feed(t: Trace, p: Packet): Trace {
    var a, count := t.assembler, |t.packets|;
    Trace(
      Push(a, p).0, t.packets + [p], StartAfter(a, p, t.start, count),
      t.started + Count(Opens(a, p)),
      t.emitted + Emissions(a, p, t.start, count),
      t.discarded + Count(TimestampBreak(a, p)) + Count(Discards(a, p)),
      t.empty + Count(Completes(a, p) && !Push(a, p).1.Emit?))
  }

  function FeedAll(t: Trace, ps: seq<Packet>): Trace
    decreases |ps|
  {
    if ps == [] then t else FeedAll(Feed(t, ps[0]), ps[1..])
  }

  function BytesOf(p: Packet): seq<byte> {
    if p.payload.Bytes? then p.payload.bytes else []
  }

  function Concat(ps: seq<Packet>): seq<byte> {
    if ps == [] then [] else Concat(ps[..|ps| - 1]) + BytesOf(ps[|ps| - 1])
  }

  // --------------------------------------------------------------- invariant

  /** Packets of one timestamp with consecutive numbers. */
  ghost predicate Contiguous(ps: seq<Packet>, timestamp: nat) {
    && (forall i :: 0 <= i < |ps| ==> ps[i].timestamp == timestamp)
    && (forall i :: 0 < i < |ps| ==> ps[i].sequence == After(ps[i - 1].sequence))
  }

  /** No packet that was depacketized carries the marker. */
  ghost predicate NoMarker(ps: seq<Packet>) {
    forall i :: 0 <= i < |ps| ==> ps[i].payload.Bytes? ==> !ps[i].marker
  }

  /** The packets an emitted unit was made of: contiguous, closed by a marker,
      and together exactly the unit's bytes. */
  ghost predicate Segment(ps: seq<Packet>, accessUnit: seq<byte>) {
    && ps != [] && accessUnit != []
    && Contiguous(ps, ps[0].timestamp)
    && NoMarker(ps[..|ps| - 1])
    && ps[|ps| - 1].marker && ps[|ps| - 1].payload.Bytes?
    && accessUnit == Concat(ps)
  }

  ghost predicate AssemblerInv(a: Assembler, ps: seq<Packet>, start: nat) {
    && (a.next.Some? <==> ps != [])
    && (a.next.Some? ==> a.next.value == After(ps[|ps| - 1].sequence))
    && (a.active.None? ==> a.accessUnit == [] && !a.invalid)
    && (a.invalid ==> a.accessUnit == [])
    && (a.active.Some? && !a.invalid ==> Collecting(a, ps, start))
  }

  /** The bytes held are those of the packets from `start` on. */
  ghost predicate Collecting(a: Assembler, ps: seq<Packet>, start: nat) {
    && a.active.Some? && start < |ps|
    && Contiguous(ps[start..], a.active.value)
    && NoMarker(ps[start..])
    && a.accessUnit == Concat(ps[start..])
  }

  ghost predicate CountInv(t: Trace) {
    && t.started == |t.emitted| + t.discarded + t.empty + Count(t.assembler.active.Some?)
    && t.assembler.dropped == (if t.discarded < USIZE_MAX then t.discarded else USIZE_MAX)
  }

  ghost predicate EmissionInv(emitted: seq<Emission>, ps: seq<Packet>, bound: nat) {
    && bound <= |ps|
    && (forall k :: 0 <= k < |emitted| ==>
          emitted[k].from < emitted[k].to <= bound &&
          Segment(ps[emitted[k].from..emitted[k].to], emitted[k].accessUnit))
    && (forall j, k :: 0 <= j < k < |emitted| ==> emitted[j].to <= emitted[k].from)
  }

  /** All emitted units lie before the packets of the current one. */
  function Bound(t: Trace): nat {
    if t.assembler.active.Some? && t.start <= |t.packets| then t.start else |t.packets|
  }

  ghost predicate TraceInv(t: Trace) {
    && AssemblerInv(t.assembler, t.packets, t.start)
    && (t.assembler.active.Some? ==> t.start <= |t.packets|)
    && CountInv(t) && EmissionInv(t.emitted, t.packets, Bound(t))
  }

  lemma ContiguousGrows(ps: seq<Packet>, p: Packet, timestamp: nat)
    requires Contiguous(ps, timestamp) && p.timestamp == timestamp
    requires ps != [] ==> p.sequence == After(ps[|ps| - 1].sequence)
    ensures Contiguous(ps + [p], timestamp)
  {
    var grown := ps + [p];
    forall i | 0 < i < |grown| ensures grown[i].sequence == After(grown[i - 1].sequence) {
      if i < |ps| { assert ps[i].sequence == After(ps[i - 1].sequence); }
    }
  }

  lemma ConcatGrows(ps: seq<Packet>, p: Packet)
    ensures Concat(ps + [p]) == Concat(ps) + BytesOf(p)
  {
    assert (ps + [p])[..|ps|] == ps;
  }

  /** The packets before `p` that belong to the unit `p` is added to. */
  ghost function Before(a: Assembler, p: Packet, ps: seq<Packet>, start: nat): seq<Packet> {
    if Opens(a, p) || start > |ps| then [] else ps[start..]
  }

  lemma {:induction false} EnterKeepsSegment(a: Assembler, p: Packet, ps: seq<Packet>, start: nat)
    requires AssemblerInv(a, ps, start) && !Enter(a, p).invalid
    ensures var before := Before(a, p, ps, start);
            var start' := StartAfter(a, p, start, |ps|);
            && start' <= |ps| && ps[start'..] == before && (ps + [p])[start'..] == before + [p]
            && NoMarker(before) && Contiguous(before + [p], p.timestamp)
            && Enter(a, p).accessUnit == Concat(before)
            && Concat(before + [p]) == Concat(before) + BytesOf(p)
  {
    var before := Before(a, p, ps, start);
    if !Opens(a, p) {
      assert !SequenceBreak(a, p) && Collecting(a, ps, start);
      assert before[|before| - 1] == ps[|ps| - 1];
    }
    ContiguousGrows(before, p, p.timestamp);
    ConcatGrows(before, p);
  }

  lemma {:induction false} PushKeepsCollecting(a: Assembler, p: Packet, ps: seq<Packet>, start: nat)
    requires AssemblerInv(a, ps, start) && !Enter(a, p).invalid && (p.payload.DepacketError? || !p.marker)
    ensures Collecting(Push(a, p).0, ps + [p], StartAfter(a, p, start, |ps|))
  {
    EnterKeepsSegment(a, p, ps, start);
    var before := Before(a, p, ps, start);
    assert NoMarker(before + [p]);
    assert Push(a, p).0.accessUnit == Concat(before + [p]);
  }

  lemma {:induction false} PushKeepsAssembler(a: Assembler, p: Packet, ps: seq<Packet>, start: nat)
    requires AssemblerInv(a, ps, start)
    ensures AssemblerInv(Push(a, p).0, ps + [p], StartAfter(a, p, start, |ps|))
  {
    assert Push(a, p).0.next == Some(After(p.sequence)) && (ps + [p])[|ps|] == p;
    if !Enter(a, p).invalid && (p.payload.DepacketError? || !p.marker) {
      PushKeepsCollecting(a, p, ps, start);
    }
  }

  /** A unit emitted at `p` is made of the packets from its start up to `p`. */
  lemma {:induction false} EmittedSegment(a: Assembler, p: Packet, ps: seq<Packet>, start: nat)
    requires AssemblerInv(a, ps, start) && Push(a, p).1.Emit?
    ensures var start' := StartAfter(a, p, start, |ps|);
            start' <= |ps| && Segment((ps + [p])[start'..|ps| + 1], Push(a, p).1.accessUnit)
  {
    EnterKeepsSegment(a, p, ps, start);
    var start' := StartAfter(a, p, start, |ps|);
    var segment := (ps + [p])[start'..|ps| + 1];
    assert segment == Before(a, p, ps, start) + [p];
    assert segment[..|segment| - 1] == Before(a, p, ps, start);
  }

  lemma {:induction false} PushKeepsCounts(t: Trace, p: Packet)
    requires TraceInv(t)
    ensures CountInv(Feed(t, p))
  {
    assert |Emissions(t.assembler, p, t.start, |t.packets|)| == Count(Push(t.assembler, p).1.Emit?);
  }

  lemma EmissionsShift(emitted: seq<Emission>, ps: seq<Packet>, p: Packet, bound: nat, bound': nat)
    requires EmissionInv(emitted, ps, bound) && bound <= bound' <= |ps| + 1
    ensures EmissionInv(emitted, ps + [p], bound')
  {
    assert forall k :: 0 <= k < |emitted| ==>
             (ps + [p])[emitted[k].from..emitted[k].to] == ps[emitted[k].from..emitted[k].to];
  }

  lemma EmissionAppended(emitted: seq<Emission>, ps: seq<Packet>, bound: nat, e: Emission)
    requires EmissionInv(emitted, ps, bound) && bound <= e.from < e.to == |ps|
    requires Segment(ps[e.from..e.to], e.accessUnit)
    ensures EmissionInv(emitted + [e], ps, |ps|)
  {
  }

  lemma BoundGrows(t: Trace, p: Packet)
    requires t.assembler.active.Some? ==> t.start <= |t.packets|
    ensures Bound(t) <= Bound(Feed(t, p)) <= |t.packets| + 1
    ensures Bound(t) <= StartAfter(t.assembler, p, t.start, |t.packets|) <= |t.packets|
    ensures Push(t.assembler, p).1.Emit? ==> Bound(Feed(t, p)) == |t.packets| + 1
  {
  }

  lemma {:induction false} PushKeepsEmissions(t: Trace, p: Packet)
    requires TraceInv(t)
    ensures EmissionInv(Feed(t, p).emitted, Feed(t, p).packets, Bound(Feed(t, p)))
  {
    BoundGrows(t, p);
    var start' := StartAfter(t.assembler, p, t.start, |t.packets|);
    if Push(t.assembler, p).1.Emit? {
      var e := Emission(Push(t.assembler, p).1.accessUnit, start', |t.packets| + 1);
      EmittedSegment(t.assembler, p, t.packets, t.start);
      EmissionsShift(t.emitted, t.packets, p, Bound(t), start');
      EmissionAppended(t.emitted, t.packets + [p], start', e);
      assert Feed(t, p).emitted == t.emitted + [e];
    } else {
      assert Feed(t, p).emitted == t.emitted;
      EmissionsShift(t.emitted, t.packets, p, Bound(t), Bound(Feed(t, p)));
    }
  }

  lemma FeedKeepsInv(t: Trace, p: Packet)
    requires TraceInv(t)
    ensures TraceInv(Feed(t, p))
  {
    PushKeepsAssembler(t.assembler, p, t.packets, t.start);
    PushKeepsCounts(t, p);
    PushKeepsEmissions(t, p);
  }

  lemma {:induction false} PacketsAfter(t: Trace, ps: seq<Packet>)
    ensures FeedAll(t, ps).packets == t.packets + ps
    decreases |ps|
  {
    if ps == [] {
      assert t.packets + ps == t.packets;
    } else {
      PacketsAfter(Feed(t, ps[0]), ps[1..]);
      assert t.packets + [ps[0]] + ps[1..] == t.packets + ps;
    }
  }

  lemma {:induction false} RunKeepsInv(t: Trace, ps: seq<Packet>)
    requires TraceInv(t)
    ensures TraceInv(FeedAll(t, ps))
    decreases |ps|
  {
    if ps != [] {
      FeedKeepsInv(t, ps[0]);
      RunKeepsInv(Feed(t, ps[0]), ps[1..]);
    }
  }

  lemma FeedAllKeepsInv(ps: seq<Packet>)
    ensures TraceInv(FeedAll(NO_PACKETS, ps)) && FeedAll(NO_PACKETS, ps).packets == ps
  {
    RunKeepsInv(NO_PACKETS, ps);
    PacketsAfter(NO_PACKETS, ps);
    assert [] + ps == ps;
  }

  // ---------------------------------------------------------------- theorems

  /** Every emitted unit is the in-order concatenation of the bytes of a run of
      consecutive packets with one timestamp, ending at a marker; different
      units come from packets that do not overlap, in order. */
  lemma EmittedUnitsAreSegments(ps: seq<Packet>)
    ensures var t := FeedAll(NO_PACKETS, ps);
            && (forall k :: 0 <= k < |t.emitted| ==>
                  t.emitted[k].from < t.emitted[k].to <= |ps| &&
                  Segment(ps[t.emitted[k].from..t.emitted[k].to], t.emitted[k].accessUnit))
            && (forall j, k :: 0 <= j < k < |t.emitted| ==> t.emitted[j].to <= t.emitted[k].from)
  {
    FeedAllKeepsInv(ps);
  }

  /** Every unit opened is emitted, dropped, completed empty, or still active;
      the public counter is the number dropped, saturating. */
  lemma UnitsAreAccountedFor(ps: seq<Packet>)
    ensures var t := FeedAll(NO_PACKETS, ps);
            && t.started == |t.emitted| + t.discarded + t.empty + Count(t.assembler.active.Some?)
            && t.assembler.dropped == (if t.discarded < USIZE_MAX then t.discarded else USIZE_MAX)
  {
    FeedAllKeepsInv(ps);
  }

  /** Every packet's bytes are there, and the only marker stands last. */
  ghost predicate Whole(ps: seq<Packet>) {
    && (forall i :: 0 <= i < |ps| ==> ps[i].payload.Bytes?)
    && (forall i :: 0 <= i < |ps| ==> (ps[i].marker <==> i == |ps| - 1))
  }

  /** A run in which nothing fails to depacketize emits whole units only. */
  lemma CleanRunsEmitWholeUnits(ps: seq<Packet>, k: nat)
    requires forall i :: 0 <= i < |ps| ==> ps[i].payload.Bytes?
    requires k < |FeedAll(NO_PACKETS, ps).emitted|
    ensures var e := FeedAll(NO_PACKETS, ps).emitted[k];
            e.from < e.to <= |ps| && Whole(ps[e.from..e.to]) && e.accessUnit == Concat(ps[e.from..e.to])
  {
    EmittedUnitsAreSegments(ps);
    var e := FeedAll(NO_PACKETS, ps).emitted[k];
    var segment := ps[e.from..e.to];
    forall i | 0 <= i < |segment| ensures segment[i].marker <==> i == |segment| - 1 {
      if i < |segment| - 1 { assert segment[..|segment| - 1][i] == segment[i]; }
    }
  }

  // ---------------------------------------------- when a failed packet is lost

  predicate Covers(e: Emission, i: nat) {
    e.from <= i < e.to
  }

  /** Some emitted unit spans packet `i`. */
  ghost predicate Spanned(t: Trace, i: nat) {
    exists k :: 0 <= k < |t.emitted| && Covers(t.emitted[k], i)
  }

  /** No unit spans packet `i`, and the one being collected does not either. */
  ghost predicate Clear(t: Trace, i: nat) {
    && i < |t.packets| && !Spanned(t, i)
    && (t.assembler.active.Some? && !t.assembler.invalid ==> i < t.start)
  }

  lemma FeedStaysClear(t: Trace, p: Packet, i: nat)
    requires Clear(t, i)
    ensures Clear(Feed(t, p), i)
  {
    var t' := Feed(t, p);
    forall k | 0 <= k < |t'.emitted| ensures !Covers(t'.emitted[k], i) {
      if k < |t.emitted| { assert t'.emitted[k] == t.emitted[k]; }
    }
  }

  lemma {:induction false} FeedAllStaysClear(t: Trace, ps: seq<Packet>, i: nat)
    requires Clear(t, i)
    ensures Clear(FeedAll(t, ps), i)
    decreases |ps|
  {
    if ps != [] {
      FeedStaysClear(t, ps[0], i);
      FeedAllStaysClear(Feed(t, ps[0]), ps[1..], i);
    }
  }

  /** A failed packet in an invalid unit stays clear of every unit. */
  lemma InvalidUnitIsClear(t: Trace, p: Packet)
    requires TraceInv(t) && p.payload.DepacketError? && Enter(t.assembler, p).invalid
    ensures Clear(Feed(t, p), |t.packets|)
  {
    var t' := Feed(t, p);
    assert t'.emitted == t.emitted;
    forall k | 0 <= k < |t'.emitted| ensures !Covers(t'.emitted[k], |t.packets|) {
      assert t.emitted[k].to <= Bound(t) <= |t.packets|;
    }
  }

  /** The packet that ends the unit a failed packet `p` was added to. */
  function Closing(p: Packet): Packet {
    Packet(p.timestamp, After(p.sequence), true, Bytes([0]))
  }

  lemma ValidUnitSpans(t: Trace, p: Packet)
    requires TraceInv(t) && p.payload.DepacketError? && !Enter(t.assembler, p).invalid
    ensures Spanned(Feed(Feed(t, p), Closing(p)), |t.packets|)
  {
    var t1 := Feed(t, p);
    assert t1.assembler == Enter(t.assembler, p) && t1.emitted == t.emitted;
    assert t1.start <= |t.packets|;
    var q := Closing(p);
    assert Push(t1.assembler, q).1 == Emit(t1.assembler.accessUnit + [0]);
    var t2 := Feed(t1, q);
    assert t2.emitted[|t.emitted|] == Emission(t1.assembler.accessUnit + [0], t1.start, |t.packets| + 2);
    assert Covers(t2.emitted[|t.emitted|], |t.packets|);
  }

  /** However the run goes on, no emitted unit spans the packet. */
  ghost predicate NeverSpanned(t: Trace, i: nat) {
    forall rest: seq<Packet> :: !Spanned(FeedAll(t, rest), i)
  }

  lemma SpannedIff(t: Trace, p: Packet)
    requires TraceInv(t) && p.payload.DepacketError?
    ensures !NeverSpanned(Feed(t, p), |t.packets|) <==> !Enter(t.assembler, p).invalid
  {
    var t1 := Feed(t, p);
    if Enter(t.assembler, p).invalid {
      InvalidUnitIsClear(t, p);
      forall rest: seq<Packet> ensures !Spanned(FeedAll(t1, rest), |t.packets|) {
        FeedAllStaysClear(t1, rest, |t.packets|);
      }
    } else {
      ValidUnitSpans(t, p);
      OneMore(t1, Closing(p));
      assert Spanned(FeedAll(t1, [Closing(p)]), |t.packets|);
    }
  }

  /** A packet that fails to depacketize ends up inside an emitted unit, its bytes missing
      and its marker passed over, in some continuation of the run, if and only if the
      unit it arrives in is not already invalid. */
  lemma FailedPacketIsSpannedIff(ps: seq<Packet>, p: Packet)
    requires p.payload.DepacketError?
    ensures var t := FeedAll(NO_PACKETS, ps);
            !NeverSpanned(Feed(t, p), |ps|) <==> !Enter(t.assembler, p).invalid
  {
    FeedAllKeepsInv(ps);
    SpannedIff(FeedAll(NO_PACKETS, ps), p);
  }

  lemma OneMore(t: Trace, p: Packet)
    ensures FeedAll(t, [p]) == Feed(t, p)
  {
    assert [p][1..] == [];
  }

  /** Where depacketizing fails a unit is still emitted, without that packet's
      bytes and past its marker. */
  lemma FailedPacketIsSkipped(timestamp: nat, first: seq<byte>, last: seq<byte>)
    requires first != []
    ensures var ps := [Packet(timestamp, 0, false, Bytes(first)), Packet(timestamp, 1, true, DepacketError),
                       Packet(timestamp, 2, true, Bytes(last))];
            FeedAll(NO_PACKETS, ps).emitted == [Emission(first + last, 0, 3)]
  {
    var p0, p1 := Packet(timestamp, 0, false, Bytes(first)), Packet(timestamp, 1, true, DepacketError);
    var p2 := Packet(timestamp, 2, true, Bytes(last));
    assert [p0, p1, p2][1..] == [p1, p2] && [p1, p2][1..] == [p2] && [p2][1..] == [];
    var t1 := Feed(NO_PACKETS, p0);
    assert [] + first == first;
    assert t1.assembler == Assembler(first, Some(timestamp), Some(1), false, 0);
    assert t1.start == 0 && t1.emitted == [] && t1.packets == [p0];
    var t2 := Feed(t1, p1);
    assert t2.assembler == Assembler(first, Some(timestamp), Some(2), false, 0);
    assert t2.start == 0 && t2.emitted == [] && |t2.packets| == 2;
    assert Emissions(t2.assembler, p2, 0, 2) == [Emission(first + last, 0, 3)];
    assert FeedAll(NO_PACKETS, [p0, p1, p2]) == FeedAll(t1, [p1, p2]) == FeedAll(t2, [p2]) == FeedAll(Feed(t2, p2), []);
  }

  // -------------------------------------------- nothing lost, nothing dropped

  /** What a sender emits for one picture: at least one chunk, one timestamp. */
  datatype Picture = Picture(timestamp: nat, chunks: seq<seq<byte>>)

  function ChunkPackets(timestamp: nat, chunks: seq<seq<byte>>, sequence: uint16): seq<Packet> {
    if chunks == [] then []
    else [Packet(timestamp, sequence, |chunks| == 1, Bytes(chunks[0]))] +
         ChunkPackets(timestamp, chunks[1..], After(sequence))
  }

  function Advance(sequence: uint16, n: nat): uint16
    decreases n
  {
    if n == 0 then sequence else Advance(After(sequence), n - 1)
  }

  function StreamPackets(pictures: seq<Picture>, sequence: uint16): seq<Packet> {
    if pictures == [] then []
    else ChunkPackets(pictures[0].timestamp, pictures[0].chunks, sequence) +
         StreamPackets(pictures[1..], Advance(sequence, |pictures[0].chunks|))
  }

  function Flatten(chunks: seq<seq<byte>>): seq<byte> {
    if chunks == [] then [] else chunks[0] + Flatten(chunks[1..])
  }

  /** The pictures that carry any bytes. */
  function Pictures(pictures: seq<Picture>): seq<seq<byte>> {
    if pictures == [] then []
    else (if Flatten(pictures[0].chunks) == [] then [] else [Flatten(pictures[0].chunks)]) + Pictures(pictures[1..])
  }

  function Units(emitted: seq<Emission>): seq<seq<byte>> {
    if emitted == [] then [] else Units(emitted[..|emitted| - 1]) + [emitted[|emitted| - 1].accessUnit]
  }

  /** Nothing is pending, and `sequence` is what the assembler expects next. */
  predicate Idle(a: Assembler, sequence: uint16) {
    a.active.None? && !a.invalid && a.accessUnit == [] && (a.next.None? || a.next.value == sequence)
  }

  /** A picture is under way: `have` holds its bytes so far. */
  predicate Busy(a: Assembler, timestamp: nat, sequence: uint16, have: seq<byte>) {
    a.active == Some(timestamp) && !a.invalid && a.accessUnit == have && a.next == Some(sequence)
  }

  lemma FeedAllSplits(t: Trace, first: seq<Packet>, rest: seq<Packet>)
    ensures FeedAll(t, first + rest) == FeedAll(FeedAll(t, first), rest)
    decreases |first|
  {
    if first == [] {
      assert first + rest == rest;
    } else {
      assert (first + rest)[1..] == first[1..] + rest;
      FeedAllSplits(Feed(t, first[0]), first[1..], rest);
    }
  }

  ghost predicate PictureDone(t: Trace, t': Trace, accessUnit: seq<byte>, sequence: uint16) {
    && Idle(t'.assembler, sequence) && t'.discarded == t.discarded
    && Units(t'.emitted) == Units(t.emitted) + (if accessUnit == [] then [] else [accessUnit])
  }

  /** One chunk of a picture: more bytes are held, or the picture is handed on. */
  lemma {:induction false} ChunkIsFed(
    t: Trace, timestamp: nat, chunk: seq<byte>, sequence: uint16, marker: bool, have: seq<byte>)
    requires (Idle(t.assembler, sequence) && have == []) || Busy(t.assembler, timestamp, sequence, have)
    ensures var t' := Feed(t, Packet(timestamp, sequence, marker, Bytes(chunk)));
            && t'.discarded == t.discarded
            && (!marker ==> Busy(t'.assembler, timestamp, After(sequence), have + chunk) && t'.emitted == t.emitted)
            && (marker ==> PictureDone(t, t', have + chunk, After(sequence)))
  {
    var p := Packet(timestamp, sequence, marker, Bytes(chunk));
    var emitted := Emissions(t.assembler, p, t.start, |t.packets|);
    assert Enter(t.assembler, p).accessUnit == have && !Enter(t.assembler, p).invalid;
    if emitted == [] {
      assert t.emitted + emitted == t.emitted;
    } else {
      assert (t.emitted + emitted)[..|t.emitted|] == t.emitted;
    }
  }

  lemma {:induction false} ChunksAreCollected(
    t: Trace, timestamp: nat, chunks: seq<seq<byte>>, sequence: uint16, have: seq<byte>)
    requires chunks != []
    requires (Idle(t.assembler, sequence) && have == []) || Busy(t.assembler, timestamp, sequence, have)
    ensures PictureDone(t, FeedAll(t, ChunkPackets(timestamp, chunks, sequence)), have + Flatten(chunks),
                        Advance(sequence, |chunks|))
    decreases |chunks|
  {
    var ps := ChunkPackets(timestamp, chunks, sequence);
    var t' := Feed(t, ps[0]);
    ChunkIsFed(t, timestamp, chunks[0], sequence, |chunks| == 1, have);
    assert ps[1..] == ChunkPackets(timestamp, chunks[1..], After(sequence));
    assert have + Flatten(chunks) == have + chunks[0] + Flatten(chunks[1..]);
    if |chunks| > 1 {
      ChunksAreCollected(t', timestamp, chunks[1..], After(sequence), have + chunks[0]);
    } else {
      assert chunks[1..] == [] && have + chunks[0] + [] == have + chunks[0];
      assert FeedAll(t, ps) == FeedAll(t', []) == t';
    }
  }

  lemma {:induction false} StreamIsCollected(t: Trace, pictures: seq<Picture>, sequence: uint16)
    requires Idle(t.assembler, sequence)
    requires forall i :: 0 <= i < |pictures| ==> pictures[i].chunks != []
    ensures var t' := FeedAll(t, StreamPackets(pictures, sequence));
            Units(t'.emitted) == Units(t.emitted) + Pictures(pictures) && t'.discarded == t.discarded
    decreases |pictures|
  {
    if pictures != [] {
      var picture, rest := pictures[0], pictures[1..];
      var first := ChunkPackets(picture.timestamp, picture.chunks, sequence);
      var sequence' := Advance(sequence, |picture.chunks|);
      var t1 := FeedAll(t, first);
      assert PictureDone(t, t1, Flatten(picture.chunks), sequence') by {
        ChunksAreCollected(t, picture.timestamp, picture.chunks, sequence, []);
        assert [] + Flatten(picture.chunks) == Flatten(picture.chunks);
      }
      assert FeedAll(t, StreamPackets(pictures, sequence)) == FeedAll(t1, StreamPackets(rest, sequence')) by {
        FeedAllSplits(t, first, StreamPackets(rest, sequence'));
      }
      StreamIsCollected(t1, rest, sequence');
      PicturesJoin(Units(t.emitted), pictures);
    }
  }

  lemma PicturesJoin(before: seq<seq<byte>>, pictures: seq<Picture>)
    requires pictures != []
    ensures var whole := Flatten(pictures[0].chunks);
            before + (if whole == [] then [] else [whole]) + Pictures(pictures[1..]) == before + Pictures(pictures)
  {
  }

  /** A stream that arrives complete and in order, from any first number and
      through any number of wrap-arounds, is given back picture by picture. */
  lemma LosslessStreamIsReassembled(pictures: seq<Picture>, sequence: uint16)
    requires forall i :: 0 <= i < |pictures| ==> pictures[i].chunks != []
    ensures var t := FeedAll(NO_PACKETS, StreamPackets(pictures, sequence));
            Units(t.emitted) == Pictures(pictures) && t.discarded == 0 && t.assembler.dropped == 0
  {
    StreamIsCollected(NO_PACKETS, pictures, sequence);
    UnitsAreAccountedFor(StreamPackets(pictures, sequence));
    assert Units(NO_PACKETS.emitted) == [];
  }

  // ------------------------------------- which units are emitted, from the packets

  ghost predicate Clean(ps: seq<Packet>) {
    forall i :: 0 <= i < |ps| ==> ps[i].payload.Bytes?
  }

  /** A unit opens at packet `i`: behind a marker, or where the timestamp changes. */
  predicate Boundary(ps: seq<Packet>, i: nat)
    requires i < |ps|
  {
    i == 0 || ps[i - 1].marker || ps[i - 1].timestamp != ps[i].timestamp
  }

  /** The unit opened at `i` starts whole: it is the first, it continues the numbers behind a
      marker, or it takes over from a unit that never saw its marker, with any number. */
  predicate GoodStart(ps: seq<Packet>, i: nat)
    requires i < |ps|
  {
    || i == 0
    || (ps[i - 1].marker && ps[i].sequence == After(ps[i - 1].sequence))
    || (!ps[i - 1].marker && ps[i - 1].timestamp != ps[i].timestamp)
  }

  ghost predicate SameTimestamp(ps: seq<Packet>, i: nat, j: nat)
    requires i < j <= |ps|
  {
    forall k :: i <= k < j ==> ps[k].timestamp == ps[i].timestamp
  }

  ghost predicate NoGap(ps: seq<Packet>, i: nat, j: nat)
    requires i < j <= |ps|
  {
    forall k :: i < k < j ==> ps[k].sequence == After(ps[k - 1].sequence)
  }

  ghost predicate NoMarkerIn(ps: seq<Packet>, i: nat, j: nat)
    requires i <= j <= |ps|
  {
    forall k :: i <= k < j ==> !ps[k].marker
  }

  /** The packets `i <= k < j` are a whole picture: a good start, one timestamp, no gap, the
      only marker last, and some bytes. */
  ghost predicate WholeUnit(ps: seq<Packet>, i: nat, j: nat) {
    && i < j <= |ps|
    && GoodStart(ps, i) && SameTimestamp(ps, i, j) && NoGap(ps, i, j)
    && NoMarkerIn(ps, i, j - 1) && ps[j - 1].marker
    && Concat(ps[i..j]) != []
  }

  predicate IsEmission(t: Trace, i: nat, j: nat) {
    exists k :: 0 <= k < |t.emitted| && t.emitted[k].from == i && t.emitted[k].to == j
  }

  function Boundaries(ps: seq<Packet>): nat {
    if ps == [] then 0 else Boundaries(ps[..|ps| - 1]) + Count(Boundary(ps, |ps| - 1))
  }

  /** The assembler's state, told from a clean run's packets. */
  ghost predicate Told(t: Trace) {
    var ps, a, n := t.packets, t.assembler, |t.packets|;
    && (a.active.None? <==> n == 0 || ps[n - 1].marker)
    && (a.active.Some? ==>
          && a.active.value == ps[n - 1].timestamp && t.start < n && Boundary(ps, t.start)
          && SameTimestamp(ps, t.start, n) && NoMarkerIn(ps, t.start, n)
          && (a.invalid <==> !(GoodStart(ps, t.start) && NoGap(ps, t.start, n))))
  }

  lemma OpensAtBoundary(t: Trace, p: Packet)
    requires AssemblerInv(t.assembler, t.packets, t.start) && Told(t)
    ensures Opens(t.assembler, p) <==> Boundary(t.packets + [p], |t.packets|)
  {
  }

  /** The unit that packet `p` belongs to, and whether it is still good. */
  lemma UnitOfPacket(t: Trace, p: Packet)
    requires AssemblerInv(t.assembler, t.packets, t.start) && Told(t)
    ensures var ps, start := t.packets + [p], StartAfter(t.assembler, p, t.start, |t.packets|);
            && start <= |t.packets| && Boundary(ps, start)
            && SameTimestamp(ps, start, |ps|) && NoMarkerIn(ps, start, |ps| - 1)
            && (Enter(t.assembler, p).invalid <==> !(GoodStart(ps, start) && NoGap(ps, start, |ps|)))
  {
    var ps, start := t.packets + [p], StartAfter(t.assembler, p, t.start, |t.packets|);
    assert forall k :: 0 <= k < |t.packets| ==> ps[k] == t.packets[k];
    if !Opens(t.assembler, p) {
      assert NoGap(ps, start, |ps|) <==> NoGap(t.packets, start, |t.packets|) && !SequenceBreak(t.assembler, p) by {
        if NoGap(ps, start, |ps|) {
          assert ps[|t.packets|].sequence == After(ps[|t.packets| - 1].sequence);
          assert forall k :: start < k < |t.packets| ==> ps[k].sequence == After(ps[k - 1].sequence);
        }
      }
    }
  }

  lemma FeedStaysTold(t: Trace, p: Packet)
    requires AssemblerInv(t.assembler, t.packets, t.start) && Told(t) && p.payload.Bytes?
    ensures Told(Feed(t, p))
  {
    UnitOfPacket(t, p);
  }

  /** Two units that reach up to the same packet are the same. */
  lemma OneUnitEndsHere(ps: seq<Packet>, start: nat, i: nat)
    requires start < |ps| && Boundary(ps, start) && SameTimestamp(ps, start, |ps|) && NoMarkerIn(ps, start, |ps| - 1)
    requires WholeUnit(ps, i, |ps|)
    ensures i == start
  {
    assert start > 0 ==> ps[start - 1].marker || ps[start - 1].timestamp != ps[start].timestamp;
  }

  lemma UnitsBefore(ps: seq<Packet>, p: Packet, i: nat, j: nat)
    requires j <= |ps|
    ensures WholeUnit(ps + [p], i, j) <==> WholeUnit(ps, i, j)
  {
    if i < j {
      assert (ps + [p])[i..j] == ps[i..j];
      assert forall k :: 0 <= k < |ps| ==> (ps + [p])[k] == ps[k];
    }
  }

  lemma EmitsWhen(a: Assembler, p: Packet)
    requires p.payload.Bytes?
    ensures Push(a, p).1.Emit? <==> p.marker && !Enter(a, p).invalid && Enter(a, p).accessUnit + p.payload.bytes != []
  {
  }

  /** The bytes a good unit holds once `p` is added. */
  lemma BytesOfUnit(t: Trace, p: Packet)
    requires AssemblerInv(t.assembler, t.packets, t.start) && p.payload.Bytes? && !Enter(t.assembler, p).invalid
    ensures var start := StartAfter(t.assembler, p, t.start, |t.packets|);
            start <= |t.packets| &&
            Concat((t.packets + [p])[start..|t.packets| + 1]) == Enter(t.assembler, p).accessUnit + p.payload.bytes
  {
    EnterKeepsSegment(t.assembler, p, t.packets, t.start);
    var ps, start := t.packets + [p], StartAfter(t.assembler, p, t.start, |t.packets|);
    assert ps[start..|ps|] == ps[start..];
  }

  lemma EmittedHere(t: Trace, p: Packet)
    requires AssemblerInv(t.assembler, t.packets, t.start) && Told(t) && p.payload.Bytes?
    ensures var start := StartAfter(t.assembler, p, t.start, |t.packets|);
            Push(t.assembler, p).1.Emit? <==> WholeUnit(t.packets + [p], start, |t.packets| + 1)
  {
    EmitsWhen(t.assembler, p);
    UnitOfPacket(t, p);
    if !Enter(t.assembler, p).invalid { BytesOfUnit(t, p); }
  }

  ghost predicate EmitsExactlyUnits(t: Trace) {
    forall i: nat, j: nat :: IsEmission(t, i, j) <==> WholeUnit(t.packets, i, j)
  }

  lemma EmissionAfter(t: Trace, p: Packet, i: nat, j: nat)
    ensures IsEmission(Feed(t, p), i, j) <==>
              IsEmission(t, i, j) ||
              (Push(t.assembler, p).1.Emit? && i == StartAfter(t.assembler, p, t.start, |t.packets|) && j == |t.packets| + 1)
  {
    var t' := Feed(t, p);
    if IsEmission(t, i, j) {
      var k :| 0 <= k < |t.emitted| && t.emitted[k].from == i && t.emitted[k].to == j;
      assert t'.emitted[k] == t.emitted[k];
    }
    if Push(t.assembler, p).1.Emit? { assert t'.emitted[|t.emitted|].to == |t.packets| + 1; }
  }

  lemma OnlyThisUnit(t: Trace, p: Packet, i: nat)
    requires AssemblerInv(t.assembler, t.packets, t.start) && Told(t) && WholeUnit(t.packets + [p], i, |t.packets| + 1)
    ensures i == StartAfter(t.assembler, p, t.start, |t.packets|)
  {
    UnitOfPacket(t, p);
    OneUnitEndsHere(t.packets + [p], StartAfter(t.assembler, p, t.start, |t.packets|), i);
  }

  lemma EmittedNow(t: Trace, p: Packet, i: nat)
    requires AssemblerInv(t.assembler, t.packets, t.start) && Told(t) && p.payload.Bytes?
    ensures Push(t.assembler, p).1.Emit? && i == StartAfter(t.assembler, p, t.start, |t.packets|) <==>
            WholeUnit(t.packets + [p], i, |t.packets| + 1)
  {
    EmittedHere(t, p);
    if WholeUnit(t.packets + [p], i, |t.packets| + 1) { OnlyThisUnit(t, p, i); }
  }

  lemma EmittedAt(t: Trace, p: Packet, i: nat, j: nat)
    requires AssemblerInv(t.assembler, t.packets, t.start) && Told(t) && p.payload.Bytes?
    requires IsEmission(t, i, j) <==> WholeUnit(t.packets, i, j)
    ensures IsEmission(Feed(t, p), i, j) <==> WholeUnit(t.packets + [p], i, j)
  {
    EmissionAfter(t, p, i, j);
    if j <= |t.packets| {
      UnitsBefore(t.packets, p, i, j);
    } else {
      assert !WholeUnit(t.packets, i, j);
      EmittedNow(t, p, i);
    }
  }

  lemma FeedEmitsExactlyUnits(t: Trace, p: Packet)
    requires AssemblerInv(t.assembler, t.packets, t.start) && Told(t) && p.payload.Bytes? && EmitsExactlyUnits(t)
    ensures EmitsExactlyUnits(Feed(t, p))
  {
    forall i: nat, j: nat ensures IsEmission(Feed(t, p), i, j) <==> WholeUnit(Feed(t, p).packets, i, j) {
      EmittedAt(t, p, i, j);
    }
  }

  lemma FeedCountsBoundary(t: Trace, p: Packet)
    requires AssemblerInv(t.assembler, t.packets, t.start) && Told(t) && t.started == Boundaries(t.packets)
    ensures Feed(t, p).started == Boundaries(t.packets + [p])
  {
    OpensAtBoundary(t, p);
    assert (t.packets + [p])[..|t.packets|] == t.packets;
  }

  ghost predicate CleanInv(t: Trace) {
    && AssemblerInv(t.assembler, t.packets, t.start) && Told(t)
    && EmitsExactlyUnits(t) && t.started == Boundaries(t.packets)
  }

  lemma FeedKeepsClean(t: Trace, p: Packet)
    requires CleanInv(t) && p.payload.Bytes?
    ensures CleanInv(Feed(t, p)) && Feed(t, p).packets == t.packets + [p]
  {
    PushKeepsAssembler(t.assembler, p, t.packets, t.start);
    FeedStaysTold(t, p);
    FeedEmitsExactlyUnits(t, p);
    FeedCountsBoundary(t, p);
  }

  lemma {:induction false} AssemblerAfter(t: Trace, ps: seq<Packet>)
    requires AssemblerInv(t.assembler, t.packets, t.start)
    ensures var t' := FeedAll(t, ps); AssemblerInv(t'.assembler, t'.packets, t'.start)
    decreases |ps|
  {
    if ps != [] {
      PushKeepsAssembler(t.assembler, ps[0], t.packets, t.start);
      AssemblerAfter(Feed(t, ps[0]), ps[1..]);
    }
  }

  lemma {:induction false} CleanFeed(t: Trace, ps: seq<Packet>)
    requires CleanInv(t) && Clean(ps)
    ensures CleanInv(FeedAll(t, ps))
    decreases |ps|
  {
    if ps != [] {
      FeedKeepsClean(t, ps[0]);
      CleanFeed(Feed(t, ps[0]), ps[1..]);
    }
  }

  lemma NothingIsClean()
    ensures CleanInv(NO_PACKETS)
  {
  }

  /** Told from the packets alone, for every run in which nothing fails to depacketize: the
      packets from `i` up to `j` are emitted as one unit if and only if they are a whole
      picture.  So a picture that takes over from one without its marker is emitted from any
      first number, one behind a marker only if it continues the numbers, and none across a
      gap.  The units opened are the boundaries of the packet list. */
  lemma EmittedIff(ps: seq<Packet>, i: nat, j: nat)
    requires Clean(ps)
    ensures var t := FeedAll(NO_PACKETS, ps);
            (IsEmission(t, i, j) <==> WholeUnit(ps, i, j)) && t.started == Boundaries(ps)
  {
    NothingIsClean();
    CleanFeed(NO_PACKETS, ps);
    PacketsAfter(NO_PACKETS, ps);
    assert [] + ps == ps;
  }

  // ----------------------------------------------- one picture after any run

  /** Packets of one timestamp, the last one alone with the marker. */
  ghost predicate OnePicture(qs: seq<Packet>, timestamp: nat) {
    && qs != []
    && (forall k :: 0 <= k < |qs| ==> qs[k].timestamp == timestamp && (qs[k].marker <==> k == |qs| - 1))
  }

  /** An invalid unit swallows its packets up to the marker and is dropped there, once. */
  lemma {:induction false} InvalidUntilMarker(t: Trace, timestamp: nat, qs: seq<Packet>)
    requires t.assembler.active == Some(timestamp) && t.assembler.invalid && OnePicture(qs, timestamp)
    ensures var t' := FeedAll(t, qs);
            t'.emitted == t.emitted && t'.discarded == t.discarded + 1 && t'.assembler.active.None?
    decreases |qs|
  {
    var t' := Feed(t, qs[0]);
    assert Enter(t.assembler, qs[0]).invalid;
    assert t'.emitted == t.emitted + [] == t.emitted;
    if |qs| == 1 {
      assert qs[1..] == [];
    } else {
      InvalidUntilMarker(t', timestamp, qs[1..]);
    }
  }

  lemma GapDrops(t: Trace, timestamp: nat, qs: seq<Packet>)
    requires t.assembler.active == Some(timestamp) && OnePicture(qs, timestamp) && SequenceBreak(t.assembler, qs[0])
    ensures var t' := FeedAll(t, qs);
            t'.emitted == t.emitted && t'.discarded == t.discarded + 1 && t'.assembler.active.None?
  {
    var t1 := Feed(t, qs[0]);
    assert Enter(t.assembler, qs[0]).invalid;
    assert t1.emitted == t.emitted + [] == t.emitted;
    if |qs| == 1 {
      assert qs[1..] == [];
    } else {
      InvalidUntilMarker(t1, timestamp, qs[1..]);
    }
  }

  /** What any run leaves: the number it expects, and nothing behind an ended unit. */
  lemma AfterAnyRun(ps: seq<Packet>)
    ensures var a := FeedAll(NO_PACKETS, ps).assembler;
            && a.next == (if ps == [] then None else Some(After(ps[|ps| - 1].sequence)))
            && (a.active.None? ==> !a.invalid && a.accessUnit == [])
  {
    AssemblerAfter(NO_PACKETS, ps);
    PacketsAfter(NO_PACKETS, ps);
    assert [] + ps == ps;
  }

  /** After any run, failed packets included: a gap inside a unit drops it, up to its marker,
      whatever follows there. */
  lemma GapDropsTheUnit(ps: seq<Packet>, timestamp: nat, qs: seq<Packet>)
    requires ps != [] && OnePicture(qs, timestamp)
    requires FeedAll(NO_PACKETS, ps).assembler.active == Some(timestamp)
    requires qs[0].sequence != After(ps[|ps| - 1].sequence)
    ensures var t, t' := FeedAll(NO_PACKETS, ps), FeedAll(NO_PACKETS, ps + qs);
            t'.emitted == t.emitted && t'.discarded == t.discarded + 1 && t'.assembler.active.None?
  {
    AfterAnyRun(ps);
    FeedAllSplits(NO_PACKETS, ps, qs);
    GapDrops(FeedAll(NO_PACKETS, ps), timestamp, qs);
  }

  /** A picture meets a unit of another timestamp, or no unit and the number it expects. */
  predicate Welcome(a: Assembler, timestamp: nat, sequence: uint16) {
    if a.active.Some? then a.active.value != timestamp
    else !a.invalid && a.accessUnit == [] && (a.next.None? || a.next.value == sequence)
  }

  lemma FirstChunk(t: Trace, timestamp: nat, chunk: seq<byte>, sequence: uint16, marker: bool)
    requires Welcome(t.assembler, timestamp, sequence)
    ensures var t' := Feed(t, Packet(timestamp, sequence, marker, Bytes(chunk)));
            && t'.discarded == t.discarded + Count(t.assembler.active.Some?)
            && (!marker ==> Busy(t'.assembler, timestamp, After(sequence), chunk) && t'.emitted == t.emitted)
            && (marker ==> Idle(t'.assembler, After(sequence)) &&
                           Units(t'.emitted) == Units(t.emitted) + (if chunk == [] then [] else [chunk]))
  {
    var p := Packet(timestamp, sequence, marker, Bytes(chunk));
    var emitted := Emissions(t.assembler, p, t.start, |t.packets|);
    assert Enter(t.assembler, p).accessUnit == [] && !Enter(t.assembler, p).invalid && [] + chunk == chunk;
    if emitted == [] {
      assert t.emitted + emitted == t.emitted;
    } else {
      assert (t.emitted + emitted)[..|t.emitted|] == t.emitted;
    }
  }

  lemma WelcomePicture(t: Trace, timestamp: nat, chunks: seq<seq<byte>>, sequence: uint16)
    requires chunks != [] && Welcome(t.assembler, timestamp, sequence)
    ensures var t' := FeedAll(t, ChunkPackets(timestamp, chunks, sequence));
            && Units(t'.emitted) == Units(t.emitted) + (if Flatten(chunks) == [] then [] else [Flatten(chunks)])
            && t'.discarded == t.discarded + Count(t.assembler.active.Some?)
  {
    var qs := ChunkPackets(timestamp, chunks, sequence);
    var t1 := Feed(t, qs[0]);
    FirstChunk(t, timestamp, chunks[0], sequence, |chunks| == 1);
    assert qs[1..] == ChunkPackets(timestamp, chunks[1..], After(sequence));
    if |chunks| == 1 {
      assert chunks[1..] == [] && chunks[0] + [] == chunks[0];
    } else {
      ChunksAreCollected(t1, timestamp, chunks[1..], After(sequence), chunks[0]);
    }
  }

  lemma {:induction false} ChunksAreOnePicture(timestamp: nat, chunks: seq<seq<byte>>, sequence: uint16)
    requires chunks != []
    ensures OnePicture(ChunkPackets(timestamp, chunks, sequence), timestamp)
    ensures |ChunkPackets(timestamp, chunks, sequence)| == |chunks|
    decreases |chunks|
  {
    if |chunks| > 1 {
      ChunksAreOnePicture(timestamp, chunks[1..], After(sequence));
    } else {
      assert chunks[1..] == [];
    }
  }

  lemma UnwelcomePicture(t: Trace, timestamp: nat, chunks: seq<seq<byte>>, sequence: uint16)
    requires chunks != [] && t.assembler.active.None? && t.assembler.next.Some? && t.assembler.next.value != sequence
    ensures var t' := FeedAll(t, ChunkPackets(timestamp, chunks, sequence));
            t'.emitted == t.emitted && t'.discarded == t.discarded + 1
  {
    var qs := ChunkPackets(timestamp, chunks, sequence);
    ChunksAreOnePicture(timestamp, chunks, sequence);
    var t1 := Feed(t, qs[0]);
    assert Enter(t.assembler, qs[0]).invalid;
    assert t1.emitted == t.emitted + [] == t.emitted;
    if |chunks| == 1 {
      assert qs[1..] == [];
    } else {
      InvalidUntilMarker(t1, timestamp, qs[1..]);
    }
  }

  /** The picture finds no unit and a number it does not continue. */
  predicate Broken(a: Assembler, sequence: uint16) {
    a.active.None? && a.next.Some? && a.next.value != sequence
  }

  lemma PictureAfter(t: Trace, timestamp: nat, chunks: seq<seq<byte>>, sequence: uint16)
    requires chunks != [] && t.assembler.active != Some(timestamp)
    requires t.assembler.active.None? ==> !t.assembler.invalid && t.assembler.accessUnit == []
    ensures var t' := FeedAll(t, ChunkPackets(timestamp, chunks, sequence));
            var broken := Broken(t.assembler, sequence);
            && Units(t'.emitted) ==
                 Units(t.emitted) + (if broken || Flatten(chunks) == [] then [] else [Flatten(chunks)])
            && t'.discarded == t.discarded + Count(t.assembler.active.Some?) + Count(broken)
  {
    if Broken(t.assembler, sequence) {
      UnwelcomePicture(t, timestamp, chunks, sequence);
    } else {
      WelcomePicture(t, timestamp, chunks, sequence);
    }
  }

  /** After any run, failed packets included, a contiguous picture of a new timestamp is
      handed on whole, unless no unit is active and its first number does not continue the
      last one seen; a unit still active is dropped for it, and a picture that is not handed
      on is dropped itself, each counted once. */
  lemma PictureIsHandedOnIff(ps: seq<Packet>, timestamp: nat, chunks: seq<seq<byte>>, sequence: uint16)
    requires chunks != [] && FeedAll(NO_PACKETS, ps).assembler.active != Some(timestamp)
    ensures var t := FeedAll(NO_PACKETS, ps);
            var t' := FeedAll(NO_PACKETS, ps + ChunkPackets(timestamp, chunks, sequence));
            var broken := t.assembler.active.None? && ps != [] && sequence != After(ps[|ps| - 1].sequence);
            && Units(t'.emitted) ==
                 Units(t.emitted) + (if broken || Flatten(chunks) == [] then [] else [Flatten(chunks)])
            && t'.discarded == t.discarded + Count(t.assembler.active.Some?) + Count(broken)
  {
    AfterAnyRun(ps);
    FeedAllSplits(NO_PACKETS, ps, ChunkPackets(timestamp, chunks, sequence));
    PictureAfter(FeedAll(NO_PACKETS, ps), timestamp, chunks, sequence);
  }

  // --------------------------------------------------------------- the object

  class H264AccessUnitAssembler {
    var accessUnit: seq<byte>
    var activeTimestamp: Option<nat>
    var nextSequence: Option<uint16>
    var currentInvalid: bool
    var droppedCount: nat

    ghost function View(): Assembler
      reads this
    {
      Assembler(accessUnit, activeTimestamp, nextSequence, currentInvalid, droppedCount)
    }

    constructor ()
      ensures View() == FRESH
    {
      accessUnit, activeTimestamp, nextSequence, currentInvalid, droppedCount := [], None, None, false, 0;
    }

    method DropCurrentUnit()
      modifies this
      ensures View() == DropCurrent(old(View()))
    {
      if activeTimestamp.Some? {
        activeTimestamp := None;
        droppedCount := SaturatingIncrement(droppedCount);
      }
      currentInvalid := false;
      accessUnit := [];
    }

    method PushPacket(timestamp: nat, sequence: uint16, marker: bool, payload: Depacketized)
      returns (pushed: Pushed)
      modifies this
      ensures (View(), pushed) == Push(old(View()), Packet(timestamp, sequence, marker, payload))
    {
      var timestampDiscontinuity := activeTimestamp.Some? && activeTimestamp.value != timestamp;
      if timestampDiscontinuity {
        DropCurrentUnit();
        accessUnit := [];
      }
      if activeTimestamp.None? {
        activeTimestamp := Some(timestamp);
        currentInvalid := false;
      }
      var sequenceDiscontinuity := nextSequence.Some? && nextSequence.value != sequence;
      nextSequence := Some(After(sequence));
      if sequenceDiscontinuity && !timestampDiscontinuity {
        currentInvalid := true;
        accessUnit := [];
      } else if sequenceDiscontinuity {
        accessUnit := [];
      }
      assert View() == Enter(old(View()), Packet(timestamp, sequence, marker, payload));
      if currentInvalid {
        if marker {
          DropCurrentUnit();
        }
        return Nothing;
      }
      if payload.DepacketError? {
        return PushError;
      }
      assert accessUnit + [] == accessUnit;
      if payload.bytes != [] {
        accessUnit := accessUnit + payload.bytes;
      }
      if !marker {
        return Nothing;
      }
      activeTimestamp := None;
      var whole := accessUnit;
      accessUnit := [];
      if whole == [] {
        return Nothing;
      }
      return Emit(whole);
    }
  }
}
