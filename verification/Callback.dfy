/** The native callback of a leased stream: every way out of it, and what becomes of the
    lease reference that the frame brings. */
module Callback {
  import opened Common
  import Leases

  const STREAM_V9_ABI_VERSION: nat := 9
  const MAX_CONTENT_TYPE_BYTES: nat := 4096
  const MAX_SIDECAR_BYTES: nat := 16777216
  const MAX_INT32: nat := 0x7fff_ffff

  const HAS_PAYLOAD: nat := 4
  const HAS_CONTENT_TYPE: nat := 8
  const HAS_ADMISSION_RECEIPT: nat := 16
  const HAS_TERMINAL_RECEIPT: nat := 32
  const HAS_ERROR: nat := 64
  const KNOWN_FLAGS: nat := 127

  /** Borrowed bytes: only the length and whether the pointer is null matter here. */
  datatype BytesView = BytesView(isNull: bool, length: nat)

  datatype Frame = Frame(
    structSize: nat, abiVersion: nat, lease: nat, hasData: bool, length: nat,
    sequence: nat, flags: nat, kind: nat, state: nat,
    contentType: BytesView, admissionReceipt: BytesView, terminalReceipt: BytesView, errorJSON: BytesView)

  /** The inbox is looked up in the callback registry when the payload is leased and again
      when the packet is pushed: `leasable` and `pushable` say whether it is there.
      `scopeClosed`: its stream's lease scope is closed.  `frameSize`: the size this binding
      knows for the frame. */
  datatype Context = Context(
    hasUserData: bool, leasable: bool, pushable: bool, scopeClosed: bool, frameSize: nat)

  datatype Exit = Ignored | InboxClosed | InboxFailed | Pushed | Dropped

  /** `Stranded`: the payload is leased and registered, and nobody was given it. */
  datatype Reference = NoReference | HandedOn | Stranded | GivenBack | Lost

  // ------------------------------------------------------ what a frame must be

  predicate Compatible(context: Context, frame: Frame) {
    frame.structSize >= context.frameSize && frame.abiVersion == 9
  }

  predicate Copyable(view: BytesView, maximum: nat) {
    view.length <= maximum && (view.isNull <==> view.length == 0)
  }

  predicate HeaderOk(frame: Frame) {
    frame.sequence != 0 && frame.flags < 128 && 1 <= frame.kind <= 6 && 1 <= frame.state <= 8
  }

  predicate ViewsOk(frame: Frame) {
    && Copyable(frame.contentType, 4096)
    && Copyable(frame.admissionReceipt, 16777216)
    && Copyable(frame.terminalReceipt, 16777216)
    && Copyable(frame.errorJSON, 16777216)
  }

  /** Whether the bit with this value is set. */
  predicate HasFlag(flags: nat, flag: nat) {
    flag != 0 && flags / flag % 2 == 1
  }

  predicate Agrees(flags: nat, presence: (nat, bool)) {
    HasFlag(flags, presence.0) <==> presence.1
  }

  /** Each presence flag says whether its part is there. */
  predicate FlagsOk(frame: Frame) {
    && (frame.flags / 8 % 2 == 1 <==> frame.contentType.length != 0)
    && (frame.flags / 4 % 2 == 1 <==> frame.length != 0)
    && (frame.flags / 16 % 2 == 1 <==> frame.admissionReceipt.length != 0)
    && (frame.flags / 32 % 2 == 1 <==> frame.terminalReceipt.length != 0)
    && (frame.flags / 64 % 2 == 1 <==> frame.errorJSON.length != 0)
  }

  predicate ContentOk(frame: Frame) {
    HeaderOk(frame) && ViewsOk(frame) && FlagsOk(frame)
  }

  /** A payload that can be leased: a lease id and 1 byte to 256 MiB of data. */
  predicate Leasable(frame: Frame) {
    frame.lease != 0 && frame.hasData && 0 < frame.length <= 268435456
  }

  /** The payload leads to a leased payload, or is exactly {0, no data, 0}. */
  predicate LeaseOk(context: Context, frame: Frame) {
    || (frame.lease == 0 && !frame.hasData && frame.length == 0)
    || (Leasable(frame) && !context.scopeClosed)
  }

  predicate Admitted(context: Context, frame: Frame) {
    context.hasUserData && Compatible(context, frame) && context.leasable
  }

  /** The frame is turned away with its reference still counted. */
  predicate LosesReference(context: Context, frame: Frame) {
    && frame.lease != 0
    && (!Admitted(context, frame) || (Leasable(frame) && context.scopeClosed))
  }

  /** The views are copied one after another; the first that cannot be stops the copying. */
  method CopyViews(frame: Frame) returns (ok: bool)
    ensures ok <==> ViewsOk(frame)
  {
    var views := [(frame.contentType, MAX_CONTENT_TYPE_BYTES), (frame.admissionReceipt, MAX_SIDECAR_BYTES),
                  (frame.terminalReceipt, MAX_SIDECAR_BYTES), (frame.errorJSON, MAX_SIDECAR_BYTES)];
    ok := true;
    var i := 0;
    while i < |views| && ok
      invariant 0 <= i <= |views|
      invariant ok <==> forall k :: 0 <= k < i ==> Copyable(views[k].0, views[k].1)
      decreases |views| - i
    {
      var view, maximum := views[i].0, views[i].1;
      if view.length > maximum || view.length > MAX_INT32 {
        ok := false;
      } else if view.length == 0 {
        ok := view.isNull;
      } else {
        ok := !view.isNull;
      }
      i := i + 1;
    }
    assert ok ==> Copyable(views[0].0, views[0].1) && Copyable(views[1].0, views[1].1);
    assert ok ==> Copyable(views[2].0, views[2].1) && Copyable(views[3].0, views[3].1);
  }

  method CheckPresence(frame: Frame, hasLease: bool) returns (ok: bool)
    requires hasLease <==> frame.length != 0
    ensures ok <==> FlagsOk(frame)
  {
    var table := [(HAS_CONTENT_TYPE, frame.contentType.length != 0), (HAS_PAYLOAD, hasLease),
                  (HAS_ADMISSION_RECEIPT, frame.admissionReceipt.length != 0),
                  (HAS_TERMINAL_RECEIPT, frame.terminalReceipt.length != 0),
                  (HAS_ERROR, frame.errorJSON.length != 0)];
    ok := true;
    for i := 0 to |table|
      invariant ok <==> forall k :: 0 <= k < i ==> Agrees(frame.flags, table[k])
    {
      if !Agrees(frame.flags, table[i]) {
        ok := false;
      }
    }
    assert FlagsOk(frame) <==>
      (&& Agrees(frame.flags, table[0]) && Agrees(frame.flags, table[1]) && Agrees(frame.flags, table[2])
       && Agrees(frame.flags, table[3]) && Agrees(frame.flags, table[4]));
  }

  /** All of the frame is in order. */
  predicate FrameOk(context: Context, frame: Frame) {
    Admitted(context, frame) && LeaseOk(context, frame) && ContentOk(frame)
  }

  /** A frame in order is pushed, or dropped where its inbox has gone meanwhile; its reference
      is then handed on, or stays with a payload that nobody holds.  On every other way out it
      is given back, except exactly where it is lost. */
  method OnStreamFrame(context: Context, frame: Option<Frame>) returns (exit: Exit, reference: Reference)
    ensures exit.Ignored? <==> !context.hasUserData
    ensures exit.InboxClosed? <==> context.hasUserData && frame.None?
    ensures exit.Pushed? <==> frame.Some? && FrameOk(context, frame.value) && context.pushable
    ensures exit.Dropped? <==> frame.Some? && FrameOk(context, frame.value) && !context.pushable
    ensures reference.NoReference? <==> frame.None? || frame.value.lease == 0
    ensures reference.HandedOn? <==> exit.Pushed? && frame.value.lease != 0
    ensures reference.Stranded? <==> exit.Dropped? && frame.value.lease != 0
    ensures reference.Lost? <==> frame.Some? && LosesReference(context, frame.value)
  {
    reference := if frame.None? || frame.value.lease == 0 then NoReference else Lost;
    if !context.hasUserData {
      exit := Ignored;
    } else if frame.None? {
      exit := InboxClosed;
    } else {
      exit := InboxFailed;
      var f := frame.value;
      if f.structSize >= context.frameSize && f.abiVersion == STREAM_V9_ABI_VERSION && context.leasable {
        if Leases.Malformed(f.lease, f.hasData, f.length) {
          reference := if f.lease == 0 then NoReference else GivenBack;
        } else if f.length == 0 || !context.scopeClosed {
          exit, reference := OnLeasedFrame(f, context.pushable);
        }
      }
    }
  }

  /** The part of the callback that owns the leased payload: every refusal releases it. */
  method OnLeasedFrame(f: Frame, pushable: bool) returns (exit: Exit, reference: Reference)
    requires !Leases.Malformed(f.lease, f.hasData, f.length)
    ensures exit == if !ContentOk(f) then InboxFailed else if pushable then Pushed else Dropped
    ensures reference.NoReference? <==> f.lease == 0
    ensures f.lease != 0 ==>
              reference == if !ContentOk(f) then GivenBack else if pushable then HandedOn else Stranded
  {
    exit := InboxFailed;
    reference := if f.lease == 0 then NoReference else GivenBack;
    if f.sequence == 0 || f.flags > KNOWN_FLAGS {
    } else if f.kind !in {1, 2, 3, 4, 5, 6} {
    } else if f.state !in {1, 2, 3, 4, 5, 6, 7, 8} {
    } else {
      var copied := CopyViews(f);
      if copied {
        var present := CheckPresence(f, f.lease != 0);
        if present && pushable {
          exit := Pushed;
          reference := if f.lease == 0 then NoReference else HandedOn;
        } else if present {
          exit := Dropped;
          reference := if f.lease == 0 then NoReference else Stranded;
        }
      }
    }
  }

  /** The references the callback loses are exactly the leaks of the lease protocol. */
  lemma LostReferencesAreLeaks(w: Leases.World, op: nat, scope: nat, context: Context, frame: Frame)
    requires op !in w.pending && (context.scopeClosed <==> scope in w.closedScopes)
    ensures LosesReference(context, frame) <==>
            Leases.Leaks(w, Leases.Arrive(op, frame.lease, frame.hasData, frame.length, scope, Admitted(context, frame)))
    ensures LosesReference(context, frame) <==>
            Leases.OnArrive(w, op, frame.lease, frame.hasData, frame.length, scope, Admitted(context, frame)).leaked != w.leaked
  {
    var step := Leases.Arrive(op, frame.lease, frame.hasData, frame.length, scope, Admitted(context, frame));
    Leases.StepLeaksIff(w, step);
    if Leases.Leaks(w, step) {
      assert (w.leaked + multiset{frame.lease})[frame.lease] == w.leaked[frame.lease] + 1;
    }
  }
}
