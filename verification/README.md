# EasyNet-Cli: a verified model of the SDK's protocols

This project models the stateful core of EasyNet-Cli in Dafny and proves what its
pieces promise together, for every input and every run.

* **Bidirectional session** (`BidiModel`, `BidiRuns`, `BidiTheorems`, `BidiEdges`, `BidiSession`).
  Send, Receive, CloseSend, Cancel and Close each have a locked half that begins, an
  unlocked transport call with any answer, and a locked half that completes. A run is any
  interleaving of those halves. The class `BidiSession` holds the mutable fields and
  shifts its bounded histories in place; every method is proved against the step it is.
  `BidiEdges` tells from the calls and answers alone which step of a run moves which field.
* **Frame numbering** (`CabiNumbering`, `DirectNumbering`). Two transports that number
  frames, each composed with the session.
* **Native ownership** (`Leases`, `Callback`, `Inbox`, `LeasedStream`, `PreparedHandles`).
  Reference-counted payload leases, the native callback, the bounded callback inbox and the
  registry of prepared handles. The native side is a multiset of lease references. Operations
  are cut where their locks are, so closes, retains, drains and receives interleave.
  `LeasedStream` runs the lease protocol and the inbox together, from a frame's arrival to the
  stream's close.
* **Media receiver** (`AccessUnits`, `AnnexB`, `Goertzel`). Reassembly of H.264 access units
  (section 5.1 of RFC 6184, with the wrapping numbers of section 5.1 of RFC 3550), the
  scanner for the byte stream format of Annex B of ITU-T H.264, and the Goertzel filter over
  exact reals, with cosine and sine as any pair on the unit circle.
* **Receipts, directory scan, connection** (`Receipts`, `DirectoryScan`, `Connection`).
* **Canonical encodings** (`Authority`, `SourceRevision`). Session authorities through
  normalising, signing, marshalling and unmarshalling; the digest input of a dirty tree.

`Common` and `Text` hold shared value types and Go's white-space trimming.

## Where the code keeps less than one would expect

Each of these has a lemma with a concrete run or input, and a lemma that says exactly when
the expectation holds. The two about authorities turn on the URA grammar, which is not part of
this model.

| expectation | counterexample | exact condition |
|---|---|---|
| a successful CloseSend ends sending | `BidiTheorems.CloseSendThenSend` | `BidiTheorems.CloseSendIsFinalIff` |
| C ABI numbering is never refused | `CabiNumbering.UnnumberedTextBreaksNumbering` | `CabiNumbering.NumberedFrameRefusedIff` |
| a close leaves none of its stream's leases | `Leases.RetainOutlivesClose` | `Leases.CloseReleasesEverythingIff` |
| a lease's references are its payloads | `Leases.IncompatibleFrameLeaks` | `Leases.BalancedIff`, `Callback.LostReferencesAreLeaks` |
| after overflow no packet, and the failure next | `Inbox.PacketAfterOverflow` | `Inbox.PacketFollowsFailureIff`, `Inbox.FailureComesFirstIff` |
| one signer per prepared key | `PreparedHandles.ReuseAfterDrainIsUnsafe` | `PreparedHandles.RegisterIsSafeIff` |
| a packet that fails to depacketize spoils its unit | `AccessUnits.FailedPacketIsSkipped` | `AccessUnits.FailedPacketIsSpannedIff` |
| normalising twice is normalising once | `Authority.SecondNormalisationDiffers` | `Authority.NormalizeIsIdempotentIff` |
| a signed authority can be unmarshalled | `Authority.NamedOwnerIsNotRecovered` | `Authority.UnmarshalledValidatesIff` |
| different trees have different digest inputs | `SourceRevision.DeletedFileCollides` | `SourceRevision.TreesCollideIff` |

## What is taken from outside

* The contract of `include/easynet_cli.h`, lines 50-60 and 117-123: a frame with a lease id
  brings one reference on it. The native calls refuse a lease without references and nothing else.
* JSON, base64, SHA-256 and Ed25519 are lossless or abstract: a decoded value stands for its
  text, a payload for its canonical bytes, a predicate for the signature check.
* The URA grammar is a parameter. `Authority.Canonical` states what one corollary asks of it.
* Transport answers, connector answers, directory pages, nonces, clocks and cancellations are
  parameters without restriction, except where a row names one.

## Model

| member | source | states |
|---|---|---|
| BidiTheorems.TerminalFrameIsFinal | sdk/go/bidi.go:351-410 | In every run, once a terminal or transport-terminal frame is recorded nothing more is ever recorded as received, Terminal is never left, and at most one frame of the run ends the stream |
| BidiTheorems.TerminalMeansTerminalFrame | sdk/go/bidi.go:675-704 | The runtime state is Terminal exactly when the last received frame is terminal and not a transport terminal, and a stored terminal frame is that frame's projection |
| BidiTheorems.LocalHalfCloseIsFinal | sdk/go/bidi.go:295-348 | Once the local half-close is set no Send or CloseSend is accepted or in flight, and the sent history and last sent number never change, whatever is in flight |
| BidiTheorems.ReachableStates | sdk/go/bidi.go:618-704 | The carrier never returns to open, runtime states stay within six, and each half-closed state implies its flags |
| BidiTheorems.LocalRunsKeepRuntime | sdk/go/bidi.go:538-576 | Runs without a decoded provider answer (failures, interruptions, Close, sends) never change the runtime state |
| BidiTheorems.HistoriesAreTails | sdk/go/bidi.go:578-616 | Both histories are the last `maxBuffered` frames of the full accepted sequences, which strictly increase and end at the stored last number |
| BidiTheorems.DefensiveErrorsNeverFire | sdk/go/bidi.go:592-649 | Three errors the completing halves can report are unreachable |
| BidiTheorems.SendBeginsIffPossible | sdk/go/bidi.go:274-349 | In every reachable state, some continuation lets a Send begin if and only if the present fields allow it, including a pending cancel that a peer half-close can undo |
| BidiTheorems.CloseSendIsFinalIff | sdk/go/bidi.go:412-471 | A successful CloseSend is followed by a Send in some continuation exactly when it completes on an open carrier during a cancel request with numbers left |
| BidiTheorems.CloseSendThenSend | sdk/go/bidi.go:651-662 | Such a run exists: the cancel overtakes the CloseSend, and the local half-close is not set |
| BidiEdges.RuntimeMovesAlongEdges | sdk/go/bidi.go:651-704 | In every run each step moves the runtime state exactly along a listed edge: Opening is left by the first ordinary frame, the half-closes come from a recorded `remote_close_send` or a successful CloseSend, Terminal from a recorded terminal frame, and CancelRequested from a successful Cancel; it is left only for Terminal, or for HalfClosedRemote while the local half-close is unset |
| BidiEdges.FlagsMoveAlongEdges | sdk/go/bidi.go:651-704 | In every run the local half-close is set exactly by a CloseSend that succeeds while the send path is open, the remote one exactly by a recorded `remote_close_send` |
| BidiEdges.CarrierMovesAlongEdges | sdk/go/bidi.go:538-704 | In every run the carrier is lost exactly by a hard fault, a malformed or out-of-order answer, or a recorded transport terminal, and closes as the transport says |
| BidiEdges.RecordedIff | sdk/go/bidi.go:578-604 | In every run a frame is recorded exactly when a call in flight returns it well-formed with a number above the last, a sent one only while the send path is open |
| BidiEdges.CallsBeginIff | sdk/go/bidi.go:274-560 | In every run a call begins exactly when the carrier is open (or failed, for Close), the runtime state admits it and, where that matters, none of its kind is in flight |
| BidiEdges.AnswersTellTheTruth | sdk/go/bidi.go:317-536 | In every run a call in flight reports success exactly when it had its effect |
| BidiEdges.RefusalsAreNamed | sdk/go/bidi.go:274-560 | Which error refuses a call: the carrier first, then the runtime state, then another call in flight |
| BidiEdges.FailuresAreNamed | sdk/go/bidi.go:317-410 | Which error ends a Send or Receive in flight, told from the answer and the last numbers |
| BidiEdges.OpensIff | sdk/go/bidi.go:158-199 | Open metadata make a session exactly when they name it, claim Opening, Open or nothing and set no negative bound; it starts empty with 1024 frames by default |
| BidiEdges.TerminalFrameIsTheLast | sdk/go/bidi.go:782-797 | In every run a stored terminal frame has the session id and the last received frame's number, payload, error and receipt, and the type its kind or its error tells |
| BidiRuns.StepKeepsInv | sdk/go/bidi.go:274-576 | Every begin and complete half, with any transport answer, keeps the invariant over flags, states, histories and the end of the stream |
| BidiRuns.RetainKeepsTail | sdk/go/bidi.go:609-616 | Dropping the head of a full window and appending keeps the window equal to the tail of the log |
| BidiSession.FrameHistory.RetainBidiFrame | sdk/go/bidi.go:609-616 | The in-place shift of the backing array yields the retained window, for any limit |
| BidiSession.BidiSession.BeginSend | sdk/go/bidi.go:274-315 | The locked first half of Send is accepted or refused as the step says and changes only the sending flag |
| BidiSession.BidiSession.CompleteSend | sdk/go/bidi.go:317-349 | The locked second half: the answer's checks, recording and carrier failure are those of the step |
| BidiSession.BidiSession.BeginReceive | sdk/go/bidi.go:351-377 | The locked first half of Receive |
| BidiSession.BidiSession.CompleteReceive | sdk/go/bidi.go:379-410 | The locked second half: recording, state change, terminal projection and refusals of the step, whose edges `BidiEdges.RuntimeMovesAlongEdges` lists |
| BidiSession.BidiSession.ApplyReceiveFrame | sdk/go/bidi.go:641-649 | A recorded frame is remembered before its state change is applied |
| BidiSession.BidiSession.ApplyReceivedState | sdk/go/bidi.go:675-704 | Transport terminal, terminal and peer half-close frames move carrier, runtime state and flags as the step says, whose edges are `BidiEdges.RuntimeMovesAlongEdges`, `FlagsMoveAlongEdges` and `CarrierMovesAlongEdges` |
| BidiSession.BidiSession.CompleteCloseSend | sdk/go/bidi.go:440-471 | The outcome's checks and the local half-close, also when the state has changed meanwhile |
| BidiSession.BidiSession.CompleteCancel | sdk/go/bidi.go:496-536 | The outcome's checks and the move to CancelRequested |
| BidiSession.BidiSession.CompleteClose | sdk/go/bidi.go:562-576 | A local close leaves the carrier closed or failed and the runtime state alone |
| CabiNumbering.ReceivedFramesCountUp | sdk/go/cabi_runtime.go:1781-1793 | Composed with the session, as long as every recorded text was projected the received numbers are exactly 1, 2, 3, … |
| CabiNumbering.NumberedFrameRefusedIff | sdk/go/cabi_runtime.go:1925-1937 | A numbered frame fails the receive-order check exactly when an earlier frame was recorded unnumbered |
| CabiNumbering.UnnumberedTextBreaksNumbering | sdk/go/cabi_runtime.go:1947-1985 | A run in which a text that generic decoding rejects reaches the session unnumbered, after which a numbered frame is refused |
| CabiNumbering.SequenceCounter.Allocate | sdk/go/cabi_runtime.go:1925-1937 | The counter follows observed numbers upwards, wraps at 2^64 and otherwise hands out its own next number |
| CabiNumbering.AllocationsMoveOn | sdk/go/cabi_runtime.go:1925-1937 | An observed number is handed out as it is and the counter never moves back; without one the counter is handed out and moves on by one |
| DirectNumbering.StreamNumberingIsContiguous | sdk/go/direct_runtime.go:641-676 | Composed with the session, the stream is handed 0, 1, 2, …, no completed send fails the order check, and nothing follows the EOF of CloseSend |
| DirectNumbering.DirectBidiTransport.Send | sdk/go/direct_runtime.go:641-676 | One send hands over the next number, or none on refusal, with the acknowledgement the session sees |
| DirectNumbering.DirectBidiTransport.CloseSend | sdk/go/direct_runtime.go:741-774 | The EOF takes the next number and closes the send side |
| DirectNumbering.SendIsDecided | sdk/go/direct_runtime.go:641-676 | A send hands over and acknowledges exactly a well-formed frame with the next number on an open transport and send side, with the stream's fault if it fails; anything else is refused, as an interruption exactly where the send side was closed |
| DirectNumbering.CloseSendIsDecided | sdk/go/direct_runtime.go:741-774 | The EOF takes the next number even when the stream then fails, and is refused on a closed transport or send side |
| DirectNumbering.CloseStopsTheTransport | sdk/go/direct_runtime.go:784-801 | A closed transport hands nothing over any more and reports a hard fault |
| Leases.ReferencesAreCounted | sdk/go/cabi_runtime.go:1276-1453 | In every interleaving of arrivals, retains, releases and closes, a lease's references are its registered unreleased payloads, its deliveries under way and its leaks; no native call is refused; each payload has exactly one native release, once released; an unreleased payload's bytes are referenced |
| Leases.StepKeepsInv | sdk/go/cabi_runtime.go:1288-1453 | Every lock section keeps that balance |
| Leases.ArrivalIsDecided | sdk/go/cabi_runtime.go:1288-1323 | Told from the frame alone: what lets an arrival in, what leaks its reference, and that the empty payload and every refused shape change nothing |
| Leases.RetainsAndReleasesAreDecided | sdk/go/cabi_runtime.go:1386-1432 | A Retain gets past its check, and a release takes effect, exactly when the payload is there, unreleased and not being retained, a Retain only in an open scope |
| Leases.BalancedIff | sdk/go/cabi_runtime.go:1288-1323 | A run ends with exactly one reference per registered payload and delivery under way, if and only if no frame was turned away by its layout, a missing inbox or a closed scope |
| Leases.IncompatibleFrameLeaks | sdk/go/cabi_callbacks.go:91-94 | A frame of an unknown layout leaves one reference and no payload |
| Leases.CloseReleasesEverythingIff | sdk/go/cabi_runtime.go:1434-1453 | A close that takes its snapshot and works through its list always leaves nothing of its stream registered, if and only if no Retain and no delivery on the stream overlaps the snapshot |
| Leases.RetainOutlivesClose | sdk/go/cabi_runtime.go:1386-1406 | A run in which a Retain commits behind the snapshot: the close finishes, the payload stays registered and referenced |
| Leases.CloseAll | sdk/go/cabi_runtime.go:1447-1452 | With nothing under way a closer can work through its list, and touches no payload outside it |
| Leases.ArrivedIsTwoSteps | sdk/go/cabi_runtime.go:1288-1323 | An uninterrupted arrival is its check and its registration in sequence |
| Leases.RetainedIsTwoSteps | sdk/go/cabi_runtime.go:1386-1406 | An uninterrupted Retain is its check and its registration in sequence |
| Leases.LeaseTable.NewLeasedPayload | sdk/go/cabi_runtime.go:1288-1336 | The empty payload is accepted exactly for no lease, no data and length 0; a payload registers exactly for a lease with data of 1 byte to 256 MiB in an open scope; every other shape gives its reference back, and a closed scope leaks it |
| Leases.LeaseTable.Retain | sdk/go/cabi_runtime.go:1386-1406 | One more reference and one more payload exactly when the payload is unreleased, its scope open and its lease referenced |
| Leases.LeaseTable.Release | sdk/go/cabi_runtime.go:1408-1432 | The first release unregisters and gives back one reference; later ones change nothing |
| Leases.LeaseTable.ReleaseLeases | sdk/go/cabi_runtime.go:1434-1453 | Uninterrupted, exactly the payloads of the scope are released and the balance holds afterwards |
| Callback.OnStreamFrame | sdk/go/cabi_callbacks.go:82-175 | A frame whose layout, header, views and presence flags are in order and whose payload is a lease with bytes in an open scope, or exactly empty, is pushed, or dropped where its inbox has gone since leasing; its reference is then handed on or stranded, otherwise given back, except exactly where it is lost |
| Callback.OnLeasedFrame | sdk/go/cabi_callbacks.go:105-175 | Once the payload is leased, every refusal releases it |
| Callback.CopyViews | sdk/go/cabi_callbacks.go:262-277 | The four views are accepted exactly when each is within its bound and null exactly when empty |
| Callback.CheckPresence | sdk/go/cabi_callbacks.go:146-161 | The presence table is accepted exactly when each flag says whether its part is there |
| Callback.LostReferencesAreLeaks | sdk/go/cabi_callbacks.go:82-104 | The references the callback loses are exactly the leaks of the lease protocol |
| LeasedStream.EveryPayloadHasAHolder | sdk/go/cabi_runtime.go:1276-1453 | In every run of arrivals, leasing, pushes, drains, receives, retains, releases and the close, a registered payload is the application's, a working callback's, a queued packet's or a dropped one's, and until the close begins the last three are registered |
| LeasedStream.UndeliveredPacketsAreGivenBack | sdk/go/cabi_runtime.go:2589-2694 | In every run a packet's payload is the application's exactly when the packet was delivered, and a packet neither delivered nor queued has had its payload's one native release |
| LeasedStream.FinishedCloseLeavesTheApplications | sdk/go/cabi_runtime.go:1531-1551 | Once the stream's close has finished, every payload the application was not given has had its one native release, and a lease's references are the application's payloads on it and what leaked on arrival |
| LeasedStream.AdmittedFramesDoNotLeak | sdk/go/cabi_runtime.go:1531-1551 | Runs whose frames have a known layout and a registered inbox leak nothing, because the native close waits for its callbacks |
| LeasedStream.StrandedUntilTheClose | sdk/go/cabi_runtime.go:2818-2825 | A payload whose packet was dropped for want of an inbox stays registered and referenced until the close begins, and is released once it has finished |
| LeasedStream.NothingIsDeliveredAfterDiscard | sdk/go/cabi_runtime.go:2760-2772 | Once the inbox has been discarded and drained no packet is ever delivered |
| LeasedStream.CloseCanFinish | sdk/go/cabi_runtime.go:1531-1551 | From every reachable state some continuation finishes the close |
| LeasedStream.StepKeepsInv | sdk/go/cabi_runtime.go:1276-1551 | Every step of the composed stream keeps both protocols' invariants and the record of who holds what |
| Inbox.PacketsAreAccountedFor | sdk/go/cabi_runtime.go:2589-2694 | In every interleaving of pushes, drains, receives, failures and closes each pushed packet is exactly one of delivered, queued and released; delivery follows push order; nothing is released while the inbox is open; the queue stays within its bound |
| Inbox.NoPacketAfterFailure | sdk/go/cabi_runtime.go:2612-2637 | In every run only closed or context errors follow a delivered failure: no packet and no second failure |
| Inbox.FirstLookGetsTheFailure | sdk/go/cabi_runtime.go:2612-2628 | In every run the first receive that looks after a failure and its drain is given it, and whatever follows there is exactly one failure |
| Inbox.FailureIsOwedUntilDelivered | sdk/go/cabi_runtime.go:2589-2649 | An overflow owes the backpressure failure and a protocol failure its own error, in every continuation until it is delivered |
| Inbox.FailureComesFirstIff | sdk/go/cabi_runtime.go:2612-2637 | After overflow or a protocol failure, the failure is the next thing any receiver is given in every continuation, if and only if no receiver was already past its look |
| Inbox.PacketFollowsFailureIff | sdk/go/cabi_runtime.go:2612-2663 | After overflow or a protocol failure, some continuation still delivers a packet if and only if a receiver is past its look and the drain has not emptied the queue |
| Inbox.PacketAfterOverflow | sdk/go/cabi_runtime.go:2589-2610 | A run in which a waiting receiver is handed a packet after the overflow, and the failure reaches the next call |
| Inbox.DrainLoop | sdk/go/cabi_runtime.go:2651-2663 | The drain loop's steps, run through, release exactly what was queued |
| Inbox.PushEndsTheInboxIff | sdk/go/cabi_runtime.go:2581-2610 | In every run a push on an open inbox ends it if and only if exactly `maxItems` packets, or one where that is not positive, are pushed and undelivered; then the packet is released and the backpressure failure owed, otherwise it is queued last and nothing is released or owed |
| Inbox.PushAfterTheEnd | sdk/go/cabi_runtime.go:2589-2597 | A push on an inbox that has ended only releases the packet |
| Inbox.EndsAreDecided | sdk/go/cabi_runtime.go:2639-2722 | Closing keeps the queue, discarding drains it, and failing an open inbox also leaves the error owed |
| Inbox.CallbackInbox.Push | sdk/go/cabi_runtime.go:2589-2610 | An open inbox ends exactly when its queue holds the larger of 1 and `maxItems`, releasing everything and recording the backpressure failure; below that the packet is queued last; a closed inbox only releases it |
| Inbox.CallbackInbox.DrainLeasedLocked | sdk/go/cabi_runtime.go:2651-2663 | Every queued packet is released once |
| Inbox.CallbackInbox.Look | sdk/go/cabi_runtime.go:2612-2628 | The pending failure is taken once |
| Inbox.CallbackInbox.Take | sdk/go/cabi_runtime.go:2629-2637 | The oldest packet, else the closed error, else the caller waits |
| Inbox.CallbackInbox.Fail | sdk/go/cabi_runtime.go:2639-2649 | Only the first end of the inbox can record a protocol failure, and then everything queued is released |
| Inbox.CallbackInbox.Discard | sdk/go/cabi_runtime.go:2675-2694 | Closes without a failure and releases everything queued |
| PreparedHandles.RegistrationsAreAccountedFor | sdk/go/cabi_runtime.go:678-753 | In every run, with native ids reused or not, each accepted registration is in exactly one of the table, consumed and drained |
| PreparedHandles.OneSignerAtATime | sdk/go/cabi_runtime.go:698-742 | With native ids never reused, every run has at most one signer per registration, its release makes the key claimable again and its consume retires it, and a release or consume left over from a drained registration changes nothing |
| PreparedHandles.RegisterIsSafeIff | sdk/go/cabi_runtime.go:678-742 | Registering a key keeps signing exclusive in every continuation without further reuse, if and only if no old claim on that key and native id is still out |
| PreparedHandles.ReuseAfterDrainIsUnsafe | sdk/go/cabi_runtime.go:725-753 | A claim out during a drain and a reused id lead to two signers |
| PreparedHandles.PreparedHandleRegistry.Register | sdk/go/cabi_runtime.go:678-696 | A taken key keeps its entry and the new id is freed |
| PreparedHandles.PreparedHandleRegistry.ClaimForSigning | sdk/go/cabi_runtime.go:698-723 | A claim is given exactly to a registered, non-zero, unclaimed handle |
| PreparedHandles.PreparedHandleRegistry.ReleaseSigningClaim | sdk/go/cabi_runtime.go:725-733 | Only a matching claimed entry becomes ready |
| PreparedHandles.PreparedHandleRegistry.ConsumeSigningClaim | sdk/go/cabi_runtime.go:735-742 | Only a matching claimed entry is removed |
| PreparedHandles.PreparedHandleRegistry.Drain | sdk/go/cabi_runtime.go:744-753 | Every entry's id is returned exactly once and the table is left empty |
| AccessUnits.EmittedUnitsAreSegments | examples/easynet-remoteapp-frame-receiver.rs:1719-1776 | In every run each emitted unit is the in-order concatenation of the bytes of consecutive packets with one timestamp and numbers consecutive mod 2^16, ending at a marker, and units do not overlap |
| AccessUnits.UnitsAreAccountedFor | examples/easynet-remoteapp-frame-receiver.rs:1719-1792 | In every run units opened are emitted, dropped, completed empty or active, and the public counter is the number dropped, saturating |
| AccessUnits.FailedPacketIsSpannedIff | examples/easynet-remoteapp-frame-receiver.rs:1755-1762 | After any run, a packet that fails to depacketize ends up inside an emitted unit in some continuation, bytes missing and marker passed over, if and only if the unit it arrives in is not already invalid |
| AccessUnits.CleanRunsEmitWholeUnits | examples/easynet-remoteapp-frame-receiver.rs:1762-1775 | A run in which nothing fails to depacketize emits only units with all bytes of their packets and their single marker last |
| AccessUnits.FailedPacketIsSkipped | examples/easynet-remoteapp-frame-receiver.rs:1755-1764 | A unit emitted without a failed packet's bytes and past its marker |
| AccessUnits.LosslessStreamIsReassembled | examples/easynet-remoteapp-frame-receiver.rs:1719-1776 | A complete stream in order, from any first number and through wrap-arounds, is given back picture by picture with nothing dropped |
| AccessUnits.EmittedIff | examples/easynet-remoteapp-frame-receiver.rs:1719-1776 | Told from the packets alone, in every run without a failed packet: consecutive packets are emitted as one unit if and only if they are a whole picture, which may take over from one without its marker at any number but behind a marker must continue the numbers |
| AccessUnits.GapDropsTheUnit | examples/easynet-remoteapp-frame-receiver.rs:1741-1752 | After any run a gap inside a unit drops it up to its marker, counted once |
| AccessUnits.PictureIsHandedOnIff | examples/easynet-remoteapp-frame-receiver.rs:1724-1776 | After any run a contiguous picture of a new timestamp is handed on whole, unless no unit is active and its first number does not continue the last one; each unit dropped on the way is counted once |
| AccessUnits.H264AccessUnitAssembler.PushPacket | examples/easynet-remoteapp-frame-receiver.rs:1719-1776 | The mutable assembler takes the step of the run; what it emits and drops over a run is `AccessUnits.EmittedIff`, `GapDropsTheUnit` and `PictureIsHandedOnIff` |
| AnnexB.AnnexbNalTypes | examples/easynet-remoteapp-frame-receiver.rs:1847-1866 | The scanning loop computes the recursive scan of the whole input |
| AnnexB.ScanReadsBack | examples/easynet-remoteapp-frame-receiver.rs:1847-1866 | Any list of NAL units without 00 00 01 behind the header, each with either start code, is read back in order, even where bodies end in zeros |
| AnnexB.TypesAreHeaders | examples/easynet-remoteapp-frame-receiver.rs:1859-1863 | On any bytes the types are the low five bits at the reported header offsets |
| AnnexB.NalType | examples/easynet-remoteapp-frame-receiver.rs:1859-1863 | The type is the header without its three high bits |
| AnnexB.HeadersAreSound | examples/easynet-remoteapp-frame-receiver.rs:1847-1866 | On any bytes every reported header stands behind 00 00 01, in increasing order |
| AnnexB.HeadersAreComplete | examples/easynet-remoteapp-frame-receiver.rs:1847-1866 | On any bytes every position behind 00 00 01 is reported, or a reported header lies inside that start code |
| Goertzel.GoertzelPower | examples/easynet-remoteapp-frame-receiver.rs:1562-1577 | The recurrence yields exactly the squared magnitude of the direct DFT sum over N², for any samples |
| Goertzel.RegistersGiveDft | examples/easynet-remoteapp-frame-receiver.rs:1566-1576 | The power read off the two registers is that of the direct sum and never negative, so the clamp changes nothing |
| Goertzel.CombinedIsTurnedDft | examples/easynet-remoteapp-frame-receiver.rs:1566-1574 | The registers combine to the direct sum turned by the last sample's angle |
| Goertzel.PowerTimesSquaredCount | examples/easynet-remoteapp-frame-receiver.rs:1574-1576 | Times the squared count, the power is the squared magnitude |
| Goertzel.DominantGoertzelFrequency | examples/easynet-remoteapp-frame-receiver.rs:1529-1548 | The first strongest frequency of the grid is returned; an empty grid gives the lower bound |
| Receipts.SuccessIff | sdk/go/direct_runtime.go:878-945 | A unary response is projected with ok=true exactly when it completed without failure and carries both receipts of one invocation, in order and identifiable |
| Receipts.ReceiptFreeIff | sdk/go/direct_runtime.go:950-981 | A projection without receipts is exactly a Failed pre-admission rejection, and carries its wire error |
| Receipts.ProjectionIsDecided | sdk/go/direct_runtime.go:1270-1314 | Every projection is either ok or has an error, has both receipts or none, and orders them within one invocation |
| Receipts.ProjectedFailureIsTheFirst | sdk/go/direct_runtime.go:1341-1357 | Every projection carries the failure of the first source that has one: the proof error, the response's own, the state it ended in, the terminal receipt's |
| Receipts.ReceiptsAreProjectedIff | sdk/go/direct_runtime.go:878-945 | A response with both receipts is projected exactly when they are one invocation's admission and end, in order and identifiable, in the response's state, and every error looked at has a stage |
| Receipts.HalfAPairIsRefused | sdk/go/direct_runtime.go:1270-1314 | One receipt without the other is never projected |
| Receipts.StagesBeforeAdmission | sdk/go/runtime.go:2576-2590 | The eight stages before admission |
| DirectoryScan.Scan | sdk/go/directory.go:187-257 | The paging loop's result and calls are those of the recursive walk |
| DirectoryScan.ScanAgainstAnyProvider | sdk/go/directory.go:187-257 | Against any provider: at most `maxPages` calls, no cursor twice, each cursor from the page before, the last-resort error never; a snapshot only after an empty cursor or a negative first page, negative exactly in that case, with every record of the pages asked for in order and within the bound in force |
| DirectoryScan.ScanOfListingIff | sdk/go/directory.go:187-257 | Against a provider that pages a fixed list the scan succeeds exactly when pages and records fit, and returns the whole list in order |
| DirectoryScan.ScanSucceedsIff | sdk/go/directory.go:187-257 | Against any provider a scan succeeds if and only if request and bounds are admissible and the provider's answers form a chain of fresh cursors from the request's that ends within the bounds |
| DirectoryScan.BoundsInForce | sdk/go/directory.go:517-533 | 64 pages and 25000 records by default, refused above 1024 and 500000 |
| DirectoryScan.AdmissibleRequest | sdk/go/directory.go:501-515 | A request lists, asks for at most 500 records a page and starts at a cursor of at most 4096 bytes, white space aside |
| Connection.RunsStaySettled | sdk/go/connection.go:100-205 | After any calls with any connector answers the state is Idle, Ready, Failed or Closed, Ready exactly with a transport, Failed never by a refused transition, and Closed is never left |
| Connection.EndIsToldByTheCalls | sdk/go/connection.go:100-205 | Told from the calls alone, a run ends Closed if and only if one of them closed; otherwise the last attempt of the last connect decides between Ready, with its transport and endpoint, and Failed, with its error |
| Connection.TableByTarget | sdk/go/connection.go:245-261 | The transition table read by where it leads |
| Connection.RuntimeConnection.Connect | sdk/go/connection.go:100-140 | The retry loop over the transition table ends where the connector's answers alone say, and no transition is refused |
| Connection.RuntimeConnection.ConnectAttempt | sdk/go/connection.go:142-170 | One attempt ends with the connector's answer, never with a refused transition |
| Connection.RuntimeConnection.Fail | sdk/go/connection.go:235-243 | The transport is dropped, and the error recorded where the table allows Failed |
| Connection.RuntimeConnection.Close | sdk/go/connection.go:184-205 | Closes for good from every settled state and keeps the connector's close error |
| Authority.NormalizeIsIdempotentIff | sdk/go/authority.go:942-975 | Normalising twice is normalising once, except when a URA derived from the subject has white space around it |
| Authority.NormalFormValidatesIff | sdk/go/authority.go:751-810 | Validation gives the same answer before and after normalisation |
| Authority.PayloadIgnoresSignature | sdk/go/authority_axon.go:127-157 | The canonical payload is the same before and after signing |
| Authority.UnmarshalledValidatesIff | sdk/go/authority_axon.go:229-261 | What was left out of the wire form is recovered exactly when the owner URA derived from the subject is absent, or names the same user without the all-zero principal |
| Authority.SignedAuthoritySurvivesIff | sdk/go/authority_axon.go:160-261 | A signed and marshalled authority unmarshals under that condition and no other, and then has the payload and signature that were signed, whose fields are `Authority.SignedFieldsAreTheAuthoritys` |
| Authority.UnnamedOwnerIsRecoverable | sdk/go/authority.go:641-661 | The condition holds for every authority that did not name its owner's URA, under any grammar |
| Authority.CanonicalOwnerIsRecoverable | sdk/go/authority.go:641-661 | The condition holds for every authority under a grammar in which the User URA kept by a subject, or built for the owner of a resource, parses back to that user and brings in no all-zero principal |
| Authority.VerifySeesWhatWasSigned | sdk/go/authority_axon.go:184-199 | After the round trip the public key is asked about exactly the payload and signature that were signed |
| Authority.SignedFieldsAreTheAuthoritys | sdk/go/authority_axon.go:127-157 | What is signed has the authority's own fields one by one, with the owner and creator it names |
| Authority.UnmarshalledFieldsAreTheSigned | sdk/go/authority_axon.go:229-261 | What is unmarshalled after signing has the fields of the authority that was signed, one by one |
| Authority.SignableIff | sdk/go/authority_axon.go:127-157 | An authority can be signed if and only if its names agree, its payload passes the checks and no all-zero principal is in it |
| Authority.PayloadChecksIff | sdk/go/authority.go:751-810 | Exactly what a payload has to satisfy: parties named, lists filled, callee callable, audience everyone, a realm or a callable, positive lifetime, bound subject |
| Authority.NamesAgreeIff | sdk/go/authority.go:942-975 | Exactly when the owner's and creator's names agree |
| Authority.SubjectBindsIff | sdk/go/authority.go:843-928 | Exactly which subjects bind an owner and a session |
| Authority.DerivedOwnerIs | sdk/go/authority.go:641-661 | The owner URA derived from a subject is a User subject's own text, the User URA of a resource's owner, or none |
| Authority.SignedSubjectIsTheOwners | sdk/go/authority.go:843-940 | In whatever is signed, a subject that names a user, as a User, as an Agent's user or as the owner of a resource, names the session's owner, and the lifetime is positive |
| Authority.SignedResourceIsBound | sdk/go/authority.go:860-865 | In whatever is signed, a user-owned resource that stands for a session stands for this one, and one that stands for an ability is among the follow-ups |
| Authority.SomeAuthorityIsSignable | sdk/go/authority_axon.go:127-157 | A grammar with a user-owned resource that meets what is asked of it, and an authority about that resource with a canonical payload |
| Authority.SecondNormalisationDiffers | sdk/go/authority.go:942-962 | A grammar that builds User URAs with a leading blank, under which the second normalisation changes the owner URA |
| Authority.NamedOwnerIsNotRecovered | sdk/go/authority_axon.go:229-261 | A grammar whose built User URAs are none, under which an authority that named its owner is signed and cannot be unmarshalled |
| Authority.SessionAuthority.SignWith | sdk/go/authority_axon.go:160-181 | A refused or wrong-sized signature changes nothing; an accepted one is over the payload the signed object still has, made of its own fields |
| SourceRevision.DigestInput | sdk/conformance/source_revision.py:80-90 | The loop feeds the digest exactly the length-prefixed stream |
| SourceRevision.ParseReadsBack | sdk/conformance/source_revision.py:86-89 | The stream of any list can be taken apart into that list |
| SourceRevision.StreamIsInjective | sdk/conformance/source_revision.py:80-90 | Different lists of (path, content) pairs, of any length, give different streams |
| SourceRevision.FieldLayout | sdk/conformance/source_revision.py:86-89 | A field is its length in eight bytes, most significant first, and then its bytes |
| SourceRevision.MissingFileText | sdk/conformance/source_revision.py:85 | A missing file is hashed as the text `<deleted>` |
| SourceRevision.TreesCollideIff | sdk/conformance/source_revision.py:82-89 | Two trees give one stream exactly when they agree up to a missing file standing for a file that reads `<deleted>` |
| SourceRevision.DeletedFileCollides | sdk/conformance/source_revision.py:85 | Two such trees |

## Left out

- Threads and memory: locks are step boundaries, and goroutine scheduling is any interleaving of steps. Lock fairness and progress are not modelled.
- Bidi session: session and stream identifiers, payload bytes and receipts are carried but not interpreted; the state shown to callers is not modelled.
- C ABI bidi receive: a callback text `null` makes the source write to a nil map; that failure of the process has no counterpart here.
- Direct bidi receive: the loop that turns wire frames into session frames is not modelled; its answers are arbitrary.
- Lease arrivals: reentrant closes from inside a callback and the final release of all scopes at shutdown are not modelled. In `Leases` deliveries may overlap a close although the native contract excludes it; `LeasedStream` takes that contract.
- LeasedStream: one stream with its own scope; a packet's release is one step with the inbox step that causes it, and the lookup before a push may fail at any moment.
- Inbox.CallbackInbox.Take: the wait for a packet or a cancelled context is a step of the run and not part of the method.
- PreparedHandles: freeing a native id is only reported, and a failure to free is ignored, as in the source.
- Media receiver: the RTP depacketizer and the decoder are foreign code. The depacketizer's answer for each packet is arbitrary. The Hann window and the pixel checks would only add easy members.
- Goertzel.GoertzelPower: does not model floating-point rounding, because the claim is about the recurrence.
- Receipts: a failure is reduced to its stage, code and message, or to the state it ended in; retryability and wording are not modelled.
- DirectorySubscription: its three states and cursor would only add easy members.
- Connection: encoding the connect options cannot fail for the types they have, so that branch is not there. Handshake facts are not carried.
- Authority: which of several failed checks is reported is not modelled, only that one fails. Delegation proofs, scope and audience matching and the authority client are not modelled.
- Text: strings are sequences of valid characters; invalid UTF-8 is not modelled.
- SourceRevision.DigestInput: listing and sorting the paths belong to git and Python and are not modelled; a length of 2^64 or more raises in the source and is excluded.
- Access control, ability descriptors, health, addressing, error tables, conformance generators and route generators: field copying, lookup tables and shape checks that would only add easy members.
