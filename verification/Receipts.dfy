/** The direct transport's receipt rules: which wire responses of a unary call
    are projected as a success, which as a failure, and which are refused. */
module Receipts {
  import opened Common
  import opened Text

  /** Wire lifecycle states; any other number is unsupported. */
  datatype State =
    | Unsupported(code: int)
    | Accepted | Admitted | Dispatched | Running
    | Completed | Failed | TimedOut | Cancelled

  /** A wire error; the stage is its lower-case name, None when it has none. */
  datatype WireError = WireError(stage: Option<string>, code: string, message: string)

  /** `calleeCanonical`: the callee binding is present and parses as a URA with a realm. */
  datatype Receipt = Receipt(
    state: State, cleanupComplete: bool, invocationID: string, index: nat,
    failure: Option<WireError>, calleeCanonical: bool)

  datatype Response = Response(
    state: State, error: Option<WireError>, proofError: Option<WireError>,
    admission: Option<Receipt>, terminal: Option<Receipt>)

  /** A failure as the SDK reports it: taken from the wire or named after a state. */
  datatype Failure = FromWire(stage: string, code: string, message: string) | FromState(state: State)

  datatype Projection = Projection(
    ok: bool, terminalState: State, admission: Option<Receipt>, terminal: Option<Receipt>, error: Option<Failure>)

  datatype ProtocolError =
    | UnsupportedState | ProofFailureWithoutReceipt | HalfAReceiptPair
    | AdmissionClaimsCleanup | NotAnAdmissionState | NotATerminalState
    | WireStateMismatch | DifferentInvocations | IndexOutOfOrder
    | UnsupportedErrorStage | ReceiptFreeNotFailed | ReceiptFreeWithProofError
    | ReceiptFreeWithoutError | ReceiptFreeAfterAdmission | ReceiptWithoutIdentity

  datatype Role = NoRole | AdmissionRole | TerminalRole

  predicate AdmissionState(s: State) { s.Accepted? || s.Admitted? }

  predicate TerminalState(s: State) { s.Completed? || s.Failed? || s.TimedOut? || s.Cancelled? }

  function ReceiptRole(r: Receipt): Result<Role, ProtocolError> {
    if AdmissionState(r.state) then
      if r.cleanupComplete then Err(AdmissionClaimsCleanup) else Ok(AdmissionRole)
    else if TerminalState(r.state) then Ok(TerminalRole)
    else Err(UnsupportedState)
  }

  /** None is a pair that may be projected. */
  function CheckPair(admission: Option<Receipt>, terminal: Option<Receipt>, wireState: State): Option<ProtocolError> {
    if admission.Some? && ReceiptRole(admission.value).Err? then Some(ReceiptRole(admission.value).error)
    else if admission.Some? && ReceiptRole(admission.value).value != AdmissionRole then Some(NotAnAdmissionState)
    else if terminal.None? then None
    else if ReceiptRole(terminal.value).Err? then Some(ReceiptRole(terminal.value).error)
    else if ReceiptRole(terminal.value).value != TerminalRole then Some(NotATerminalState)
    else if wireState != terminal.value.state then Some(WireStateMismatch)
    else if admission.None? then None
    else if && admission.value.invocationID != "" && terminal.value.invocationID != ""
            && admission.value.invocationID != terminal.value.invocationID then Some(DifferentInvocations)
    else if terminal.value.index <= admission.value.index then Some(IndexOutOfOrder)
    else None
  }

  function WireFailure(e: WireError): Result<Option<Failure>, ProtocolError> {
    if e.stage.None? then Err(UnsupportedErrorStage)
    else Ok(Some(FromWire(e.stage.value, e.code, e.message)))
  }

  function ResponseFailure(e: Option<WireError>, state: State): Result<Option<Failure>, ProtocolError> {
    if e.Some? then WireFailure(e.value)
    else if state.TimedOut? || state.Cancelled? || state.Failed? then Ok(Some(FromState(state)))
    else Ok(None)
  }

  predicate PreAdmissionStage(stage: string) {
    stage in ["global_admission", "caller_authentication", "authority_validation", "bootstrap_authorization",
              "quota", "ability_resolution", "ability_policy", "request_validation"]
  }

  function CheckReceiptFree(r: Response): Option<ProtocolError> {
    if !r.state.Failed? then Some(ReceiptFreeNotFailed)
    else if r.proofError.Some? then Some(ReceiptFreeWithProofError)
    else if r.error.None? then Some(ReceiptFreeWithoutError)
    else if r.error.value.stage.None? then Some(UnsupportedErrorStage)
    else if !PreAdmissionStage(r.error.value.stage.value) then Some(ReceiptFreeAfterAdmission)
    else None
  }

  /** A receipt can be given its id and URA. */
  predicate Identifiable(r: Receipt) {
    var id := Trim(r.invocationID);
    id != "" && '/' !in id && r.calleeCanonical && !r.state.Unsupported?
  }

  /** The failure the response carries, from the response, the proof, or the
      terminal receipt, in the order the transport looks. */
  function OutcomeFailure(r: Response): Result<Option<Failure>, ProtocolError> {
    var own := ResponseFailure(r.error, r.state);
    if own.Err? then own
    else
      var proved := if r.proofError.Some? then WireFailure(r.proofError.value) else own;
      if proved.Err? then proved
      else if proved.value.None? && r.terminal.Some? && r.terminal.value.failure.Some? then
        WireFailure(r.terminal.value.failure.value)
      else proved
  }

  function ProjectResponse(r: Response): Result<Projection, ProtocolError> {
    if r.state.Unsupported? then Err(UnsupportedState)
    else if r.proofError.Some? && r.terminal.None? then Err(ProofFailureWithoutReceipt)
    else if r.admission.None? != r.terminal.None? then Err(HalfAReceiptPair)
    else
      var pair := CheckPair(r.admission, r.terminal, r.state);
      if pair.Some? then Err(pair.value)
      else
        var failure := OutcomeFailure(r);
        if failure.Err? then Err(failure.error)
        else if r.terminal.None? && CheckReceiptFree(r).Some? then Err(CheckReceiptFree(r).value)
        else if r.admission.Some? && !Identifiable(r.admission.value) then Err(ReceiptWithoutIdentity)
        else if r.terminal.Some? && !Identifiable(r.terminal.value) then Err(ReceiptWithoutIdentity)
        else Ok(Projection(failure.value.None? && r.terminal.Some?, r.state, r.admission, r.terminal, failure.value))
  }

  // --------------------------------------------------- what the outcomes mean

  /** A call that completed and proves it: two receipts of one invocation, in
      order, and nothing that reports a failure. */
  predicate ProvenSuccess(r: Response) {
    && r.state.Completed?
    && r.error.None? && r.proofError.None?
    && r.admission.Some? && r.terminal.Some?
    && AdmissionState(r.admission.value.state) && !r.admission.value.cleanupComplete
    && r.terminal.value.state.Completed? && r.terminal.value.failure.None?
    && r.admission.value.invocationID == r.terminal.value.invocationID
    && r.admission.value.index < r.terminal.value.index
    && Identifiable(r.admission.value) && Identifiable(r.terminal.value)
  }

  /** A call refused before it was admitted: no receipts, and an error that says so. */
  predicate PreAdmissionRejection(r: Response) {
    && r.state.Failed?
    && r.admission.None? && r.terminal.None? && r.proofError.None?
    && r.error.Some? && r.error.value.stage.Some? && PreAdmissionStage(r.error.value.stage.value)
  }

  lemma BlankIDIsNotIdentifiable(r: Receipt)
    requires r.invocationID == ""
    ensures !Identifiable(r)
  {
    assert Trim("") == "";
  }

  /** ok=true is projected exactly for a proven success. */
  lemma SuccessIff(r: Response)
    ensures ProjectResponse(r).Ok? && ProjectResponse(r).value.ok <==> ProvenSuccess(r)
  {
    if r.admission.Some? && r.admission.value.invocationID == "" {
      BlankIDIsNotIdentifiable(r.admission.value);
    }
    if r.terminal.Some? && r.terminal.value.invocationID == "" {
      BlankIDIsNotIdentifiable(r.terminal.value);
    }
  }

  /** A projection without a terminal receipt is exactly a pre-admission rejection, never ok. */
  lemma ReceiptFreeIff(r: Response)
    ensures ProjectResponse(r).Ok? && ProjectResponse(r).value.terminal.None? <==> PreAdmissionRejection(r)
    ensures PreAdmissionRejection(r) ==>
              var p := ProjectResponse(r).value;
              !p.ok && p.terminalState == Failed && p.admission.None? &&
              p.error == Some(FromWire(r.error.value.stage.value, r.error.value.code, r.error.value.message))
  {
  }

  /** Every projection carries either success or an error, and never half a pair. */
  lemma ProjectionIsDecided(r: Response)
    requires ProjectResponse(r).Ok?
    ensures var p := ProjectResponse(r).value;
            && (p.ok <==> p.error.None?)
            && (p.admission.Some? <==> p.terminal.Some?)
            && (p.terminal.Some? ==>
                  && p.terminal.value.state == p.terminalState == r.state
                  && p.admission.value.index < p.terminal.value.index
                  && p.admission.value.invocationID == p.terminal.value.invocationID)
  {
    if r.admission.Some? && r.admission.value.invocationID == "" {
      BlankIDIsNotIdentifiable(r.admission.value);
    }
    if r.terminal.Some? && r.terminal.value.invocationID == "" {
      BlankIDIsNotIdentifiable(r.terminal.value);
    }
  }

  // ------------------------------------------------------ which failure it is

  /** The source of a projected failure: the proof's error comes first, then the response's
      own, then the state it ended in, then the terminal receipt's. */
  function FailureSource(r: Response): Option<Failure> {
    var wire := if r.proofError.Some? then r.proofError
                else if r.error.Some? then r.error
                else if r.state in {TimedOut, Cancelled, Failed} then None
                else if r.terminal.Some? then r.terminal.value.failure else None;
    if wire.Some? then
      if wire.value.stage.Some? then Some(FromWire(wire.value.stage.value, wire.value.code, wire.value.message)) else None
    else if r.state in {TimedOut, Cancelled, Failed} then Some(FromState(r.state))
    else None
  }

  /** Every projection carries the failure of the first source that has one, and the
      response's own state and receipts. */
  lemma ProjectedFailureIsTheFirst(r: Response)
    requires ProjectResponse(r).Ok?
    ensures var p := ProjectResponse(r).value;
            && p.error == FailureSource(r) && (p.error.None? ==> r.state == Completed)
            && p.terminalState == r.state && p.admission == r.admission && p.terminal == r.terminal
  {
  }

  predicate InOrder(a: Receipt, t: Receipt, state: State) {
    && (a.state == Accepted || a.state == Admitted) && !a.cleanupComplete
    && t.state == state && state in {Completed, Failed, TimedOut, Cancelled}
    && a.invocationID == t.invocationID && a.index < t.index
  }

  predicate Staged(e: Option<WireError>) {
    e.Some? ==> e.value.stage.Some?
  }

  /** A response with receipts is projected exactly when they are one invocation's admission
      and end, in order and identifiable, the end's state is the response's, and every wire
      error that is looked at has a stage. */
  lemma ReceiptsAreProjectedIff(r: Response)
    requires r.admission.Some? && r.terminal.Some?
    ensures ProjectResponse(r).Ok? <==>
              && InOrder(r.admission.value, r.terminal.value, r.state)
              && Identifiable(r.admission.value) && Identifiable(r.terminal.value)
              && Staged(r.error) && Staged(r.proofError)
              && (r.error.None? && r.proofError.None? && r.state == Completed ==> Staged(r.terminal.value.failure))
  {
    if r.admission.value.invocationID == "" { BlankIDIsNotIdentifiable(r.admission.value); }
    if r.terminal.value.invocationID == "" { BlankIDIsNotIdentifiable(r.terminal.value); }
  }

  /** Half a pair is never projected. */
  lemma HalfAPairIsRefused(r: Response)
    requires r.admission.Some? != r.terminal.Some?
    ensures ProjectResponse(r).Err?
  {
  }

  /** The eight stages before admission. */
  lemma StagesBeforeAdmission(stage: string)
    ensures PreAdmissionStage(stage) <==>
              stage in {"request_validation", "ability_policy", "ability_resolution", "quota",
                        "bootstrap_authorization", "authority_validation", "caller_authentication", "global_admission"}
  {
  }
}
