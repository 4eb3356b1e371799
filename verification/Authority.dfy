/** Session authorities: normalisation, validation, the canonical payload that is
    signed, and the wire form it travels in.  JSON and base64 are taken as
    lossless, so a payload stands for its canonical bytes. */
module Authority {
  import opened Common
  import opened Text

  type byte = n: nat | n < 256

  const ED25519_SIGNATURE_SIZE: nat := 64
  const ALL_ZERO_PRINCIPAL := "00000000-0000-0000-0000-000000000000"
  const SHAPE_ONLY: seq<byte> := [115, 104, 97, 112, 101, 45, 111, 110, 108, 121]

  datatype UraKind = UserKind | AgentKind | ServiceKind | AuthorityKind | ResourceKind | AnotherKind

  datatype Parts = Parts(raw: string, realm: string, kind: UraKind, userID: string, ownerID: string, path: string)

  /** The URA grammar of the Axon SDK: parsing, building a User URA, the scheme prefix. */
  datatype Grammar = Grammar(parse: string -> Option<Parts>, userURA: (string, string) -> string, scheme: string)

  datatype Session = Session(
    issuerURA: string, sessionID: string, ownerUserID: string, ownerURA: string,
    creatorID: string, creatorURA: string, calleeURA: string, subjectURA: string, audience: string,
    scopes: seq<string>, actions: seq<string>, followups: seq<string>,
    issuedAt: int, expiresAt: int, signature: seq<byte>)

  /** What is signed. */
  datatype Payload = Payload(
    issuerURA: string, sessionID: string, ownerUserID: string, creatorID: string,
    calleeURA: string, subjectURA: string, audience: string,
    scopes: seq<string>, actions: seq<string>, followups: seq<string>, issuedAt: int, expiresAt: int)

  datatype Raw = Raw(payload: Payload, signature: seq<byte>)

  // ------------------------------------------------------------ normalisation

  /** The user id of a User URA, if it is one. */
  function UserIDOf(g: Grammar, ura: string): Option<string> {
    var parts := g.parse(Trim(ura));
    if parts.None? || !parts.value.kind.UserKind? || Trim(parts.value.userID) == "" then None
    else Some(Trim(parts.value.userID))
  }

  /** The owner's URA as far as the subject tells it; empty when it does not. */
  function OwnerFromSubject(g: Grammar, subjectURA: string, ownerUserID: string): string {
    var owner := Trim(ownerUserID);
    var parts := g.parse(Trim(subjectURA));
    if owner == "" || parts.None? then ""
    else if parts.value.kind.UserKind? && parts.value.userID == owner then parts.value.raw
    else if parts.value.kind.ResourceKind? && Trim(parts.value.ownerID) == "user." + owner then
      g.userURA(parts.value.realm, owner)
    else ""
  }

  /** The owner's URA and user id after normalisation; None when they disagree. */
  function NormalOwner(g: Grammar, s: Session): Option<(string, string)> {
    var id, given := Trim(s.ownerUserID), Trim(s.ownerURA);
    var ura := if given == "" then OwnerFromSubject(g, s.subjectURA, id) else given;
    if ura == "" then Some(("", id))
    else
      var user := UserIDOf(g, ura);
      if user.None? || (id != "" && id != user.value) then None else Some((ura, user.value))
  }

  /** The creator's URA and id after normalisation; None when they disagree. */
  function NormalCreator(g: Grammar, s: Session): Option<(string, string)> {
    var id, ura := Trim(s.creatorID), Trim(s.creatorURA);
    if ura != "" then
      if g.parse(ura).None? || (id != "" && id != ura) then None else Some((ura, ura))
    else if HasPrefix(id, g.scheme) && g.parse(id).Some? then Some((id, id))
    else Some(("", id))
  }

  function Normalize(g: Grammar, s: Session): Option<Session> {
    var owner, creator := NormalOwner(g, s), NormalCreator(g, s);
    if owner.None? || creator.None? then None
    else Some(s.(ownerURA := owner.value.0, ownerUserID := owner.value.1,
                 creatorURA := creator.value.0, creatorID := creator.value.1))
  }

  // --------------------------------------------------------------- validation

  predicate Blank(s: string) { Trim(s) == "" }

  predicate AllZero(s: string) { Contains(Trim(s), ALL_ZERO_PRINCIPAL) }

  predicate BlankList(values: seq<string>) {
    values == [] || exists i :: 0 <= i < |values| && Blank(values[i])
  }

  predicate CallableTarget(g: Grammar, ura: string) {
    var parts := g.parse(Trim(ura));
    parts.Some? && (parts.value.kind.AgentKind? || parts.value.kind.ServiceKind? || parts.value.kind.AuthorityKind?)
  }

  predicate AudienceSelector(g: Grammar, audience: string) {
    var selector := Trim(audience);
    || selector == "*"
    || (HasPrefix(selector, "easynet:///r/") && HasSuffix(selector, "/"))
    || CallableTarget(g, selector)
  }

  predicate CanonicalSessionID(id: string) {
    var trimmed := Trim(id);
    trimmed != "" && forall i :: 0 <= i < |trimmed| ==>
      var c := trimmed[i];
      'a' <= c <= 'z' || 'A' <= c <= 'Z' || '0' <= c <= '9' || c == '-' || c == '.'
  }

  /** What the subject binds, beside the user it belongs to (empty when unproven). */
  datatype Subject = Whole(owner: string) | OneSession(owner: string, sessionID: string) | OneAbility(owner: string, ability: string)

  /** The text behind `prefix` when it is one non-blank path segment. */
  function Segment(path: string, prefix: string): Option<string> {
    if HasPrefix(path, prefix) && !Blank(path[|prefix|..]) && '/' !in path[|prefix|..] then Some(Trim(path[|prefix|..]))
    else None
  }

  function SubjectOf(g: Grammar, subjectURA: string): Option<Subject> {
    var parsed := g.parse(Trim(subjectURA));
    if parsed.None? then None
    else
      var parts := parsed.value;
      match parts.kind
      case UserKind => if Blank(parts.userID) then None else Some(Whole(Trim(parts.userID)))
      case AgentKind => Some(Whole(Trim(parts.userID)))
      case ResourceKind =>
        var ownerID, path := Trim(parts.ownerID), Trim(parts.path);
        var owner := if HasPrefix(ownerID, "user.") then ownerID[5..] else "";
        if HasPrefix(ownerID, "user.") && (owner == "" || '.' in owner || '/' in owner) then None
        else if owner != "" && Segment(path, "session/").Some? then
          Some(OneSession(owner, Segment(path, "session/").value))
        else if owner != "" && Segment(path, "invoke/").Some? then
          Some(OneAbility(owner, Segment(path, "invoke/").value))
        else if path == "" then None
        else Some(Whole(owner))
      case _ => None
  }

  predicate SubjectBinds(g: Grammar, subjectURA: string, ownerUserID: string, sessionID: string, followups: seq<string>) {
    var subject := SubjectOf(g, subjectURA);
    && CanonicalSessionID(sessionID)
    && subject.Some?
    && (subject.value.owner == "" || subject.value.owner == Trim(ownerUserID))
    && (subject.value.OneSession? ==> subject.value.sessionID == Trim(sessionID))
    && (subject.value.OneAbility? ==>
          exists i :: 0 <= i < |followups| && Trim(followups[i]) == Trim(subject.value.ability))
  }

  /** The checks on what the payload carries. */
  predicate PayloadChecks(g: Grammar, p: Payload) {
    && !Blank(p.issuerURA) && !Blank(p.sessionID) && !Blank(p.ownerUserID) && !Blank(p.creatorID)
    && !Blank(p.calleeURA) && !Blank(p.subjectURA) && !Blank(p.audience)
    && !AllZero(p.issuerURA) && !AllZero(p.ownerUserID) && !AllZero(p.creatorID)
    && !AllZero(p.calleeURA) && !AllZero(p.subjectURA) && !AllZero(p.audience)
    && !BlankList(p.scopes) && !BlankList(p.actions) && !BlankList(p.followups)
    && CallableTarget(g, p.calleeURA) && AudienceSelector(g, p.audience)
    && p.expiresAt > p.issuedAt
    && SubjectBinds(g, p.subjectURA, p.ownerUserID, p.sessionID, p.followups)
  }

  function PayloadOf(s: Session): Payload {
    Payload(s.issuerURA, s.sessionID, s.ownerUserID, s.creatorID, s.calleeURA, s.subjectURA, s.audience,
            s.scopes, s.actions, s.followups, s.issuedAt, s.expiresAt)
  }

  /** `validateSessionAuthority`, which normalises its argument first. */
  predicate Validates(g: Grammar, s: Session) {
    var n := Normalize(g, s);
    && n.Some?
    && PayloadChecks(g, PayloadOf(n.value))
    && !AllZero(n.value.ownerURA) && !AllZero(n.value.creatorURA)
    && n.value.signature != []
  }

  // ------------------------------------------- signing, marshalling, verifying

  /** An unsigned authority is given a stand-in signature before it is validated. */
  function Shape(s: Session): Session {
    if s.signature == [] then s.(signature := SHAPE_ONLY) else s
  }

  function CanonicalPayload(g: Grammar, s: Session): Option<Payload> {
    var shape := Normalize(g, Shape(s));
    if shape.None? || !Validates(g, shape.value) then None else Some(PayloadOf(shape.value))
  }

  /** A signer may refuse. */
  type Signer = Payload -> Option<seq<byte>>

  function Signed(g: Grammar, s: Session, signer: Signer): Option<Session> {
    var payload := CanonicalPayload(g, s);
    if payload.None? || signer(payload.value).None? || |signer(payload.value).value| != ED25519_SIGNATURE_SIZE then None
    else Some(s.(signature := signer(payload.value).value))
  }

  function MarshalRaw(g: Grammar, s: Session): Option<Raw> {
    var payload := CanonicalPayload(g, s);
    if payload.None? || s.signature == [] then None else Some(Raw(payload.value, s.signature))
  }

  function FromRaw(raw: Raw): Session {
    var p := raw.payload;
    Session(p.issuerURA, p.sessionID, p.ownerUserID, "", p.creatorID, "", p.calleeURA, p.subjectURA, p.audience,
            p.scopes, p.actions, p.followups, p.issuedAt, p.expiresAt, raw.signature)
  }

  function UnmarshalRaw(g: Grammar, raw: Raw): Option<Session> {
    if Validates(g, FromRaw(raw)) then Some(FromRaw(raw)) else None
  }

  /** `verifies`: the signature check of one public key. */
  predicate Verify(g: Grammar, s: Session, verifies: (Payload, seq<byte>) -> bool) {
    var payload := CanonicalPayload(g, s);
    payload.Some? && verifies(payload.value, s.signature)
  }

  // ------------------------------------------------------------------- lemmas

  lemma NothingIsAllZero()
    ensures !AllZero("")
  {
    assert Trim("") == "";
    assert |ALL_ZERO_PRINCIPAL| > 0;
  }

  lemma NormalFieldsAreTrimmed(g: Grammar, s: Session)
    requires Normalize(g, s).Some?
    ensures Trimmed(Normalize(g, s).value.ownerUserID) && Trimmed(Normalize(g, s).value.creatorID)
  {
    TrimTrims(s.ownerUserID);
    TrimTrims(s.creatorID);
    TrimTrims(s.creatorURA);
    var ura := NormalOwner(g, s).value.0;
    if ura != "" {
      TrimTrims(g.parse(Trim(ura)).value.userID);
    }
  }

  lemma CreatorIsSettled(g: Grammar, s: Session)
    requires Normalize(g, s).Some?
    ensures NormalCreator(g, Normalize(g, s).value) == NormalCreator(g, s)
  {
    var n := Normalize(g, s).value;
    TrimIdempotent(s.creatorID);
    TrimIdempotent(s.creatorURA);
    assert Trim("") == "";
    assert Trim(n.creatorID) == n.creatorID && Trim(n.creatorURA) == n.creatorURA;
  }

  lemma OwnerIsSettled(g: Grammar, s: Session)
    requires Normalize(g, s).Some?
    ensures var n := Normalize(g, s).value;
            && NormalOwner(g, n).Some?
            && NormalOwner(g, n).value.1 == n.ownerUserID
            && NormalOwner(g, n).value.0 == (if Trim(n.ownerURA) == "" then n.ownerURA else Trim(n.ownerURA))
  {
    var n := Normalize(g, s).value;
    NormalFieldsAreTrimmed(g, s);
    TrimTrims(n.ownerUserID);
    TrimIdempotent(s.ownerURA);
    TrimIdempotent(s.ownerUserID);
    TrimIdempotent(n.ownerURA);
    assert Trim("") == "";
  }

  /** A second normalisation changes nothing but white space around a derived owner URA. */
  lemma NormalizeAgain(g: Grammar, s: Session)
    requires Normalize(g, s).Some?
    ensures var n := Normalize(g, s).value;
            Normalize(g, n) == Some(n.(ownerURA := if Trim(n.ownerURA) == "" then n.ownerURA else Trim(n.ownerURA)))
  {
    CreatorIsSettled(g, s);
    OwnerIsSettled(g, s);
  }

  /** The owner's URA that a reader of the payload will derive is acceptable:
      there is none, or it names the same user and no all-zero principal. */
  predicate OwnerRecoverable(g: Grammar, subjectURA: string, ownerUserID: string) {
    var ura := OwnerFromSubject(g, subjectURA, ownerUserID);
    ura == "" || (UserIDOf(g, ura) == Some(Trim(ownerUserID)) && !AllZero(ura))
  }

  /** What normalising the unmarshalled form gives back. */
  lemma RecoverNormalForm(g: Grammar, n: Session, b: Session)
    requires Trimmed(n.ownerUserID) && Trimmed(n.creatorID) && n.ownerUserID != ""
    requires PayloadOf(b) == PayloadOf(n) && b.ownerURA == "" && b.creatorURA == ""
    ensures var ura := OwnerFromSubject(g, n.subjectURA, n.ownerUserID);
            && (Normalize(g, b).Some? <==> ura == "" || UserIDOf(g, ura) == Some(n.ownerUserID))
            && (Normalize(g, b).Some? ==>
                  && PayloadOf(Normalize(g, b).value) == PayloadOf(n)
                  && Normalize(g, b).value.ownerURA == ura
                  && Normalize(g, b).value.signature == b.signature
                  && Normalize(g, b).value.creatorURA in {"", n.creatorID})
  {
    TrimTrims(n.ownerUserID);
    TrimTrims(n.creatorID);
    assert Trim("") == "";
  }

  /** The unmarshalled form of a signable authority validates exactly when its
      owner can be recovered from the subject. */
  lemma UnmarshalledValidatesIff(g: Grammar, s: Session, signature: seq<byte>)
    requires CanonicalPayload(g, s).Some? && signature != []
    ensures var p := CanonicalPayload(g, s).value;
            Validates(g, FromRaw(Raw(p, signature))) <==> OwnerRecoverable(g, p.subjectURA, p.ownerUserID)
  {
    var shape := Shape(s);
    var n := Normalize(g, shape).value;
    var p := CanonicalPayload(g, s).value;
    NormalizeAgain(g, shape);
    NormalFieldsAreTrimmed(g, shape);
    TrimTrims(p.ownerUserID);
    NothingIsAllZero();
    RecoverNormalForm(g, n, FromRaw(Raw(p, signature)));
  }

  /** Signing, marshalling and unmarshalling give back the payload and signature
      that were signed, exactly when the owner can be recovered. */
  lemma SignedAuthoritySurvivesIff(g: Grammar, s: Session, signer: Signer)
    requires Signed(g, s, signer).Some?
    ensures var p := CanonicalPayload(g, s).value;
            var signed := Signed(g, s, signer).value;
            && MarshalRaw(g, signed) == Some(Raw(p, signed.signature))
            && (UnmarshalRaw(g, Raw(p, signed.signature)).Some? <==> OwnerRecoverable(g, p.subjectURA, p.ownerUserID))
            && (UnmarshalRaw(g, Raw(p, signed.signature)).Some? ==>
                  var b := UnmarshalRaw(g, Raw(p, signed.signature)).value;
                  CanonicalPayload(g, b) == Some(p) && b.signature == signer(p).value)
  {
    var p := CanonicalPayload(g, s).value;
    var signed := Signed(g, s, signer).value;
    PayloadIgnoresSignature(g, s, signed.signature);
    UnmarshalledValidatesIff(g, s, signed.signature);
    var b := FromRaw(Raw(p, signed.signature));
    if Validates(g, b) {
      ValidatedPayload(g, s, b);
    }
  }

  lemma NormalizeIgnoresSignature(g: Grammar, s: Session, signature: seq<byte>)
    ensures var t := s.(signature := signature);
            && Normalize(g, t).Some? == Normalize(g, s).Some?
            && (Normalize(g, s).Some? ==> Normalize(g, t).value == Normalize(g, s).value.(signature := signature))
  {
    var t := s.(signature := signature);
    assert NormalOwner(g, t) == NormalOwner(g, s);
    assert NormalCreator(g, t) == NormalCreator(g, s);
  }

  lemma ValidatesIgnoresSignature(g: Grammar, s: Session, signature: seq<byte>)
    requires Validates(g, s) && signature != []
    ensures Validates(g, s.(signature := signature))
  {
    NormalizeIgnoresSignature(g, s, signature);
    var n := Normalize(g, s).value;
    assert PayloadOf(n.(signature := signature)) == PayloadOf(n);
  }

  /** The payload does not depend on the signature it will carry. */
  lemma PayloadIgnoresSignature(g: Grammar, s: Session, signature: seq<byte>)
    requires CanonicalPayload(g, s).Some? && signature != []
    ensures CanonicalPayload(g, s.(signature := signature)) == CanonicalPayload(g, s)
  {
    var shape := Shape(s);
    NormalizeIgnoresSignature(g, shape, signature);
    ValidatesIgnoresSignature(g, Normalize(g, shape).value, signature);
    assert s.(signature := signature) == shape.(signature := signature);
  }

  /** Validation sees through normalisation. */
  lemma NormalFormValidatesIff(g: Grammar, s: Session)
    requires Normalize(g, s).Some?
    ensures Validates(g, Normalize(g, s).value) <==> Validates(g, s)
  {
    var n := Normalize(g, s).value;
    NormalizeAgain(g, s);
    TrimIdempotent(n.ownerURA);
    assert PayloadOf(Normalize(g, n).value) == PayloadOf(n);
  }

  lemma ValidatedPayload(g: Grammar, s: Session, b: Session)
    requires CanonicalPayload(g, s).Some? && b == FromRaw(Raw(CanonicalPayload(g, s).value, b.signature))
    requires b.signature != [] && Validates(g, b)
    ensures CanonicalPayload(g, b) == CanonicalPayload(g, s)
  {
    var n := Normalize(g, Shape(s)).value;
    NormalFieldsAreTrimmed(g, Shape(s));
    NormalFormValidatesIff(g, Shape(s));
    NormalFormValidatesIff(g, b);
    TrimTrims(n.ownerUserID);
    assert n.ownerUserID != "";
    RecoverNormalForm(g, n, b);
  }

  // ----------------------------------------------------------------- theorems

  /** Normalising twice is normalising once, unless the owner URA was derived from
      the subject and came out with white space around it. */
  lemma NormalizeIsIdempotentIff(g: Grammar, s: Session)
    requires Normalize(g, s).Some?
    ensures var derived := OwnerFromSubject(g, s.subjectURA, s.ownerUserID);
            Normalize(g, Normalize(g, s).value) == Normalize(g, s) <==>
            !Blank(s.ownerURA) || Blank(derived) || Trim(derived) == derived
  {
    NormalizeAgain(g, s);
    TrimIdempotent(s.ownerURA);
    TrimIdempotent(s.ownerUserID);
  }

  lemma DerivedOwner(g: Grammar, s: Session)
    requires Blank(s.ownerURA) && Normalize(g, s).Some?
    ensures var n := Normalize(g, s).value;
            && Trim(n.ownerUserID) == n.ownerUserID
            && n.ownerURA == OwnerFromSubject(g, n.subjectURA, n.ownerUserID)
            && (n.ownerURA != "" ==> UserIDOf(g, n.ownerURA) == Some(n.ownerUserID))
  {
    TrimIdempotent(s.ownerUserID);
  }

  /** An authority that never named its owner's URA always survives. */
  lemma UnnamedOwnerIsRecoverable(g: Grammar, s: Session)
    requires Blank(s.ownerURA) && CanonicalPayload(g, s).Some?
    ensures var p := CanonicalPayload(g, s).value;
            OwnerRecoverable(g, p.subjectURA, p.ownerUserID)
  {
    DerivedOwner(g, Shape(s));
    NormalFormValidatesIff(g, Shape(s));
  }

  /** `x` is the URA of a resource that `user` owns. */
  predicate OwnedBy(g: Grammar, x: string, user: string) {
    var parts := g.parse(x);
    parts.Some? && parts.value.kind.ResourceKind? && Trim(parts.value.ownerID) == "user." + user
  }

  /** What the URA grammar is relied on for: the User URA that a User subject keeps, or that
      is built for the owner of a resource, parses back to that user, and brings in no
      all-zero principal that was not there before. */
  ghost predicate Canonical(g: Grammar) {
    && (forall x :: UserIDOf(g, x).Some? && Trim(x) == x ==>
          var raw := g.parse(x).value.raw;
          UserIDOf(g, raw) == UserIDOf(g, x) && (AllZero(raw) ==> AllZero(x)))
    && (forall x, user :: OwnedBy(g, x, user) && !Blank(user) ==>
          var built := g.userURA(g.parse(x).value.realm, user);
          UserIDOf(g, built) == Some(Trim(user)) && (AllZero(built) ==> AllZero(x) || AllZero(user)))
  }

  lemma CanonicalGrammarRecovers(g: Grammar, subjectURA: string, owner: string)
    requires Canonical(g) && Trim(owner) == owner != ""
    requires !AllZero(subjectURA) && !AllZero(owner)
    ensures OwnerRecoverable(g, subjectURA, owner)
  {
    var subject := Trim(subjectURA);
    var parts := g.parse(subject);
    TrimIdempotent(subjectURA);
    assert !AllZero(subject);
    if parts.Some? && parts.value.kind.UserKind? && parts.value.userID == owner {
      assert UserIDOf(g, subject) == Some(owner);
    } else if OwnedBy(g, subject, owner) {
      assert UserIDOf(g, g.userURA(parts.value.realm, owner)) == Some(owner);
    }
  }

  lemma PayloadIsChecked(g: Grammar, s: Session)
    requires CanonicalPayload(g, s).Some?
    ensures var p := CanonicalPayload(g, s).value;
            PayloadChecks(g, p) && Trim(p.ownerUserID) == p.ownerUserID != ""
  {
    var n := Normalize(g, Shape(s)).value;
    NormalFormValidatesIff(g, Shape(s));
    NormalFieldsAreTrimmed(g, Shape(s));
    TrimTrims(n.ownerUserID);
  }

  /** Under a canonical grammar every signed authority survives, whatever it named. */
  lemma CanonicalOwnerIsRecoverable(g: Grammar, s: Session)
    requires Canonical(g) && CanonicalPayload(g, s).Some?
    ensures var p := CanonicalPayload(g, s).value;
            OwnerRecoverable(g, p.subjectURA, p.ownerUserID)
  {
    var p := CanonicalPayload(g, s).value;
    PayloadIsChecked(g, s);
    CanonicalGrammarRecovers(g, p.subjectURA, p.ownerUserID);
  }

  /** The public key is asked about exactly the payload and signature that were signed. */
  lemma VerifySeesWhatWasSigned(g: Grammar, s: Session, signer: Signer, verifies: (Payload, seq<byte>) -> bool)
    requires Signed(g, s, signer).Some?
    requires Canonical(g) || Blank(s.ownerURA)
    ensures var p := CanonicalPayload(g, s).value;
            var raw := MarshalRaw(g, Signed(g, s, signer).value);
            && raw.Some?
            && UnmarshalRaw(g, raw.value).Some?
            && (Verify(g, UnmarshalRaw(g, raw.value).value, verifies) <==> verifies(p, signer(p).value))
  {
    SignedAuthoritySurvivesIff(g, s, signer);
    if Blank(s.ownerURA) {
      UnnamedOwnerIsRecoverable(g, s);
    } else {
      CanonicalOwnerIsRecoverable(g, s);
    }
  }

  /** Whatever is signed: a subject that names a user, as a User, as an Agent's user or as the
      owner of a resource, names the session's owner. */
  lemma SignedSubjectIsTheOwners(g: Grammar, s: Session, user: string)
    requires CanonicalPayload(g, s).Some?
    ensures var p := CanonicalPayload(g, s).value;
            var parts := g.parse(Trim(p.subjectURA));
            && parts.Some?
            && (parts.value.kind.UserKind? ==> Trim(parts.value.userID) == p.ownerUserID)
            && (parts.value.kind.AgentKind? && !Blank(parts.value.userID) ==> Trim(parts.value.userID) == p.ownerUserID)
            && (OwnedBy(g, Trim(p.subjectURA), user) ==> user == p.ownerUserID)
            && p.issuedAt < p.expiresAt
  {
    PayloadIsChecked(g, s);
    var p := CanonicalPayload(g, s).value;
    var parts := g.parse(Trim(p.subjectURA));
    assert SubjectOf(g, p.subjectURA).Some?;
    if OwnedBy(g, Trim(p.subjectURA), user) {
      ResourceSubject(g, p.subjectURA, user);
    }
  }

  lemma ResourceSubject(g: Grammar, subjectURA: string, user: string)
    requires SubjectOf(g, subjectURA).Some? && OwnedBy(g, Trim(subjectURA), user)
    ensures var path := Trim(g.parse(Trim(subjectURA)).value.path);
            var subject := SubjectOf(g, subjectURA).value;
            && user != "" && subject.owner == user
            && (Segment(path, "session/").Some? ==> subject == OneSession(user, Segment(path, "session/").value))
            && (Segment(path, "invoke/").Some? ==> subject == OneAbility(user, Segment(path, "invoke/").value))
  {
    var ownerID, path := Trim(g.parse(Trim(subjectURA)).value.ownerID), Trim(g.parse(Trim(subjectURA)).value.path);
    assert HasPrefix(ownerID, "user.") && ownerID[5..] == user;
    assert HasPrefix(path, "session/") ==> path[0] == 's';
    assert HasPrefix(path, "invoke/") ==> path[0] == 'i';
  }

  /** Whatever is signed: a user-owned resource that stands for a session stands for this one,
      and one that stands for an ability is among the follow-ups. */
  lemma SignedResourceIsBound(g: Grammar, s: Session, user: string)
    requires CanonicalPayload(g, s).Some?
    requires OwnedBy(g, Trim(CanonicalPayload(g, s).value.subjectURA), user)
    ensures var p := CanonicalPayload(g, s).value;
            var path := Trim(g.parse(Trim(p.subjectURA)).value.path);
            && (Segment(path, "session/").Some? ==> Segment(path, "session/").value == Trim(p.sessionID))
            && (Segment(path, "invoke/").Some? ==>
                  exists i :: 0 <= i < |p.followups| && Trim(p.followups[i]) == Trim(Segment(path, "invoke/").value))
  {
    PayloadIsChecked(g, s);
    ResourceSubject(g, CanonicalPayload(g, s).value.subjectURA, user);
  }

  // ----------------------------------------------- what exactly is signed

  /** The owner's id: as given, or else that of the owner's URA. */
  predicate OwnerOf(g: Grammar, s: Session, id: string) {
    if Blank(s.ownerUserID) then UserIDOf(g, s.ownerURA) == Some(id) else id == Trim(s.ownerUserID)
  }

  function CreatorOf(s: Session): string {
    if Blank(s.creatorURA) then Trim(s.creatorID) else Trim(s.creatorURA)
  }

  lemma NormalIdentities(g: Grammar, s: Session)
    requires Normalize(g, s).Some? && Normalize(g, s).value.ownerUserID != ""
    ensures OwnerOf(g, s, Normalize(g, s).value.ownerUserID)
    ensures Normalize(g, s).value.creatorID == CreatorOf(s)
  {
    TrimIdempotent(s.ownerURA);
    assert Trim("") == "";
  }

  /** The payload that is signed has the authority's own fields, one by one; the owner's and
      the creator's ids are the trimmed ones, or come from the URAs that name them. */
  lemma SignedFieldsAreTheAuthoritys(g: Grammar, s: Session)
    requires CanonicalPayload(g, s).Some?
    ensures var p := CanonicalPayload(g, s).value;
            && p.issuerURA == s.issuerURA && p.sessionID == s.sessionID && p.calleeURA == s.calleeURA
            && p.subjectURA == s.subjectURA && p.audience == s.audience
            && p.scopes == s.scopes && p.actions == s.actions && p.followups == s.followups
            && p.issuedAt == s.issuedAt && p.expiresAt == s.expiresAt
            && OwnerOf(g, s, p.ownerUserID) && p.creatorID == CreatorOf(s)
  {
    PayloadIsChecked(g, s);
    NormalIdentities(g, Shape(s));
  }

  /** The authority unmarshalled after signing has the fields of the one that was signed. */
  lemma UnmarshalledFieldsAreTheSigned(g: Grammar, s: Session, signer: Signer)
    requires Signed(g, s, signer).Some? && MarshalRaw(g, Signed(g, s, signer).value).Some?
    requires UnmarshalRaw(g, MarshalRaw(g, Signed(g, s, signer).value).value).Some?
    ensures var b := UnmarshalRaw(g, MarshalRaw(g, Signed(g, s, signer).value).value).value;
            && b.issuerURA == s.issuerURA && b.sessionID == s.sessionID && b.calleeURA == s.calleeURA
            && b.subjectURA == s.subjectURA && b.audience == s.audience
            && b.scopes == s.scopes && b.actions == s.actions && b.followups == s.followups
            && b.issuedAt == s.issuedAt && b.expiresAt == s.expiresAt
            && OwnerOf(g, s, b.ownerUserID) && b.creatorID == CreatorOf(s)
            && |b.signature| == 64
  {
    SignedAuthoritySurvivesIff(g, s, signer);
    SignedFieldsAreTheAuthoritys(g, s);
  }

  /** A text that is there and holds no all-zero principal. */
  predicate Named(text: string) {
    Trim(text) != "" && !Contains(Trim(text), "00000000-0000-0000-0000-000000000000")
  }

  predicate Listed(values: seq<string>) {
    values != [] && forall i :: 0 <= i < |values| ==> Trim(values[i]) != ""
  }

  predicate Callable(g: Grammar, ura: string) {
    g.parse(Trim(ura)).Some? && g.parse(Trim(ura)).value.kind in {AgentKind, ServiceKind, AuthorityKind}
  }

  /** What the payload of every signed authority satisfies, and all it has to satisfy beside
      its subject's binding: the parties are named, the lists filled, the callee callable, the
      audience everyone, a realm or a callable, and the lifetime positive. */
  lemma PayloadChecksIff(g: Grammar, p: Payload)
    ensures PayloadChecks(g, p) <==>
              && Named(p.issuerURA) && Named(p.ownerUserID) && Named(p.creatorID) && Named(p.calleeURA)
              && Named(p.subjectURA) && Named(p.audience) && Trim(p.sessionID) != ""
              && Listed(p.scopes) && Listed(p.actions) && Listed(p.followups)
              && Callable(g, p.calleeURA)
              && (Trim(p.audience) == "*" ||
                  ("easynet:///r/" <= Trim(p.audience) && Trim(p.audience)[|Trim(p.audience)| - 1] == '/') ||
                  Callable(g, p.audience))
              && p.issuedAt < p.expiresAt
              && SubjectBinds(g, p.subjectURA, p.ownerUserID, p.sessionID, p.followups)
  {
    TrimIdempotent(p.audience);
    var audience := Trim(p.audience);
    assert "easynet:///r/" <= audience ==> |audience| >= 13;
    assert audience != "" ==> (HasSuffix(audience, "/") <==> audience[|audience| - 1] == '/') by {
      if audience != "" { assert audience[|audience| - 1..] == [audience[|audience| - 1]]; }
    }
    assert AllZero(p.issuerURA) == Contains(Trim(p.issuerURA), "00000000-0000-0000-0000-000000000000");
  }

  /** An authority can be signed if and only if its owner's and creator's names agree and the
      payload made of them passes the checks. */
  lemma SignableIff(g: Grammar, s: Session)
    ensures CanonicalPayload(g, s).Some? <==>
              && Normalize(g, s).Some? && PayloadChecks(g, PayloadOf(Normalize(g, s).value))
              && !AllZero(Normalize(g, s).value.ownerURA) && !AllZero(Normalize(g, s).value.creatorURA)
  {
    NormalizeIgnoresSignature(g, s, Shape(s).signature);
    assert Shape(s) == s.(signature := Shape(s).signature);
    if Normalize(g, s).Some? {
      NormalFormValidatesIff(g, Shape(s));
      assert PayloadOf(Normalize(g, Shape(s)).value) == PayloadOf(Normalize(g, s).value);
    }
  }

  /** The names agree: a URA that is given or derived belongs to a user, to the one given if
      there is one; a creator URA parses and is the creator id if there is one. */
  lemma NamesAgreeIff(g: Grammar, s: Session)
    ensures var ura := if Blank(s.ownerURA) then OwnerFromSubject(g, s.subjectURA, s.ownerUserID) else Trim(s.ownerURA);
            Normalize(g, s).Some? <==>
              && (ura != "" ==> UserIDOf(g, ura).Some? && (Blank(s.ownerUserID) || UserIDOf(g, ura).value == Trim(s.ownerUserID)))
              && (!Blank(s.creatorURA) ==>
                    g.parse(Trim(s.creatorURA)).Some? && (Blank(s.creatorID) || Trim(s.creatorID) == Trim(s.creatorURA)))
  {
    TrimIdempotent(s.ownerUserID);
  }

  predicate CanonicalChars(id: string) {
    forall i :: 0 <= i < |id| ==>
      'a' <= id[i] <= 'z' || 'A' <= id[i] <= 'Z' || '0' <= id[i] <= '9' || id[i] == '-' || id[i] == '.'
  }

  /** What a resource's path binds a session to: a session segment to its id, an ability
      segment to the follow-ups, any other path to nothing, and no path is no subject. */
  predicate PathBinds(path: string, owned: bool, sessionID: string, followups: seq<string>) {
    && path != ""
    && (owned && Segment(path, "session/").Some? ==> Segment(path, "session/").value == Trim(sessionID))
    && (owned && Segment(path, "session/").None? && Segment(path, "invoke/").Some? ==>
          exists i :: 0 <= i < |followups| && Trim(followups[i]) == Trim(Segment(path, "invoke/").value))
  }

  lemma SegmentsAreNotEmpty(path: string)
    ensures Segment(path, "session/").Some? || Segment(path, "invoke/").Some? ==> path != ""
  {
    assert HasPrefix(path, "session/") ==> |path| >= 8;
    assert HasPrefix(path, "invoke/") ==> |path| >= 7;
  }

  /** Exactly which subjects bind an owner and a session: the owner as a User, an Agent of the
      owner or of nobody, a resource of the owner or of no user whose path does not claim
      another session or a foreign ability. */
  lemma SubjectBindsIff(g: Grammar, subjectURA: string, owner: string, sessionID: string, followups: seq<string>)
    ensures var parts := g.parse(Trim(subjectURA));
            SubjectBinds(g, subjectURA, owner, sessionID, followups) <==>
              && Trim(sessionID) != "" && CanonicalChars(Trim(sessionID)) && parts.Some?
              && match parts.value.kind
                 case UserKind => Trim(parts.value.userID) != "" && Trim(parts.value.userID) == Trim(owner)
                 case AgentKind => Trim(parts.value.userID) == "" || Trim(parts.value.userID) == Trim(owner)
                 case ResourceKind =>
                   var ownerID := Trim(parts.value.ownerID);
                   var owned := "user." <= ownerID;
                   && (owned ==> ownerID[5..] == Trim(owner) != "" && '.' !in Trim(owner) && '/' !in Trim(owner))
                   && PathBinds(Trim(parts.value.path), owned, sessionID, followups)
                 case _ => false
  {
    if g.parse(Trim(subjectURA)).Some? { SegmentsAreNotEmpty(Trim(g.parse(Trim(subjectURA)).value.path)); }
  }

  /** The owner's URA as the subject tells it: a User subject's own text, the User URA of a
      resource's owner in its realm, and nothing otherwise. */
  lemma DerivedOwnerIs(g: Grammar, subjectURA: string, owner: string)
    ensures var subject := Trim(subjectURA);
            var parts := g.parse(subject);
            var derived := OwnerFromSubject(g, subjectURA, owner);
            && (!Blank(owner) && parts.Some? && parts.value.kind == UserKind && parts.value.userID == Trim(owner) ==>
                  derived == parts.value.raw)
            && (!Blank(owner) && OwnedBy(g, subject, Trim(owner)) ==> derived == g.userURA(parts.value.realm, Trim(owner)))
            && (derived != "" ==>
                  && !Blank(owner) && parts.Some?
                  && (OwnedBy(g, subject, Trim(owner)) ||
                      (parts.value.kind == UserKind && parts.value.userID == Trim(owner))))
  {
  }

  // ------------------------------------------------------- the smallest example

  lemma {:induction false} TooShortToContain(s: string, part: string)
    requires |s| < |part|
    ensures !Contains(s, part)
    decreases |s|
  {
    if s != "" { TooShortToContain(s[1..], part); }
  }

  lemma OneLetter(c: char)
    requires !IsSpace(c)
    ensures Trim([c]) == [c] && !Blank([c]) && !AllZero([c])
  {
    TrimTrims([c]);
    TooShortToContain([c], ALL_ZERO_PRINCIPAL);
  }

  /** `u` is the User `u`, `q` a resource that `u` owns, any other text an Agent. */
  function SmallParts(x: string): Option<Parts> {
    Some(Parts(x, "r", if x == "u" then UserKind else if x == "q" then ResourceKind else AgentKind,
               if x == "u" then "u" else "", if x == "q" then "user.u" else "", "p"))
  }

  /** The grammar that builds `built` as every User URA. */
  function Small(built: string): Grammar {
    Grammar(SmallParts, (realm: string, user: string) => built, "easynet:")
  }

  /** About the resource `q`, naming its owner's URA or not. */
  function About(ownerURA: string): Session {
    Session("i", "s", "u", ownerURA, "c", "", "a", "q", "a", ["x"], ["x"], ["x"], 0, 1, [])
  }

  lemma OwnedByU()
    ensures Trim("user.u") == "user.u"
    ensures forall built :: OwnedBy(Small(built), "q", "u")
    ensures forall built :: OwnerFromSubject(Small(built), "q", "u") == built
    ensures forall built :: SubjectOf(Small(built), "q") == Some(Whole("u"))
  {
    OneLetter('q'); OneLetter('u'); OneLetter('p');
    TrimTrims("user.u");
    assert "user.u"[5..] == "u" && "user." + "u" == "user.u";
    assert !HasPrefix("p", "session/") && !HasPrefix("p", "invoke/");
  }

  lemma SmallPayload(built: string, ownerURA: string)
    ensures PayloadChecks(Small(built), PayloadOf(About(ownerURA)))
  {
    OneLetter('i'); OneLetter('s'); OneLetter('u'); OneLetter('c'); OneLetter('a'); OneLetter('x'); OneLetter('q');
    assert ["x"][0] == "x";
    OwnedByU();
  }

  /** Both ways of naming the owner normalise where `u` or `built` is the User `u`. */
  lemma SmallNormalForm(built: string, ownerURA: string)
    requires ownerURA == "u" || (ownerURA == "" && Trim(built) == "u")
    ensures Normalize(Small(built), Shape(About(ownerURA))) ==
            Some(Shape(About(ownerURA)).(ownerURA := if ownerURA == "" then built else "u"))
  {
    OneLetter('u'); OneLetter('c');
    OwnedByU();
    assert Trim("") == "";
    assert UserIDOf(Small(built), "u") == Some("u");
  }

  lemma SmallIsSignable(built: string, ownerURA: string)
    requires ownerURA == "u" || (ownerURA == "" && Trim(built) == "u")
    ensures CanonicalPayload(Small(built), About(ownerURA)) == Some(PayloadOf(About(ownerURA)))
  {
    OneLetter('u');
    SmallPayload(built, ownerURA);
    SmallNormalForm(built, ownerURA);
    NothingIsAllZero();
    var n := Normalize(Small(built), Shape(About(ownerURA))).value;
    assert PayloadOf(n) == PayloadOf(About(ownerURA));
    TooShortToContain(Trim(n.ownerURA), ALL_ZERO_PRINCIPAL);
    NormalFormValidatesIff(Small(built), Shape(About(ownerURA)));
  }

  lemma SmallIsCanonical()
    ensures Canonical(Small("u"))
  {
    OneLetter('u');
    OwnedByU();
    var g := Small("u");
    assert UserIDOf(g, "u") == Some("u");
    forall x, user | OwnedBy(g, x, user) ensures user == "u" {
      assert x == "q";
      assert ("user." + user)[5..] == user && "user.u"[5..] == "u";
    }
  }

  /** The theorems above speak of something: under a canonical grammar there is a user-owned
      resource and an authority about it that can be signed, and it survives. */
  lemma SomeAuthorityIsSignable()
    ensures Canonical(Small("u")) && OwnedBy(Small("u"), "q", "u")
    ensures CanonicalPayload(Small("u"), About("")) == Some(PayloadOf(About("")))
  {
    OwnedByU();
    SmallIsCanonical();
    assert Trim("u") == "u" by { OneLetter('u'); }
    SmallIsSignable("u", "");
  }

  /** Where the grammar builds User URAs with a leading blank, normalising again removes it. */
  lemma SecondNormalisationDiffers()
    ensures var g := Small(" u");
            var n := Normalize(g, Shape(About("")));
            n.Some? && Normalize(g, n.value) != n
  {
    OneLetter('u');
    OwnedByU();
    assert TrimLeft(" u") == TrimLeft("u") == "u";
    SmallNormalForm(" u", "");
    NormalizeIsIdempotentIff(Small(" u"), Shape(About("")));
  }

  /** Where it builds something that is no User URA, an authority that named its owner is
      signed and cannot be unmarshalled. */
  lemma NamedOwnerIsNotRecovered(signature: seq<byte>)
    requires signature != []
    ensures var g := Small("a");
            var p := CanonicalPayload(g, About("u"));
            && p.Some? && !OwnerRecoverable(g, p.value.subjectURA, p.value.ownerUserID)
            && UnmarshalRaw(g, Raw(p.value, signature)).None?
  {
    OneLetter('a'); OneLetter('u');
    OwnedByU();
    SmallIsSignable("a", "u");
    UnmarshalledValidatesIff(Small("a"), About("u"), signature);
  }

  // ------------------------------------------------------------------- object

  class SessionAuthority {
    var authority: Session
    var metadataValue: string

    constructor (authority: Session)
      ensures this.authority == authority && metadataValue == ""
    {
      this.authority := authority;
      metadataValue := "";
    }

    /** A refused signature leaves the authority as it was; an accepted one is over the
        payload that the signed authority still has. */
    method SignWith(g: Grammar, signer: Signer) returns (ok: bool)
      modifies this
      ensures ok <==> Signed(g, old(authority), signer).Some?
      ensures ok ==> authority == Signed(g, old(authority), signer).value && metadataValue == ""
      ensures ok ==> CanonicalPayload(g, authority) == CanonicalPayload(g, old(authority))
      ensures ok ==> CanonicalPayload(g, authority).Some?
      ensures ok ==> signer(CanonicalPayload(g, authority).value) == Some(authority.signature)
      ensures !ok ==> authority == old(authority) && metadataValue == old(metadataValue)
    {
      var payload := CanonicalPayload(g, authority);
      ok := false;
      if payload.Some? {
        var signature := signer(payload.value);
        if signature.Some? && |signature.value| == ED25519_SIGNATURE_SIZE {
          PayloadIgnoresSignature(g, authority, signature.value);
          authority := authority.(signature := signature.value);
          metadataValue := "";
          ok := true;
        }
      }
    }
  }
}
