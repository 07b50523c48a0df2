/** The canonical JSON form of an action, its digest, and the decoder of stored actions. */
module Canonical {
  import opened Actions
  import opened Ascending
  import opened Clock
  import opened Digits
  import opened Evidence
  import opened Json
  import opened Parameters
  import opened Principals
  import opened Results
  import opened Text

  const SCHEMA_V1 := "agent-action-control/action-digest/v1"

  // ---------------------------------------------------------------- encoding

  function PrincipalTree(p: Principal): Json {
    Obj([Field("type", Str(p.typ)), Field("id", Str(p.id))])
  }

  /** An `omitempty` field. */
  function Optional(name: string, value: string): seq<Field> {
    if value == "" then [] else [Field(name, Str(value))]
  }

  function ScopeTree(s: Scope): Json {
    Obj([Field("actionType", Str(s.actionType))]
        + Optional("destinationScope", s.destinationScope)
        + Optional("requestedScope", s.requestedScope)
        + Optional("deleteMode", s.deleteMode))
  }

  function EvidenceTree(e: Evidence): Json {
    Obj([Field("type", Str(e.typ)), Field("evidenceId", Str(e.id)),
         Field("issuedBy", PrincipalTree(e.issuedBy)), Field("scope", ScopeTree(e.scope))])
  }

  function ParametersTree(p: Parameters): Json {
    match p
    case ExternalSend(scope, recipients) =>
      Obj([Field("destinationScope", Str(scope)), Field("recipients", Strings(recipients))])
    case UpdateAccess(current, requested, targets) =>
      Obj([Field("currentScope", Str(current)), Field("requestedScope", Str(requested)),
           Field("targetPrincipals", ArrayOf(PrincipalTree, targets))])
    case Delete(mode, recoverable) =>
      Obj([Field("deleteMode", Str(mode)), Field("recoverable", Bool(recoverable))])
  }

  function ActorTree(a: Actor): Json {
    Obj([Field("agentId", Str(a.agentId)), Field("runtimeId", Str(a.runtimeId)), Field("sessionId", Str(a.sessionId))])
  }

  function DelegationTree(d: Delegation): Json {
    Obj([Field("id", Str(d.id)), Field("delegator", PrincipalTree(d.delegator))])
  }

  function TargetTree(t: Target): Json {
    Obj([Field("resourceType", Str(t.resourceType)), Field("resourceId", Str(t.resourceId))])
  }

  function SizeTree(size: Option<Int64>): Json { if size.Some? then Num(size.value) else Null }

  function PayloadTree(p: Payload): Json {
    Obj([Field("digest", Str(p.digest)), Field("classification", Strings(p.classification)),
         Field("sizeBytes", SizeTree(p.sizeBytes))])
  }

  function ActionFields(a: Action): (fs: seq<Field>)
    ensures |fs| == 9
  {
    [Field("schema", Str(SCHEMA_V1)), Field("type", Str(a.typ)),
     Field("requestedAt", Str(CanonicalTime(a.requestedAt))),
     Field("actor", ActorTree(a.actor)), Field("delegation", DelegationTree(a.delegation)),
     Field("target", TargetTree(a.target)), Field("parameters", ParametersTree(a.parameters)),
     Field("payload", PayloadTree(a.payload)), Field("authorizationEvidence", ArrayOf(EvidenceTree, a.evidence))]
  }

  function ActionTree(a: Action): Json { Obj(ActionFields(a)) }

  /** `CanonicalActionBytes`: the action is constructed again and then printed. */
  function CanonicalText(a: Action): Result<string> {
    var normalized :- NewProposedAction(a);
    Ok(Render(ActionTree(normalized)))
  }

  /** `ComputeActionDigest`. */
  function ComputeDigest(sha: Hash, a: Action): (r: Result<string>)
    ensures r.Ok? ==> ValidDigest(r.value)
  {
    var text :- CanonicalText(a);
    Ok(DigestText(sha(text)))
  }

  // ---------------------------------------------------------------- decoding

  function DecodePrincipal(j: Json): Result<Principal> {
    var fields :- AsObject(j);
    var typ :- AsString(Get(fields, "type"));
    var id :- AsString(Get(fields, "id"));
    NewPrincipal(typ, id)
  }

  function DecodeScope(j: Json): Result<Scope> {
    var fields :- AsObject(j);
    var actionType :- AsString(Get(fields, "actionType"));
    var destination :- AsString(Get(fields, "destinationScope"));
    var requested :- AsString(Get(fields, "requestedScope"));
    var mode :- AsString(Get(fields, "deleteMode"));
    NewScope(actionType, destination, requested, mode)
  }

  function DecodeEvidence(j: Json): Result<Evidence> {
    var fields :- AsObject(j);
    var typ :- AsString(Get(fields, "type"));
    var id :- AsString(Get(fields, "evidenceId"));
    var issuer :- DecodePrincipal(Get(fields, "issuedBy"));
    var scope :- DecodeScope(Get(fields, "scope"));
    var typ :- ParseEvidenceType(typ);
    NewEvidence(typ, id, issuer, scope)
  }

  function DecodeParameters(typ: string, j: Json): Result<Parameters> {
    var fields :- AsObject(j);
    if typ == EXTERNAL_SEND then
      var scope :- AsString(Get(fields, "destinationScope"));
      var recipients :- DecodeArray(AsString, Get(fields, "recipients"));
      NewExternalSend(scope, recipients)
    else if typ == UPDATE_RESOURCE_ACCESS then
      var current :- AsString(Get(fields, "currentScope"));
      var requested :- AsString(Get(fields, "requestedScope"));
      var targets :- DecodeArray(DecodePrincipal, Get(fields, "targetPrincipals"));
      NewUpdateAccess(current, requested, targets)
    else if typ == DELETE then
      var mode :- AsString(Get(fields, "deleteMode"));
      var recoverable :- AsBool(Get(fields, "recoverable"));
      NewDelete(mode, recoverable)
    else Err(InvalidActionType)
  }

  function DecodeActor(j: Json): Result<Actor> {
    var fields :- AsObject(j);
    var agentId :- AsString(Get(fields, "agentId"));
    var runtimeId :- AsString(Get(fields, "runtimeId"));
    var sessionId :- AsString(Get(fields, "sessionId"));
    NewActor(agentId, runtimeId, sessionId)
  }

  function DecodeDelegation(j: Json): Result<Delegation> {
    var fields :- AsObject(j);
    var id :- AsString(Get(fields, "id"));
    var delegator :- DecodePrincipal(Get(fields, "delegator"));
    NewDelegation(id, delegator)
  }

  function DecodeTarget(j: Json): Result<Target> {
    var fields :- AsObject(j);
    var typ :- AsString(Get(fields, "resourceType"));
    var id :- AsString(Get(fields, "resourceId"));
    NewTarget(typ, id)
  }

  function AsSize(j: Json): Result<Option<Int64>> {
    match j
    case Null => Ok(None)
    case Num(n) =>
      if -0x8000_0000_0000_0000 <= n < 0x8000_0000_0000_0000 then Ok(Some(n)) else Err(Malformed)
    case _ => Err(Malformed)
  }

  function DecodePayload(j: Json): Result<Payload> {
    var fields :- AsObject(j);
    var digest :- AsString(Get(fields, "digest"));
    var labels :- DecodeArray(AsString, Get(fields, "classification"));
    var size :- AsSize(Get(fields, "sizeBytes"));
    var digest :- ParseDigest(digest);
    NewPayload(digest, labels, size)
  }

  function DecodeTime(j: Json): Result<Time> {
    var text :- AsString(j);
    match ParseTime(text) case Some(t) => Ok(t) case None => Err(Malformed)
  }

  function DecodeTree(j: Json): Result<Action> {
    var fields :- AsObject(j);
    var schema :- AsString(Get(fields, "schema"));
    if schema != SCHEMA_V1 then Err(Malformed)
    else
      var typ :- AsString(Get(fields, "type"));
      var requestedAt :- DecodeTime(Get(fields, "requestedAt"));
      var actor :- DecodeActor(Get(fields, "actor"));
      var delegation :- DecodeDelegation(Get(fields, "delegation"));
      var target :- DecodeTarget(Get(fields, "target"));
      var parameters :- DecodeParameters(typ, Get(fields, "parameters"));
      var payload :- DecodePayload(Get(fields, "payload"));
      var evidence :- DecodeArray(DecodeEvidence, Get(fields, "authorizationEvidence"));
      NewProposedAction(Action(typ, requestedAt, actor, delegation, target, parameters, payload, evidence))
  }

  /** `decodeAction`: stored text back to an action, through the same constructors. */
  function DecodeAction(text: string): Result<Action> {
    match Parse(text) case Fail => Err(Malformed) case Done(j, _) => DecodeTree(j)
  }

  // ---------------------------------------------------------------- round trip of the parts

  lemma PrincipalDecodes(p: Principal)
    requires NormalPrincipal(p)
    ensures DecodePrincipal(PrincipalTree(p)) == Ok(p)
  {
    hide NewPrincipal, NormalPrincipal, Get;
    var fields := PrincipalTree(p).fields;
    GetOfTwo(fields[0], fields[1], "type");
    GetOfTwo(fields[0], fields[1], "id");
  }

  lemma ScopeDecodes(s: Scope)
    requires NormalScope(s)
    ensures DecodeScope(ScopeTree(s)) == Ok(s)
  {
    hide NewScope, Get, ByteLen, Upper;
    ScopeFields(s);
  }

  lemma ScopeFields(s: Scope)
    requires NormalScope(s)
    ensures var fields := ScopeTree(s).fields;
            && AsString(Get(fields, "actionType")) == Ok(s.actionType)
            && AsString(Get(fields, "destinationScope")) == Ok(s.destinationScope)
            && AsString(Get(fields, "requestedScope")) == Ok(s.requestedScope)
            && AsString(Get(fields, "deleteMode")) == Ok(s.deleteMode)
  {
    hide Get, NormalAccessScope, ValidDestination, ValidDeleteMode;
    var fields := ScopeTree(s).fields;
    assert |fields| == 2 && fields == [fields[0], fields[1]] by { OneDimension(s); }
    GetOfTwo(fields[0], fields[1], "actionType");
    GetOfTwo(fields[0], fields[1], "destinationScope");
    GetOfTwo(fields[0], fields[1], "requestedScope");
    GetOfTwo(fields[0], fields[1], "deleteMode");
    OneDimension(s);
  }

  /** Exactly one dimension of a normal scope is written. */
  lemma OneDimension(s: Scope)
    requires NormalScope(s)
    ensures var fields := ScopeTree(s).fields;
            && |fields| == 2 && fields[0] == Field("actionType", Str(s.actionType))
            && (s.destinationScope != "" ==> fields[1] == Field("destinationScope", Str(s.destinationScope)))
            && (s.requestedScope != "" ==> fields[1] == Field("requestedScope", Str(s.requestedScope)))
            && (s.deleteMode != "" ==> fields[1] == Field("deleteMode", Str(s.deleteMode)))
            && (s.destinationScope != "" || s.requestedScope != "" || s.deleteMode != "")
  {
    hide Trimmed, Upper, ByteLen;
  }

  lemma EvidenceFieldValues(e: Evidence)
    ensures var fields := EvidenceTree(e).fields;
            && Get(fields, "type") == Str(e.typ)
            && Get(fields, "evidenceId") == Str(e.id)
            && Get(fields, "issuedBy") == PrincipalTree(e.issuedBy)
            && Get(fields, "scope") == ScopeTree(e.scope)
  {
    hide PrincipalTree, ScopeTree, Get;
    var fields := EvidenceTree(e).fields;
    EvidenceNames(e);
    GetField(fields, 0);
    GetField(fields, 1);
    GetField(fields, 2);
    GetField(fields, 3);
  }

  lemma EvidenceNames(e: Evidence)
    ensures DistinctNames(EvidenceTree(e).fields)
  {
    hide PrincipalTree, ScopeTree;
  }

  lemma ActorFieldValues(a: Actor)
    ensures var fields := ActorTree(a).fields;
            && Get(fields, "agentId") == Str(a.agentId)
            && Get(fields, "runtimeId") == Str(a.runtimeId)
            && Get(fields, "sessionId") == Str(a.sessionId)
  {
    hide Get;
    var fields := ActorTree(a).fields;
    assert DistinctNames(fields);
    GetField(fields, 0);
    GetField(fields, 1);
    GetField(fields, 2);
  }

  lemma DelegationDecodes(d: Delegation)
    requires NormalDelegation(d)
    ensures DecodeDelegation(DelegationTree(d)) == Ok(d)
  {
    hide NewDelegation, NormalIdentifier, NormalPrincipal, PrincipalTree, DecodePrincipal, Get;
    var fields := DelegationTree(d).fields;
    assert DistinctNames(fields);
    GetField(fields, 0);
    GetField(fields, 1);
    PrincipalDecodes(d.delegator);
  }

  lemma TargetDecodes(t: Target)
    requires NormalTarget(t)
    ensures DecodeTarget(TargetTree(t)) == Ok(t)
  {
    hide NewTarget, NormalTarget, Get;
    var fields := TargetTree(t).fields;
    assert DistinctNames(fields);
    GetField(fields, 0);
    GetField(fields, 1);
  }

  lemma PayloadDecodes(p: Payload)
    requires NormalPayload(p)
    ensures DecodePayload(PayloadTree(p)) == Ok(p)
  {
    hide NewPayload, ValidDigest, NormalStringSet, Get, DecodeArray, Strings;
    var fields := PayloadTree(p).fields;
    assert DistinctNames(fields);
    GetField(fields, 0);
    GetField(fields, 1);
    GetField(fields, 2);
    StringsRoundTrip(p.classification);
    PayloadNormal(p.digest, p.classification, p.sizeBytes);
  }

  lemma ParametersDecode(p: Parameters)
    requires NormalParameters(p)
    ensures DecodeParameters(ActionTypeOf(p), ParametersTree(p)) == Ok(p)
  {
    hide NewExternalSend, NewUpdateAccess, NewDelete, Get, DecodeArray, Strings, IsAscending, NormalStringSet;
    hide NormalAccessScope, ValidDestination, ValidDeleteMode, PrincipalTree, DecodePrincipal, NormalPrincipal;
    RebuildIdentity(p);
    var fields := ParametersTree(p).fields;
    assert DistinctNames(fields);
    GetField(fields, 0);
    GetField(fields, 1);
    match p
    case ExternalSend(_, recipients) => StringsRoundTrip(recipients);
    case UpdateAccess(_, _, targets) =>
      GetField(fields, 2);
      forall i | 0 <= i < |targets| ensures DecodePrincipal(PrincipalTree(targets[i])) == Ok(targets[i]) {
        PrincipalDecodes(targets[i]);
      }
      ArrayRoundTrip(PrincipalTree, DecodePrincipal, targets);
    case Delete(_, _) =>
  }

  // ---------------------------------------------------------------- round trip of actions

  lemma ActionNames(a: Action)
    ensures DistinctNames(ActionFields(a))
  {
    hide ActorTree, DelegationTree, TargetTree, ParametersTree, PayloadTree, EvidenceTree, CanonicalTime;
  }

  lemma ActionFieldValues(a: Action)
    ensures var fs := ActionFields(a);
            && Get(fs, "schema") == Str(SCHEMA_V1) && Get(fs, "type") == Str(a.typ)
            && Get(fs, "requestedAt") == Str(CanonicalTime(a.requestedAt))
            && Get(fs, "actor") == ActorTree(a.actor) && Get(fs, "delegation") == DelegationTree(a.delegation)
            && Get(fs, "target") == TargetTree(a.target) && Get(fs, "parameters") == ParametersTree(a.parameters)
            && Get(fs, "payload") == PayloadTree(a.payload)
            && Get(fs, "authorizationEvidence") == ArrayOf(EvidenceTree, a.evidence)
  {
    hide ActorTree, DelegationTree, TargetTree, ParametersTree, PayloadTree, EvidenceTree;
    hide CanonicalTime, Get, ArrayOf, DistinctNames;
    var fs := ActionFields(a);
    ActionNames(a);
    GetField(fs, 0);
    GetField(fs, 1);
    GetField(fs, 2);
    GetField(fs, 3);
    GetField(fs, 4);
    GetField(fs, 5);
    GetField(fs, 6);
    GetField(fs, 7);
    GetField(fs, 8);
  }

  lemma TreeRoundTrip(a: Action)
    requires NormalAction(a)
    ensures FourDigitYear(a.requestedAt) ==> DecodeTree(ActionTree(a)) == Ok(a)
    ensures !FourDigitYear(a.requestedAt) ==> DecodeTree(ActionTree(a)).Err?
  {
    hide NormalAction, NewEvidence, ParseEvidenceType, DecodePrincipal, DecodeScope, PrincipalTree;
    hide ScopeTree, ValidEvidenceType;
    hide NormalIdentifier, NormalPrincipal, NormalScope;
    hide DelegationTree, TargetTree, ParametersTree, PayloadTree, CanonicalTime, Get, ArrayOf;
    hide NewActor, DecodeDelegation, DecodeTarget, DecodeParameters, DecodePayload, DecodeArray, ParseTime;
    hide ValidActionType, NewProposedAction, NormalActor, NormalDelegation, NormalTarget;
    hide NormalParameters, NormalPayload;
    hide ActionTypeOf, IsAscending, ActionFields;
    ActionParts(a);
    ActionFieldValues(a);
    TimeRoundTrip(a.requestedAt);
    ActorFieldValues(a.actor);
    ActorNormal(a.actor.agentId, a.actor.runtimeId, a.actor.sessionId);
    assert DecodeActor(ActorTree(a.actor)) == Ok(a.actor);
    DelegationDecodes(a.delegation);
    TargetDecodes(a.target);
    ParametersDecode(a.parameters);
    PayloadDecodes(a.payload);
    forall i | 0 <= i < |a.evidence| ensures DecodeEvidence(EvidenceTree(a.evidence[i])) == Ok(a.evidence[i]) {
      EvidenceFieldValues(a.evidence[i]);
      PrincipalDecodes(a.evidence[i].issuedBy);
      ScopeDecodes(a.evidence[i].scope);
    }
    ArrayRoundTrip(EvidenceTree, DecodeEvidence, a.evidence);
    NormalActionFixed(a);
  }

  /** Round trip: decoding the canonical text of a normal action gives the action back
      exactly when the UTC year of its request time is in 0..9999; outside that range the
      text the ledger stores can never be decoded again. */
  lemma CanonicalRoundTrip(a: Action)
    requires NormalAction(a)
    ensures CanonicalText(a) == Ok(Render(ActionTree(a)))
    ensures FourDigitYear(a.requestedAt) ==> DecodeAction(CanonicalText(a).value) == Ok(a)
    ensures !FourDigitYear(a.requestedAt) ==> DecodeAction(CanonicalText(a).value).Err?
  {
    hide NewProposedAction, ActionTree, DecodeTree, Render, Parse, NormalAction;
    NormalActionFixed(a);
    RoundTrip(ActionTree(a));
    TreeRoundTrip(a);
  }

  /** Injectivity: the canonical text determines the action, whatever its year. */
  lemma CanonicalInjective(a: Action, b: Action)
    requires NormalAction(a) && NormalAction(b) && CanonicalText(a) == CanonicalText(b)
    ensures a == b
  {
    hide NewProposedAction, DecodeTree, Render, NormalAction, ActionTree, CanonicalTime;
    CanonicalRoundTrip(a);
    CanonicalRoundTrip(b);
    RenderInjective(ActionTree(a), ActionTree(b));
    var t: Time := Instant(2000, 1, 1, 0, 0, 0, 0);
    var a', b' := a.(requestedAt := t), b.(requestedAt := t);
    Retimed(a, t);
    Retimed(b, t);
    SameTreeRetimed(a, b, t);
    TreeRoundTrip(a');
    TreeRoundTrip(b');
    CanonicalTimeInjective(a.requestedAt, b.requestedAt);
  }

  lemma Retimed(a: Action, t: Time)
    requires NormalAction(a) && t != ZERO
    ensures NormalAction(a.(requestedAt := t))
  {
    hide NormalActor, NormalDelegation, NormalTarget, NormalParameters, NormalPayload;
    hide NormalEvidenceSeq, ValidActionType;
  }

  lemma SameTreeRetimed(a: Action, b: Action, t: Time)
    requires ActionTree(a) == ActionTree(b)
    ensures ActionTree(a.(requestedAt := t)) == ActionTree(b.(requestedAt := t))
    ensures CanonicalTime(a.requestedAt) == CanonicalTime(b.requestedAt)
  {
    hide ActorTree, DelegationTree, TargetTree, ParametersTree, PayloadTree, EvidenceTree, CanonicalTime, ArrayOf;
    var fa, fb := ActionFields(a), ActionFields(b);
    assert fa == fb;
    assert fa[0] == fb[0] && fa[1] == fb[1] && fa[2] == fb[2] && fa[3] == fb[3] && fa[4] == fb[4];
    assert fa[5] == fb[5] && fa[6] == fb[6] && fa[7] == fb[7] && fa[8] == fb[8];
  }

  lemma DigestTextInjective(x: Sum, y: Sum)
    requires DigestText(x) == DigestText(y)
    ensures x == y
  {
    assert DigestText(x)[7..] == HexText(x) && DigestText(y)[7..] == HexText(y);
    assert forall i :: 0 <= i < 64 ==> x[i] == HexValue(HexText(x)[i]);
    assert forall i :: 0 <= i < 64 ==> y[i] == HexValue(HexText(y)[i]);
  }

  /** The hypothesis under which equal digests mean equal texts. */
  ghost predicate NoCollision(sha: Hash, x: string, y: string) { sha(x) == sha(y) ==> x == y }

  ghost predicate Separates(sha: Hash, a: Action, b: Action) {
    NoCollision(sha, Render(ActionTree(a)), Render(ActionTree(b)))
  }

  /** The digest binds the action: unless the hash collides on the two canonical texts,
      equal digests mean equal actions. */
  lemma DigestBinds(sha: Hash, a: Action, b: Action)
    requires NormalAction(a) && NormalAction(b)
    requires Separates(sha, a, b)
    ensures ComputeDigest(sha, a).Ok? && ComputeDigest(sha, b).Ok?
    ensures ComputeDigest(sha, a) == ComputeDigest(sha, b) <==> a == b
  {
    hide NewProposedAction, Render, NormalAction, ActionTree, DigestText, CanonicalText;
    CanonicalRoundTrip(a);
    CanonicalRoundTrip(b);
    if ComputeDigest(sha, a) == ComputeDigest(sha, b) {
      DigestTextInjective(sha(CanonicalText(a).value), sha(CanonicalText(b).value));
      CanonicalInjective(a, b);
    }
  }
}
