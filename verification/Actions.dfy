/** Proposed actions: actor, payload facts, digests and the action constructor. */
module Actions {
  import opened Ascending
  import opened Clock
  import opened Digits
  import opened Evidence
  import opened Guards
  import opened Parameters
  import opened Principals
  import opened Results
  import opened Text

  // ---------------------------------------------------------------- digests

  /** A SHA-256 sum as 64 hexadecimal digits. */
  type Sum = ns: seq<nat> | |ns| == 64 && forall i :: 0 <= i < 64 ==> ns[i] < 16 witness seq(64, _ => 0)

  /** SHA-256 over the UTF-8 form of a text; the theorems hold for every such function. */
  type Hash = string -> Sum

  const DIGEST_PREFIX := "sha256:"

  predicate ValidDigest(s: string) {
    |s| == 71 && DIGEST_PREFIX <= s && forall i :: 7 <= i < 71 ==> IsHex(s[i])
  }

  function HexText(sum: Sum): (s: string)
    ensures |s| == 64 && forall i :: 0 <= i < 64 ==> IsHex(s[i]) && HexValue(s[i]) == sum[i]
  {
    seq(64, i requires 0 <= i < 64 => HexDigit(sum[i]))
  }

  /** `"sha256:" + hex(sum)` always has the digest shape. */
  function DigestText(sum: Sum): (s: string)
    ensures ValidDigest(s)
  {
    var h := HexText(sum);
    assert forall i :: 7 <= i < 71 ==> (DIGEST_PREFIX + h)[i] == h[i - 7];
    DIGEST_PREFIX + h
  }

  function ParseDigest(s: string): Result<string> {
    if ValidDigest(s) then Ok(s) else Err(InvalidDigest)
  }

  // ---------------------------------------------------------------- parts

  datatype Actor = Actor(agentId: string, runtimeId: string, sessionId: string)

  function NewActor(agentId: string, runtimeId: string, sessionId: string): Result<Actor> {
    var agentId :- RequiredIdentifier(agentId);
    var runtimeId :- RequiredIdentifier(runtimeId);
    var sessionId :- OptionalIdentifier(sessionId);
    Ok(Actor(agentId, runtimeId, sessionId))
  }

  lemma ActorNormal(agentId: string, runtimeId: string, sessionId: string)
    ensures var r := NewActor(agentId, runtimeId, sessionId);
            && (r.Ok? ==> NormalActor(r.value))
            && (NormalActor(Actor(agentId, runtimeId, sessionId)) ==> r == Ok(Actor(agentId, runtimeId, sessionId)))
            && (r.Ok? && NormalIdentifier(runtimeId) ==> r.value.runtimeId == runtimeId)
  {
    hide RequiredIdentifier, OptionalIdentifier, NormalIdentifier;
  }

  predicate ActorValid(a: Actor) { Trim(a.agentId) != "" && Trim(a.runtimeId) != "" }

  predicate NormalActor(a: Actor) {
    && NormalIdentifier(a.agentId) && NormalIdentifier(a.runtimeId)
    && (a.sessionId == "" || NormalIdentifier(a.sessionId))
  }

  type Int64 = n: int | -0x8000_0000_0000_0000 <= n < 0x8000_0000_0000_0000

  datatype Payload = Payload(digest: string, classification: seq<string>, sizeBytes: Option<Int64>)

  function NewPayload(digest: string, classification: seq<string>, sizeBytes: Option<Int64>): Result<Payload> {
    if !ValidDigest(digest) then Err(InvalidDigest)
    else
      var labels :- NormalStrings(classification, 32, 128);
      if sizeBytes.Some? && sizeBytes.value < 0 then Err(InvalidArgument)
      else Ok(Payload(digest, labels, sizeBytes))
  }

  ghost predicate NormalPayload(p: Payload) {
    && ValidDigest(p.digest)
    && NormalStringSet(p.classification, 32, 128)
    && (p.sizeBytes.Some? ==> p.sizeBytes.value >= 0)
  }

  lemma PayloadNormal(digest: string, classification: seq<string>, sizeBytes: Option<Int64>)
    ensures NewPayload(digest, classification, sizeBytes).Ok? ==>
              NormalPayload(NewPayload(digest, classification, sizeBytes).value)
    ensures var p := Payload(digest, classification, sizeBytes);
            NormalPayload(p) ==> NewPayload(digest, classification, sizeBytes) == Ok(p)
  {
    hide NormalStrings, NormalStringSet, ValidDigest;
    StringSetSemantics(classification, 32, 128);
  }

  // ---------------------------------------------------------------- actions

  datatype Action = Action(
    typ: string, requestedAt: Time, actor: Actor, delegation: Delegation, target: Target,
    parameters: Parameters, payload: Payload, evidence: seq<Evidence>)

  /** `NewProposedAction`: the parts are checked and only the evidence is normalised. */
  function NewProposedAction(a: Action): Result<Action> {
    if !ValidActionType(a.typ) then Err(InvalidActionType)
    else if a.requestedAt == ZERO then Err(InvalidArgument)
    else if !ActorValid(a.actor) || !DelegationValid(a.delegation) || !TargetValid(a.target) then Err(InvalidArgument)
    else if ActionTypeOf(a.parameters) != a.typ then Err(InvalidArgument)
    else
      var _ :- Rebuild(a.parameters);
      if NewPayload(a.payload.digest, a.payload.classification, a.payload.sizeBytes).Err? then Err(InvalidDigest)
      else
        var evidence :- NormalEvidenceSet(a.evidence);
        Ok(a.(evidence := evidence))
  }

  ghost predicate NormalAction(a: Action) {
    forall k: nat {:trigger Opened(OfActions, k)} :: Opened(OfActions, k) ==>
      && ValidActionType(a.typ) && a.requestedAt != ZERO
      && NormalActor(a.actor) && NormalDelegation(a.delegation) && NormalTarget(a.target)
      && ActionTypeOf(a.parameters) == a.typ && NormalParameters(a.parameters)
      && NormalPayload(a.payload) && NormalEvidenceSeq(a.evidence)
  }

  lemma ActionParts(a: Action)
    requires NormalAction(a)
    ensures ValidActionType(a.typ) && a.requestedAt != ZERO
    ensures NormalActor(a.actor) && NormalDelegation(a.delegation) && NormalTarget(a.target)
    ensures ActionTypeOf(a.parameters) == a.typ && NormalParameters(a.parameters)
    ensures NormalPayload(a.payload) && NormalEvidenceSeq(a.evidence)
  {
    hide ValidActionType, NormalActor, NormalDelegation, NormalTarget, NormalParameters;
    hide NormalPayload, NormalEvidenceSeq;
    assert Opened(OfActions, 0);
  }

  /** Idempotence: constructing an action from the parts of a normal action gives it back. */
  lemma NormalActionFixed(a: Action)
    requires NormalAction(a)
    ensures NewProposedAction(a) == Ok(a)
  {
    hide NormalAction, NormalParameters, NormalPayload, Rebuild, NewPayload, NormalEvidenceSet;
    hide IsAscending, Trim, ByteLen;
    hide ValidPrincipalType, NormalEvidence, ValidActionType, Trimmed;
    ActionParts(a);
    RebuildIdentity(a.parameters);
    PayloadNormal(a.payload.digest, a.payload.classification, a.payload.sizeBytes);
    EvidenceSetNormal(a.evidence);
  }
}
