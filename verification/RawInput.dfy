/** Normalisation of raw input, in its own terms: which inputs are accepted, and what action
    each of them becomes. */
module RawInput {
  import opened Actions
  import opened Ascending
  import opened Clock
  import opened Evidence
  import opened Normalizer
  import opened Parameters
  import opened Principals
  import opened Results
  import opened Text

  // ---------------------------------------------------------------- what is accepted and what it means

  /** Tokens are read without outer spaces and without regard to case. */
  function Folded(s: string): string { Upper(Trim(s)) }

  predicate Identifies(s: string) { Trim(s) != "" && ByteLen(Trim(s)) <= 256 }

  predicate PrincipalGiven(p: PrincipalInput) {
    (p.typ == "USER" || p.typ == "AGENT" || p.typ == "RUNTIME" || p.typ == "SERVICE") && Identifies(p.id)
  }

  function PrincipalMeant(p: PrincipalInput): Principal { Principal(p.typ, Trim(p.id)) }

  predicate DestinationGiven(s: string) { Folded(s) == "INTERNAL" || Folded(s) == "EXTERNAL" }

  predicate AccessGiven(s: string) { Folded(s) != "" && ByteLen(Folded(s)) <= 128 }

  predicate ModeGiven(s: string) { Folded(s) == "SOFT" || Folded(s) == "HARD" }

  predicate ScopeGiven(s: ScopeInput) {
    || (s.actionType == EXTERNAL_SEND && DestinationGiven(s.destinationScope))
    || (s.actionType == UPDATE_RESOURCE_ACCESS && AccessGiven(s.requestedScope))
    || (s.actionType == DELETE && ModeGiven(s.deleteMode))
  }

  /** Only the dimension of the scope's own action type counts. */
  function ScopeMeant(s: ScopeInput): Scope {
    if s.actionType == EXTERNAL_SEND then Scope(s.actionType, Folded(s.destinationScope), "", "")
    else if s.actionType == UPDATE_RESOURCE_ACCESS then Scope(s.actionType, "", Folded(s.requestedScope), "")
    else Scope(s.actionType, "", "", Folded(s.deleteMode))
  }

  predicate EvidenceTypeGiven(s: string) {
    Folded(s) == "USER_INSTRUCTION" || Folded(s) == "DELEGATION_GRANT" || Folded(s) == "SYSTEM_ASSERTION"
  }

  predicate EvidenceGiven(e: EvidenceInput) {
    EvidenceTypeGiven(e.typ) && Identifies(e.id) && PrincipalGiven(e.issuedBy) && ScopeGiven(e.scope)
  }

  function EvidenceMeant(e: EvidenceInput): Evidence {
    Evidence(Folded(e.typ), Trim(e.id), PrincipalMeant(e.issuedBy), ScopeMeant(e.scope))
  }

  predicate AllGiven<T>(given: T -> bool, xs: seq<T>) { forall i :: 0 <= i < |xs| ==> given(xs[i]) }

  /** Within the limits: the number of texts and the bytes of each, without outer spaces. */
  predicate TextsGiven(xs: seq<string>, items: nat, length: nat) {
    |xs| <= items && forall i :: 0 <= i < |xs| ==> Trim(xs[i]) != "" && ByteLen(Trim(xs[i])) <= length
  }

  /** No two pieces of evidence share type and identifier but differ otherwise. */
  predicate Consistent(xs: seq<EvidenceInput>) {
    forall i, j :: 0 <= i < |xs| && 0 <= j < |xs|
      && Folded(xs[i].typ) == Folded(xs[j].typ) && Trim(xs[i].id) == Trim(xs[j].id)
      ==> EvidenceMeant(xs[i]) == EvidenceMeant(xs[j])
  }

  predicate ParametersGiven(typ: string, input: Option<ParametersInput>) {
    match input
    case None => false
    case Some(ExternalSendInput(destination, recipients)) =>
      typ == EXTERNAL_SEND && DestinationGiven(destination) && recipients != [] && TextsGiven(recipients, 100, 320)
    case Some(UpdateAccessInput(current, requested, targets)) =>
      && typ == UPDATE_RESOURCE_ACCESS && AccessGiven(current) && AccessGiven(requested)
      && Folded(current) != Folded(requested) && |targets| <= 100 && AllGiven(PrincipalGiven, targets)
      && (Folded(requested) == SHARED ==> targets != [])
    case Some(DeleteInput(mode, _)) => typ == DELETE && ModeGiven(mode)
  }

  /** Lists become sets: ascending, without repetition, with exactly the given elements. */
  ghost predicate ParametersMeant(input: ParametersInput, p: Parameters) {
    match input
    case ExternalSendInput(destination, recipients) =>
      && p.ExternalSend? && p.destinationScope == Folded(destination)
      && IsAscending(Identity, p.recipients) && SameElements(p.recipients, TrimAll(recipients))
    case UpdateAccessInput(current, requested, targets) =>
      && p.UpdateAccess? && p.currentScope == Folded(current) && p.requestedScope == Folded(requested)
      && IsAscending(PrincipalKey, p.targetPrincipals)
      && SameElements(p.targetPrincipals, AllMeant(PrincipalMeant, targets))
    case DeleteInput(mode, recoverable) => p == Delete(Folded(mode), recoverable)
  }

  function AllMeant<A, B>(meant: A -> B, xs: seq<A>): (r: seq<B>)
    ensures |r| == |xs| && forall i :: 0 <= i < |r| ==> r[i] == meant(xs[i])
  {
    seq(|xs|, i requires 0 <= i < |xs| => meant(xs[i]))
  }

  /** The digest shape: "sha256:" and sixty-four lower-case hexadecimal digits. */
  predicate DigestGiven(s: string) {
    && |Trim(s)| == 71 && Trim(s)[..7] == "sha256:"
    && forall i :: 7 <= i < 71 ==> '0' <= Trim(s)[i] <= '9' || 'a' <= Trim(s)[i] <= 'f'
  }

  predicate Acceptable(runtimeId: string, input: ActionInput) {
    && (Trim(input.claimedRuntimeId) == "" || Trim(input.claimedRuntimeId) == runtimeId)
    && input.requestedAt != Instant(1, 1, 1, 0, 0, 0, 0)
    && Identifies(input.agentId) && Identifies(runtimeId) && ByteLen(Trim(input.sessionId)) <= 256
    && PrincipalGiven(input.delegator) && Identifies(input.delegationId)
    && Trim(input.resourceType) != "" && ByteLen(Trim(input.resourceType)) <= 128 && Identifies(input.resourceId)
    && ParametersGiven(input.typ, input.parameters)
    && DigestGiven(input.digest) && TextsGiven(input.classification, 32, 128)
    && (input.sizeBytes.Some? ==> input.sizeBytes.value >= 0)
    && |input.evidence| <= 100 && AllGiven(EvidenceGiven, input.evidence) && Consistent(input.evidence)
  }

  ghost predicate Means(runtimeId: string, input: ActionInput, a: Action) {
    && a.typ == input.typ && a.requestedAt == input.requestedAt
    && a.actor == Actor(Trim(input.agentId), Trim(runtimeId), Trim(input.sessionId))
    && a.delegation == Delegation(Trim(input.delegationId), PrincipalMeant(input.delegator))
    && a.target == Target(Trim(input.resourceType), Trim(input.resourceId))
    && input.parameters.Some? && ParametersMeant(input.parameters.value, a.parameters)
    && a.payload.digest == Trim(input.digest) && a.payload.sizeBytes == input.sizeBytes
    && IsAscending(Identity, a.payload.classification)
    && SameElements(a.payload.classification, TrimAll(input.classification))
    && IsAscending(EvidenceKey, a.evidence) && SameElements(a.evidence, AllMeant(EvidenceMeant, input.evidence))
  }

  // ---------------------------------------------------------------- the parts

  lemma PrincipalExactly(p: PrincipalInput)
    ensures NormalizePrincipal(p).Ok? <==> PrincipalGiven(p)
    ensures NormalizePrincipal(p).Ok? ==> NormalizePrincipal(p) == Ok(PrincipalMeant(p))
  {
    hide Trim, ByteLen, Trimmed;
  }

  lemma DestinationExactly(s: string)
    ensures ParseDestinationScope(s) == if DestinationGiven(s) then Ok(Folded(s)) else Err(InvalidArgument)
  {
    hide Trim, Upper, Trimmed;
  }

  lemma AccessExactly(s: string)
    ensures ParseAccessScope(s) == if AccessGiven(s) then Ok(Folded(s)) else Err(InvalidArgument)
  {
    hide Trim, Upper, ByteLen, Trimmed;
  }

  lemma ModeExactly(s: string)
    ensures ParseDeleteMode(s) == if ModeGiven(s) then Ok(Folded(s)) else Err(InvalidArgument)
  {
    hide Trim, Upper, Trimmed;
  }

  lemma EvidenceTypeExactly(s: string)
    ensures ParseEvidenceType(s).Ok? <==> EvidenceTypeGiven(s)
    ensures ParseEvidenceType(s).Ok? ==> ParseEvidenceType(s) == Ok(Folded(s))
  {
    hide Trim, Upper, Trimmed;
  }

  lemma ScopeExactly(s: ScopeInput)
    ensures NormalizeScope(s).Ok? <==> ScopeGiven(s)
    ensures NormalizeScope(s).Ok? ==> NormalizeScope(s) == Ok(ScopeMeant(s))
  {
    hide NormalizeScope, ScopeGiven, ScopeMeant;
    ActionTypesDiffer();
    if s.actionType == EXTERNAL_SEND {
      SendScope(s);
    } else if s.actionType == UPDATE_RESOURCE_ACCESS {
      UpdateScope(s);
    } else {
      DeleteScope(s);
    }
  }

  lemma SendScope(s: ScopeInput)
    requires s.actionType == EXTERNAL_SEND
    ensures NormalizeScope(s) == if ScopeGiven(s) then Ok(ScopeMeant(s)) else Err(InvalidArgument)
  {
    hide ParseDestinationScope, ParseAccessScope, ParseDeleteMode, DestinationGiven, AccessGiven, ModeGiven, Folded;
    DestinationExactly(s.destinationScope);
    ActionTypesDiffer();
  }

  lemma UpdateScope(s: ScopeInput)
    requires s.actionType == UPDATE_RESOURCE_ACCESS
    ensures NormalizeScope(s) == if ScopeGiven(s) then Ok(ScopeMeant(s)) else Err(InvalidArgument)
  {
    hide ParseDestinationScope, ParseAccessScope, ParseDeleteMode, DestinationGiven, AccessGiven, ModeGiven, Folded;
    AccessExactly(s.requestedScope);
    ActionTypesDiffer();
  }

  lemma DeleteScope(s: ScopeInput)
    requires s.actionType != EXTERNAL_SEND && s.actionType != UPDATE_RESOURCE_ACCESS
    ensures NormalizeScope(s).Ok? <==> ScopeGiven(s)
    ensures NormalizeScope(s).Ok? ==> NormalizeScope(s) == Ok(ScopeMeant(s))
  {
    hide ParseDestinationScope, ParseAccessScope, ParseDeleteMode, DestinationGiven, AccessGiven, ModeGiven, Folded;
    ModeExactly(s.deleteMode);
  }

  lemma OneEvidenceExactly(e: EvidenceInput)
    ensures NormalizeOneEvidence(e).Ok? <==> EvidenceGiven(e)
    ensures NormalizeOneEvidence(e).Ok? ==> NormalizeOneEvidence(e) == Ok(EvidenceMeant(e))
  {
    hide ParseEvidenceType, NormalizePrincipal, NormalizeScope, PrincipalGiven, PrincipalMeant, ScopeGiven, ScopeMeant;
    hide Folded, Trim, ByteLen, Trimmed;
    EvidenceTypeExactly(e.typ);
    PrincipalExactly(e.issuedBy);
    ScopeExactly(e.scope);
    if ParseEvidenceType(e.typ).Ok? && NormalizePrincipal(e.issuedBy).Ok? && NormalizeScope(e.scope).Ok? {
      ScopeIsNormal(e.scope);
      EvidenceFromParts(ParseEvidenceType(e.typ).value, e.id, NormalizePrincipal(e.issuedBy).value,
                        NormalizeScope(e.scope).value);
    }
  }

  lemma ScopeIsNormal(s: ScopeInput)
    ensures NormalizeScope(s).Ok? ==> NormalScope(NormalizeScope(s).value)
  {
    hide ParseDestinationScope, ParseAccessScope, ParseDeleteMode, NewScope, NormalScope;
  }

  lemma EvidenceFromParts(typ: string, id: string, issuer: Principal, scope: Scope)
    requires ValidEvidenceType(typ) && NormalPrincipal(issuer) && NormalScope(scope)
    ensures NewEvidence(typ, id, issuer, scope).Ok? <==> Identifies(id)
    ensures Identifies(id) ==> NewEvidence(typ, id, issuer, scope) == Ok(Evidence(typ, Trim(id), issuer, scope))
  {
    hide ParseEvidenceType, NewScope, ByteLen, Trim, Trimmed, NormalScope, ValidEvidenceType, ValidPrincipalType;
  }

  lemma EvidenceExactly(inputs: seq<EvidenceInput>)
    ensures NormalizeEvidence(inputs).Ok? <==>
              |inputs| <= 100 && AllGiven(EvidenceGiven, inputs) && Consistent(inputs)
    ensures NormalizeEvidence(inputs).Ok? ==>
              && IsAscending(EvidenceKey, NormalizeEvidence(inputs).value)
              && SameElements(NormalizeEvidence(inputs).value, AllMeant(EvidenceMeant, inputs))
  {
    hide NormalizeOneEvidence, EvidenceGiven, EvidenceMeant, Traverse, NormalEvidenceSet, Consistent;
    forall i | 0 <= i < |inputs|
      ensures NormalizeOneEvidence(inputs[i]).Ok? <==> EvidenceGiven(inputs[i])
      ensures NormalizeOneEvidence(inputs[i]).Ok? ==> NormalizeOneEvidence(inputs[i]) == Ok(EvidenceMeant(inputs[i]))
    {
      OneEvidenceExactly(inputs[i]);
    }
    TraverseElements(NormalizeOneEvidence, inputs);
    if AllGiven(EvidenceGiven, inputs) {
      var items := AllMeant(EvidenceMeant, inputs);
      TraverseInverse(NormalizeOneEvidence, inputs, items);
      MeantSet(inputs);
    }
  }

  lemma MeantSet(inputs: seq<EvidenceInput>)
    requires AllGiven(EvidenceGiven, inputs)
    ensures var r := NormalEvidenceSet(AllMeant(EvidenceMeant, inputs));
            && (r.Ok? <==> |inputs| <= 100 && Consistent(inputs))
            && (r.Ok? ==> IsAscending(EvidenceKey, r.value) && SameElements(r.value, AllMeant(EvidenceMeant, inputs)))
  {
    hide EvidenceGiven, EvidenceValid, EvidenceKey, Ascend, IsAscending;
    var items := AllMeant(EvidenceMeant, inputs);
    forall i | 0 <= i < |inputs| ensures EvidenceValid(items[i]) {
      MeantIsValid(inputs[i]);
    }
    assert ConflictingReuse(items) <==> !Consistent(inputs) by { MeantConflict(inputs); }
    if NormalEvidenceSet(items).Ok? { EvidenceSetSemantics(items); }
  }

  lemma MeantConflict(inputs: seq<EvidenceInput>)
    ensures ConflictingReuse(AllMeant(EvidenceMeant, inputs)) <==> !Consistent(inputs)
  {
    hide Trim, Folded, PrincipalMeant, ScopeMeant;
    var items := AllMeant(EvidenceMeant, inputs);
    assert forall i :: 0 <= i < |inputs| ==> items[i].typ == Folded(inputs[i].typ) && items[i].id == Trim(inputs[i].id);
  }

  lemma MeantIsValid(e: EvidenceInput)
    requires EvidenceGiven(e)
    ensures EvidenceValid(EvidenceMeant(e))
  {
    hide EvidenceGiven, EvidenceMeant, EvidenceValid, NormalizeOneEvidence;
    OneEvidenceExactly(e);
    OneEvidenceFromInput(e);
    NormalEvidenceIsValid(EvidenceMeant(e));
  }

  lemma TextsExactly(xs: seq<string>, items: nat, length: nat)
    ensures NormalStrings(xs, items, length).Ok? <==> TextsGiven(xs, items, length)
    ensures NormalStrings(xs, items, length).Ok? ==>
              var r := NormalStrings(xs, items, length).value;
              IsAscending(Identity, r) && SameElements(r, TrimAll(xs)) && (r == [] <==> xs == [])
  {
    hide Trim, ByteLen, Ascend, IsAscending, Trimmed;
    StringSetSemantics(xs, items, length);
  }

  lemma TargetsExactly(targets: seq<PrincipalInput>)
    ensures Traverse(NormalizePrincipal, targets).Ok? <==> AllGiven(PrincipalGiven, targets)
    ensures AllGiven(PrincipalGiven, targets) ==>
              var principals := AllMeant(PrincipalMeant, targets);
              && Traverse(NormalizePrincipal, targets) == Ok(principals)
              && (NormalPrincipals(principals).Ok? <==> |targets| <= 100)
              && (NormalPrincipals(principals).Ok? ==>
                    var r := NormalPrincipals(principals).value;
                    IsAscending(PrincipalKey, r) && SameElements(r, principals) && (r == [] <==> targets == []))
  {
    hide NormalizePrincipal, PrincipalGiven, PrincipalMeant, Traverse, NormalPrincipals, Ascend;
    hide IsAscending, NormalPrincipal;
    forall i | 0 <= i < |targets|
      ensures NormalizePrincipal(targets[i]).Ok? <==> PrincipalGiven(targets[i])
      ensures NormalizePrincipal(targets[i]).Ok? ==> NormalizePrincipal(targets[i]) == Ok(PrincipalMeant(targets[i]))
    {
      PrincipalExactly(targets[i]);
    }
    TraverseElements(NormalizePrincipal, targets);
    if AllGiven(PrincipalGiven, targets) {
      var principals := AllMeant(PrincipalMeant, targets);
      TraverseInverse(NormalizePrincipal, targets, principals);
      forall i | 0 <= i < |principals| ensures NormalPrincipal(principals[i]) {
        assert NormalizePrincipal(targets[i]) == Ok(principals[i]);
      }
      if |targets| <= 100 {
        NormalPrincipalsValid(principals);
        PrincipalSetSemantics(principals);
        if targets != [] { assert principals[0] in principals; }
        if NormalPrincipals(principals).value != [] { assert NormalPrincipals(principals).value[0] in principals; }
      } else {
        TooManyPrincipals(principals);
      }
    }
  }

  // ---------------------------------------------------------------- parameters and payload

  lemma SendExactly(destination: string, recipients: seq<string>)
    ensures var r := NormalizeParameters(EXTERNAL_SEND, Some(ExternalSendInput(destination, recipients)));
            && (r.Ok? <==> DestinationGiven(destination) && recipients != [] && TextsGiven(recipients, 100, 320))
            && (r.Ok? ==> ParametersMeant(ExternalSendInput(destination, recipients), r.value))
  {
    hide ParseDestinationScope, NormalStrings, DestinationGiven, Folded, TextsGiven, IsAscending, ValidDestination;
    hide NewUpdateAccess, NewDelete, SameElements, AllGiven, AccessGiven, ModeGiven, ParseAccessScope, ParseDeleteMode;
    hide NewExternalSend;
    DestinationExactly(destination);
    if DestinationGiven(destination) { NewSendExactly(Folded(destination), recipients); }
  }

  lemma NewSendExactly(destination: string, recipients: seq<string>)
    requires ValidDestination(destination)
    ensures var r := NewExternalSend(destination, recipients);
            && (r.Ok? <==> recipients != [] && TextsGiven(recipients, 100, 320))
            && (r.Ok? ==> r.value.ExternalSend? && r.value.destinationScope == destination
                          && IsAscending(Identity, r.value.recipients)
                          && SameElements(r.value.recipients, TrimAll(recipients)))
  {
    hide ParseDestinationScope, NormalStrings, TextsGiven, IsAscending, ValidDestination, SameElements;
    TextsExactly(recipients, 100, 320);
  }

  lemma UpdateExactly(current: string, requested: string, targets: seq<PrincipalInput>)
    ensures var r := NormalizeParameters(UPDATE_RESOURCE_ACCESS, Some(UpdateAccessInput(current, requested, targets)));
            && (r.Ok? <==> AccessGiven(current) && AccessGiven(requested) && Folded(current) != Folded(requested)
                           && |targets| <= 100 && AllGiven(PrincipalGiven, targets)
                           && (Folded(requested) == SHARED ==> targets != []))
            && (r.Ok? ==> ParametersMeant(UpdateAccessInput(current, requested, targets), r.value))
  {
    hide ParseAccessScope, NormalPrincipals, AccessGiven, Folded, Traverse, IsAscending, AllGiven, NormalAccessScope;
    hide NewExternalSend, NewDelete, SameElements, DestinationGiven, ModeGiven, ParseDestinationScope, ParseDeleteMode;
    hide TextsGiven, NewUpdateAccess;
    AccessExactly(current);
    AccessExactly(requested);
    TargetsExactly(targets);
    if AccessGiven(current) && AccessGiven(requested) && AllGiven(PrincipalGiven, targets) {
      NewUpdateExactly(Folded(current), Folded(requested), targets);
    }
  }

  lemma NewUpdateExactly(current: string, requested: string, targets: seq<PrincipalInput>)
    requires NormalAccessScope(current) && NormalAccessScope(requested) && AllGiven(PrincipalGiven, targets)
    ensures var r := NewUpdateAccess(current, requested, AllMeant(PrincipalMeant, targets));
            && (r.Ok? <==> current != requested && |targets| <= 100 && (requested == SHARED ==> targets != []))
            && (r.Ok? ==> r.value.UpdateAccess?
                          && r.value.currentScope == current && r.value.requestedScope == requested
                          && IsAscending(PrincipalKey, r.value.targetPrincipals)
                          && SameElements(r.value.targetPrincipals, AllMeant(PrincipalMeant, targets)))
  {
    hide ParseAccessScope, NormalPrincipals, IsAscending, NormalAccessScope, SameElements, AllGiven;
    hide Traverse, PrincipalKey;
    TargetsExactly(targets);
  }

  lemma DeleteExactly(mode: string, recoverable: bool)
    ensures var r := NormalizeParameters(DELETE, Some(DeleteInput(mode, recoverable)));
            && (r.Ok? <==> ModeGiven(mode))
            && (r.Ok? ==> ParametersMeant(DeleteInput(mode, recoverable), r.value))
  {
    hide ParseDeleteMode, ModeGiven, Folded, ValidDeleteMode, NewExternalSend, NewUpdateAccess, SameElements, AllGiven;
    hide DestinationGiven, AccessGiven, ParseDestinationScope, ParseAccessScope, TextsGiven, IsAscending;
    ModeExactly(mode);
  }

  lemma ParametersExactly(typ: string, input: Option<ParametersInput>)
    ensures NormalizeParameters(typ, input).Ok? <==> ParametersGiven(typ, input)
    ensures NormalizeParameters(typ, input).Ok? ==>
              input.Some? && ParametersMeant(input.value, NormalizeParameters(typ, input).value)
  {
    hide NormalizeParameters, ParametersMeant, DestinationGiven, AccessGiven, ModeGiven, TextsGiven, AllGiven, Folded;
    TypeMismatch(typ, input);
    match input
    case None =>
    case Some(ExternalSendInput(destination, recipients)) => SendExactly(destination, recipients);
    case Some(UpdateAccessInput(current, requested, targets)) => UpdateExactly(current, requested, targets);
    case Some(DeleteInput(mode, recoverable)) => DeleteExactly(mode, recoverable);
  }

  lemma TypeMismatch(typ: string, input: Option<ParametersInput>)
    ensures NormalizeParameters(typ, input).Ok? ==> input.Some? && ParametersType(input.value) == typ
  {
    hide NewExternalSend, NewUpdateAccess, NewDelete, ParseDestinationScope, ParseAccessScope;
    hide ParseDeleteMode, Traverse;
  }

  lemma DigestExactly(s: string)
    ensures ValidDigest(Trim(s)) <==> DigestGiven(s)
  {
    hide Trim, Trimmed;
    var t := Trim(s);
    if |t| == 71 {
      assert t[..7] == "sha256:" <==> DIGEST_PREFIX <= t;
    }
  }

  lemma PayloadExactly(input: ActionInput)
    ensures var r := NewPayload(Trim(input.digest), input.classification, input.sizeBytes);
            && (r.Ok? <==> DigestGiven(input.digest) && TextsGiven(input.classification, 32, 128)
                           && (input.sizeBytes.Some? ==> input.sizeBytes.value >= 0))
            && (r.Ok? ==> r.value.digest == Trim(input.digest) && r.value.sizeBytes == input.sizeBytes
                          && IsAscending(Identity, r.value.classification)
                          && SameElements(r.value.classification, TrimAll(input.classification)))
  {
    hide ValidDigest, NormalStrings, DigestGiven, TextsGiven, IsAscending, Trim, Trimmed;
    DigestExactly(input.digest);
    TextsExactly(input.classification, 32, 128);
  }

  lemma ActorExactly(agentId: string, runtimeId: string, sessionId: string)
    ensures var r := NewActor(agentId, runtimeId, sessionId);
            && (r.Ok? <==> Identifies(agentId) && Identifies(runtimeId) && ByteLen(Trim(sessionId)) <= 256)
            && (r.Ok? ==> r == Ok(Actor(Trim(agentId), Trim(runtimeId), Trim(sessionId))))
  {
    hide Trim, ByteLen, Trimmed;
  }

  lemma DelegationExactly(id: string, delegator: PrincipalInput)
    requires PrincipalGiven(delegator)
    ensures var r := NewDelegation(id, PrincipalMeant(delegator));
            && (r.Ok? <==> Identifies(id)) && (r.Ok? ==> r == Ok(Delegation(Trim(id), PrincipalMeant(delegator))))
  {
    hide Trim, ByteLen, Trimmed, ValidPrincipalType;
    PrincipalExactly(delegator);
  }

  lemma TargetExactly(resourceType: string, resourceId: string)
    ensures var r := NewTarget(resourceType, resourceId);
            && (r.Ok? <==> Trim(resourceType) != "" && ByteLen(Trim(resourceType)) <= 128 && Identifies(resourceId))
            && (r.Ok? ==> r == Ok(Target(Trim(resourceType), Trim(resourceId))))
  {
    hide Trim, ByteLen, Trimmed;
  }

  // ---------------------------------------------------------------- the whole input

  /** Exactly which inputs are accepted under an authenticated runtime, and what action each of
      them becomes: every field as given, identifiers without outer spaces, tokens folded, lists
      as sets. A claimed runtime other than the authenticated one is refused. */
  lemma NormalizeExactly(runtimeId: string, input: ActionInput)
    requires NormalIdentifier(runtimeId)
    ensures Normalize(runtimeId, input).Ok? <==> Acceptable(runtimeId, input)
    ensures Normalize(runtimeId, input).Ok? ==> Means(runtimeId, input, Normalize(runtimeId, input).value)
  {
    hide NewActor, NormalizePrincipal, NewDelegation, NewTarget, NormalizeParameters, NewPayload, NormalizeEvidence;
    hide ParametersGiven, ParametersMeant, Identifies, PrincipalGiven, PrincipalMeant, DigestGiven;
    hide TextsGiven, AllGiven;
    hide Consistent, EvidenceGiven, EvidenceMeant, ValidDigest, Trim, Trimmed, ByteLen, NewProposedAction, NormalAction;
    hide IsAscending, SameElements, NormalIdentifier, AllMeant;
    OwnIdentifier(runtimeId);
    ActorExactly(input.agentId, runtimeId, input.sessionId);
    PrincipalExactly(input.delegator);
    if PrincipalGiven(input.delegator) { DelegationExactly(input.delegationId, input.delegator); }
    TargetExactly(input.resourceType, input.resourceId);
    ParametersExactly(input.typ, input.parameters);
    PayloadExactly(input);
    DigestExactly(input.digest);
    EvidenceExactly(input.evidence);
    if PartsGiven(runtimeId, input) { AssembledExactly(runtimeId, input); }
  }

  lemma OwnIdentifier(s: string)
    requires NormalIdentifier(s)
    ensures s != "" && Trim(s) == s && Identifies(s)
  {
    hide Trim, ByteLen;
  }

  /** Every part can be built. */
  predicate PartsGiven(runtimeId: string, input: ActionInput) {
    && NewActor(input.agentId, runtimeId, input.sessionId).Ok? && NormalizePrincipal(input.delegator).Ok?
    && NewDelegation(input.delegationId, NormalizePrincipal(input.delegator).value).Ok?
    && NewTarget(input.resourceType, input.resourceId).Ok? && NormalizeParameters(input.typ, input.parameters).Ok?
    && NewPayload(Trim(input.digest), input.classification, input.sizeBytes).Ok?
    && NormalizeEvidence(input.evidence).Ok?
  }

  function Parts(runtimeId: string, input: ActionInput): Action
    requires PartsGiven(runtimeId, input)
  {
    Action(
      input.typ, input.requestedAt, NewActor(input.agentId, runtimeId, input.sessionId).value,
      NewDelegation(input.delegationId, NormalizePrincipal(input.delegator).value).value,
      NewTarget(input.resourceType, input.resourceId).value,
      NormalizeParameters(input.typ, input.parameters).value,
      NewPayload(Trim(input.digest), input.classification, input.sizeBytes).value,
      NormalizeEvidence(input.evidence).value)
  }

  lemma AssembledExactly(runtimeId: string, input: ActionInput)
    requires NormalIdentifier(runtimeId) && PartsGiven(runtimeId, input)
    ensures input.requestedAt != ZERO ==> NewProposedAction(Parts(runtimeId, input)) == Ok(Parts(runtimeId, input))
    ensures input.requestedAt == ZERO ==> NewProposedAction(Parts(runtimeId, input)).Err?
  {
    hide NewActor, NormalActor, NormalizePrincipal, NewDelegation, NormalDelegation, NewTarget, NormalTarget;
    hide NormalizeParameters, NormalParameters, NewPayload, NormalPayload, NormalizeEvidence, NormalEvidenceSeq;
    hide NormalIdentifier, ValidActionType, ValidDigest, ActionTypeOf, NewProposedAction, Trim, Trimmed;
    ActorNormal(input.agentId, runtimeId, input.sessionId);
    ParametersFromInput(input.typ, input.parameters);
    PayloadNormal(Trim(input.digest), input.classification, input.sizeBytes);
    EvidenceFromInput(input.evidence);
    var parts := Parts(runtimeId, input);
    if input.requestedAt == ZERO {
      ZeroTimeRejected(parts);
    } else {
      NormalActionFixed(parts);
    }
  }
}
