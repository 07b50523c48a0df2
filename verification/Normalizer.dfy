/** The action normaliser: untrusted input plus the authenticated runtime become a domain
    action. */
module Normalizer {
  import opened Actions
  import opened Ascending
  import opened Clock
  import opened Evidence
  import opened Parameters
  import opened Principals
  import opened Results
  import opened Text

  datatype PrincipalInput = PrincipalInput(typ: string, id: string)

  datatype ScopeInput = ScopeInput(
    actionType: string, destinationScope: string, requestedScope: string, deleteMode: string)

  datatype EvidenceInput = EvidenceInput(typ: string, id: string, issuedBy: PrincipalInput, scope: ScopeInput)

  datatype ParametersInput =
    | ExternalSendInput(destinationScope: string, recipients: seq<string>)
    | UpdateAccessInput(currentScope: string, requestedScope: string, targetPrincipals: seq<PrincipalInput>)
    | DeleteInput(deleteMode: string, recoverable: bool)

  datatype ActionInput = ActionInput(
    typ: string, requestedAt: Time,
    agentId: string, claimedRuntimeId: string, sessionId: string,
    delegationId: string, delegator: PrincipalInput,
    resourceType: string, resourceId: string,
    parameters: Option<ParametersInput>,
    digest: string, classification: seq<string>, sizeBytes: Option<Int64>,
    evidence: seq<EvidenceInput>)

  /** `NewAuthenticatedRuntime`: the trusted runtime identity is trimmed, never blank. */
  function NewAuthenticatedRuntime(runtimeId: string): (r: Result<string>)
    ensures r.Ok? ==> NormalIdentifier(r.value)
    ensures NormalIdentifier(runtimeId) ==> r == Ok(runtimeId)
  {
    var id := Trim(runtimeId);
    if id == "" || ByteLen(id) > MAX_IDENTIFIER then Err(InvalidInput) else Ok(id)
  }

  function NormalizePrincipal(p: PrincipalInput): (r: Result<Principal>)
    ensures r.Ok? ==> NormalPrincipal(r.value)
  {
    NewPrincipal(p.typ, p.id)
  }

  function ParametersType(p: ParametersInput): string {
    match p
    case ExternalSendInput(_, _) => EXTERNAL_SEND
    case UpdateAccessInput(_, _, _) => UPDATE_RESOURCE_ACCESS
    case DeleteInput(_, _) => DELETE
  }

  function NormalizeParameters(typ: string, input: Option<ParametersInput>): Result<Parameters> {
    if input.None? || ParametersType(input.value) != typ then Err(InvalidArgument)
    else
      match input.value
      case ExternalSendInput(scope, recipients) =>
        var scope :- ParseDestinationScope(scope);
        NewExternalSend(scope, recipients)
      case UpdateAccessInput(current, requested, targets) =>
        var current :- ParseAccessScope(current);
        var requested :- ParseAccessScope(requested);
        var principals :- Traverse(NormalizePrincipal, targets);
        NewUpdateAccess(current, requested, principals)
      case DeleteInput(mode, recoverable) =>
        var mode :- ParseDeleteMode(mode);
        NewDelete(mode, recoverable)
  }

  function NormalizeScope(s: ScopeInput): Result<Scope> {
    if s.actionType == EXTERNAL_SEND then
      var destination :- ParseDestinationScope(s.destinationScope);
      NewScope(s.actionType, destination, "", "")
    else if s.actionType == UPDATE_RESOURCE_ACCESS then
      var requested :- ParseAccessScope(s.requestedScope);
      NewScope(s.actionType, "", requested, "")
    else if s.actionType == DELETE then
      var mode :- ParseDeleteMode(s.deleteMode);
      NewScope(s.actionType, "", "", mode)
    else Err(InvalidActionType)
  }

  function NormalizeOneEvidence(e: EvidenceInput): Result<Evidence> {
    var typ :- ParseEvidenceType(e.typ);
    var issuer :- NormalizePrincipal(e.issuedBy);
    var scope :- NormalizeScope(e.scope);
    NewEvidence(typ, e.id, issuer, scope)
  }

  function NormalizeEvidence(inputs: seq<EvidenceInput>): Result<seq<Evidence>> {
    var items :- Traverse(NormalizeOneEvidence, inputs);
    NormalEvidenceSet(items)
  }

  /** `normalizeEvidence`: convert one by one, then normalise the set. */
  method NormalizeEvidenceInputs(inputs: seq<EvidenceInput>) returns (r: Result<seq<Evidence>>)
    ensures r == NormalizeEvidence(inputs)
  {
    hide NormalizeOneEvidence, Traverse, NormalEvidenceSet;
    var items :- ConvertAll(NormalizeOneEvidence, inputs);
    r := NormalizeAuthorizationEvidence(items);
  }

  function NormalizeAction(runtimeId: string, input: ActionInput): Result<Action> {
    if runtimeId == "" then Err(InvalidInput)
    else if Trim(input.claimedRuntimeId) != "" && Trim(input.claimedRuntimeId) != runtimeId then
      Err(RuntimeIdentityConflict)
    else
      var actor :- NewActor(input.agentId, runtimeId, input.sessionId);
      var delegator :- NormalizePrincipal(input.delegator);
      var delegation :- NewDelegation(input.delegationId, delegator);
      var target :- NewTarget(input.resourceType, input.resourceId);
      var parameters :- NormalizeParameters(input.typ, input.parameters);
      var digest :- ParseDigest(Trim(input.digest));
      var payload :- NewPayload(digest, input.classification, input.sizeBytes);
      var evidence :- NormalizeEvidence(input.evidence);
      NewProposedAction(
        Action(input.typ, input.requestedAt, actor, delegation, target, parameters, payload, evidence))
  }

  /** Every failure is reported as invalid input. */
  function Normalize(runtimeId: string, input: ActionInput): Result<Action> {
    match NormalizeAction(runtimeId, input)
    case Ok(a) => Ok(a)
    case Err(_) => Err(InvalidInput)
  }

  // ---------------------------------------------------------------- results are normal

  lemma PrincipalsFromInput(targets: seq<PrincipalInput>)
    requires Traverse(NormalizePrincipal, targets).Ok?
    ensures forall i :: 0 <= i < |Traverse(NormalizePrincipal, targets).value| ==>
              NormalPrincipal(Traverse(NormalizePrincipal, targets).value[i])
  {
    hide Traverse, NormalPrincipal;
    TraverseElements(NormalizePrincipal, targets);
  }

  lemma ParametersFromInput(typ: string, input: Option<ParametersInput>)
    ensures NormalizeParameters(typ, input).Ok? ==>
              var p := NormalizeParameters(typ, input).value;
              NormalParameters(p) && ActionTypeOf(p) == typ && ValidActionType(typ)
  {
    hide Traverse, NormalParameters, NewExternalSend, NewUpdateAccess, NewDelete;
    hide ParseAccessScope, ParseDestinationScope, ParseDeleteMode;
    if NormalizeParameters(typ, input).Ok? {
      match input.value
      case ExternalSendInput(scope, recipients) =>
        NewParametersNormal(ExternalSend(ParseDestinationScope(scope).value, recipients));
      case UpdateAccessInput(current, requested, targets) =>
        PrincipalsFromInput(targets);
        NewParametersNormal(UpdateAccess(ParseAccessScope(current).value, ParseAccessScope(requested).value,
                                         Traverse(NormalizePrincipal, targets).value));
      case DeleteInput(mode, recoverable) =>
        NewParametersNormal(Delete(ParseDeleteMode(mode).value, recoverable));
    }
  }

  lemma OneEvidenceFromInput(e: EvidenceInput)
    ensures NormalizeOneEvidence(e).Ok? ==> NormalEvidence(NormalizeOneEvidence(e).value)
  {
    hide NormalEvidence, NewEvidence, ParseEvidenceType, NewPrincipal, NormalScope, NewScope;
    hide ParseAccessScope, ParseDestinationScope, ParseDeleteMode;
  }

  lemma EvidenceFromInput(inputs: seq<EvidenceInput>)
    requires NormalizeEvidence(inputs).Ok?
    ensures NormalEvidenceSeq(NormalizeEvidence(inputs).value)
  {
    hide Traverse, NormalEvidence, NormalizeOneEvidence, NormalEvidenceSeq, NormalEvidenceSet;
    TraverseElements(NormalizeOneEvidence, inputs);
    var items := Traverse(NormalizeOneEvidence, inputs).value;
    forall i | 0 <= i < |items| ensures NormalEvidence(items[i]) { OneEvidenceFromInput(inputs[i]); }
    EvidenceSetNormal(items);
  }

  /** Whatever the caller sends, a successful normalisation is in normal form and carries
      the authenticated runtime, never the claimed one. */
  lemma NormalizeNormal(runtimeId: string, input: ActionInput)
    requires NormalIdentifier(runtimeId) && Normalize(runtimeId, input).Ok?
    ensures var a := Normalize(runtimeId, input).value;
            NormalAction(a) && a.actor.runtimeId == runtimeId
  {
    hide NewActor, NormalActor, NormalizePrincipal, NewDelegation, NormalDelegation, NewTarget, NormalTarget;
    hide NormalizeParameters, NormalParameters, NewPayload, NormalPayload, NormalizeEvidence, NormalEvidenceSeq;
    hide NormalIdentifier, ValidActionType, ValidDigest, ActionTypeOf, NewProposedAction, Trim, Trimmed;
    ActorNormal(input.agentId, runtimeId, input.sessionId);
    ParametersFromInput(input.typ, input.parameters);
    PayloadNormal(Trim(input.digest), input.classification, input.sizeBytes);
    EvidenceFromInput(input.evidence);
    var parts := Action(
      input.typ, input.requestedAt, NewActor(input.agentId, runtimeId, input.sessionId).value,
      NewDelegation(input.delegationId, NormalizePrincipal(input.delegator).value).value,
      NewTarget(input.resourceType, input.resourceId).value,
      NormalizeParameters(input.typ, input.parameters).value,
      NewPayload(Trim(input.digest), input.classification, input.sizeBytes).value,
      NormalizeEvidence(input.evidence).value);
    if input.requestedAt == ZERO {
      ZeroTimeRejected(parts);
    } else {
      NormalActionFixed(parts);
    }
  }

  lemma ZeroTimeRejected(a: Action)
    requires a.requestedAt == ZERO
    ensures NewProposedAction(a).Err?
  {
    hide ValidActionType;
  }

  // ---------------------------------------------------------------- idempotence

  function InputOfPrincipal(p: Principal): PrincipalInput { PrincipalInput(p.typ, p.id) }

  function InputOfEvidence(e: Evidence): EvidenceInput {
    EvidenceInput(e.typ, e.id, InputOfPrincipal(e.issuedBy),
                  ScopeInput(e.scope.actionType, e.scope.destinationScope, e.scope.requestedScope, e.scope.deleteMode))
  }

  function InputsOfEvidence(xs: seq<Evidence>): (r: seq<EvidenceInput>)
    ensures |r| == |xs| && forall i :: 0 <= i < |xs| ==> r[i] == InputOfEvidence(xs[i])
  {
    seq(|xs|, i requires 0 <= i < |xs| => InputOfEvidence(xs[i]))
  }

  function InputOfParameters(p: Parameters): ParametersInput {
    match p
    case ExternalSend(scope, recipients) => ExternalSendInput(scope, recipients)
    case UpdateAccess(current, requested, targets) =>
      UpdateAccessInput(
        current, requested, seq(|targets|, i requires 0 <= i < |targets| => InputOfPrincipal(targets[i])))
    case Delete(mode, recoverable) => DeleteInput(mode, recoverable)
  }

  /** A normal action presented again as caller input. */
  function InputOf(a: Action): ActionInput {
    ActionInput(
      a.typ, a.requestedAt, a.actor.agentId, a.actor.runtimeId, a.actor.sessionId,
      a.delegation.id, InputOfPrincipal(a.delegation.delegator), a.target.resourceType, a.target.resourceId,
      Some(InputOfParameters(a.parameters)),
      a.payload.digest, a.payload.classification, a.payload.sizeBytes,
      InputsOfEvidence(a.evidence))
  }

  lemma ParametersFixed(p: Parameters)
    requires NormalParameters(p)
    ensures NormalizeParameters(ActionTypeOf(p), Some(InputOfParameters(p))) == Ok(p)
  {
    hide Traverse, NewExternalSend, NewUpdateAccess, NewDelete, IsAscending, NormalStringSet, NormalPrincipal;
    hide ParseAccessScope, ParseDestinationScope, ParseDeleteMode;
    RebuildIdentity(p);
    if p.UpdateAccess? {
      var targets := InputOfParameters(p).targetPrincipals;
      forall i | 0 <= i < |targets| ensures NormalizePrincipal(targets[i]) == Ok(p.targetPrincipals[i]) {
        assert NormalPrincipal(p.targetPrincipals[i]);
      }
      TraverseInverse(NormalizePrincipal, targets, p.targetPrincipals);
    }
  }

  lemma OneEvidenceFixed(e: Evidence)
    requires NormalEvidence(e)
    ensures NormalizeOneEvidence(InputOfEvidence(e)) == Ok(e)
  {
    hide NewEvidence, ParseEvidenceType, NewPrincipal, NewScope, ValidEvidenceType, NormalIdentifier, NormalPrincipal;
    hide ParseAccessScope, ParseDestinationScope, ParseDeleteMode, ValidDestination, ValidDeleteMode, NormalAccessScope;
  }

  lemma EvidenceFixed(xs: seq<Evidence>)
    requires NormalEvidenceSeq(xs)
    ensures NormalizeEvidence(InputsOfEvidence(xs)) == Ok(xs)
  {
    hide Traverse, NormalEvidence, NormalizeOneEvidence, NormalEvidenceSet, IsAscending, InputOfEvidence;
    var inputs := InputsOfEvidence(xs);
    forall i | 0 <= i < |xs| ensures NormalizeOneEvidence(inputs[i]) == Ok(xs[i]) { OneEvidenceFixed(xs[i]); }
    TraverseInverse(NormalizeOneEvidence, inputs, xs);
    EvidenceSetNormal(xs);
  }

  lemma DigestTrimmed(s: string)
    requires ValidDigest(s)
    ensures Trim(s) == s
  {
  }

  /** Idempotence: normalising a normal action again is the identity. Together with
      `NormalizeNormal` this says that the normal actions are exactly the results. */
  lemma NormalizeIdempotent(a: Action)
    requires NormalAction(a)
    ensures Normalize(a.actor.runtimeId, InputOf(a)) == Ok(a)
  {
    hide NewActor, NormalActor, NewDelegation, NewTarget, NormalizePrincipal, NormalPrincipal, NormalizeParameters;
    hide NormalParameters, NewPayload, NormalizeEvidence, NormalEvidenceSeq, ValidActionType, ValidDigest, NormalTarget;
    hide ActionTypeOf, NewProposedAction, Trim, Trimmed, ByteLen, InputOfParameters, InputOfEvidence, NormalStringSet;
    ActionParts(a);
    NormalActionFixed(a);
    DigestTrimmed(a.payload.digest);
    ActorNormal(a.actor.agentId, a.actor.runtimeId, a.actor.sessionId);
    ParametersFixed(a.parameters);
    PayloadNormal(a.payload.digest, a.payload.classification, a.payload.sizeBytes);
    EvidenceFixed(a.evidence);
    PrincipalFixed(a.delegation.delegator);
    RuntimeIsOwn(a.actor);
  }

  lemma RuntimeIsOwn(actor: Actor)
    requires NormalActor(actor)
    ensures Trim(actor.runtimeId) == actor.runtimeId != ""
  {
    hide Trim;
  }

  lemma PrincipalFixed(p: Principal)
    requires NormalPrincipal(p)
    ensures NormalizePrincipal(InputOfPrincipal(p)) == Ok(p)
  {
    hide NewPrincipal, NormalPrincipal;
  }

  // ---------------------------------------------------------------- order independence

  /** Same outcome, except that two failures may differ in kind. */
  predicate Agree<T(==)>(a: Result<T>, b: Result<T>) { if a.Ok? then a == b else b.Err? }

  /** The same set, given twice, within a count limit. */
  ghost predicate SameSet<T>(xs: seq<T>, ys: seq<T>, limit: nat) {
    SameElements(xs, ys) && |xs| <= limit && |ys| <= limit
  }

  ghost predicate SameParameters(x: Option<ParametersInput>, y: Option<ParametersInput>) {
    if x.Some? && x.value.ExternalSendInput? then
      && y.Some? && y.value.ExternalSendInput? && x.value.destinationScope == y.value.destinationScope
      && SameSet(TrimAll(x.value.recipients), TrimAll(y.value.recipients), 100)
    else if x.Some? && x.value.UpdateAccessInput? then
      && y.Some? && y.value.UpdateAccessInput?
      && x.value.currentScope == y.value.currentScope && x.value.requestedScope == y.value.requestedScope
      && SameSet(x.value.targetPrincipals, y.value.targetPrincipals, MAX_PRINCIPALS)
    else x == y
  }

  /** Two inputs that differ only in the order and repetition of recipients, target
      principals, labels and evidence. */
  ghost predicate SameFacts(x: ActionInput, y: ActionInput) {
    && y == x.(parameters := y.parameters, classification := y.classification, evidence := y.evidence)
    && SameParameters(x.parameters, y.parameters)
    && SameSet(TrimAll(x.classification), TrimAll(y.classification), 32)
    && SameSet(x.evidence, y.evidence, MAX_EVIDENCE)
  }

  lemma TraverseSame<A, B>(f: A -> Result<B>, xs: seq<A>, ys: seq<A>)
    requires SameElements(xs, ys)
    ensures Traverse(f, xs).Ok? <==> Traverse(f, ys).Ok?
    ensures Traverse(f, xs).Ok? ==> SameElements(Traverse(f, xs).value, Traverse(f, ys).value)
  {
    hide Traverse;
    TraverseElements(f, xs);
    TraverseElements(f, ys);
    assert forall i :: 0 <= i < |xs| ==> xs[i] in ys;
    assert forall i :: 0 <= i < |ys| ==> ys[i] in xs;
    if Traverse(f, xs).Ok? {
      TraverseSubset(f, xs, ys);
      TraverseSubset(f, ys, xs);
    }
  }

  lemma TraverseSubset<A, B>(f: A -> Result<B>, xs: seq<A>, ys: seq<A>)
    requires Traverse(f, xs).Ok? && Traverse(f, ys).Ok?
    requires forall i :: 0 <= i < |xs| ==> xs[i] in ys
    ensures forall u :: u in Traverse(f, xs).value ==> u in Traverse(f, ys).value
  {
    hide Traverse;
    TraverseElements(f, xs);
    TraverseElements(f, ys);
    var us, vs := Traverse(f, xs).value, Traverse(f, ys).value;
    forall u | u in us ensures u in vs {
      var i :| 0 <= i < |us| && us[i] == u;
      var j :| 0 <= j < |ys| && ys[j] == xs[i];
      assert vs[j] == u;
    }
  }

  lemma ParametersAgree(typ: string, x: Option<ParametersInput>, y: Option<ParametersInput>)
    requires SameParameters(x, y)
    ensures Agree(NormalizeParameters(typ, x), NormalizeParameters(typ, y))
  {
    hide Traverse, NormalStrings, NormalPrincipals, ParseAccessScope, ParseDestinationScope;
    hide ParseDeleteMode, SameElements;
    if x.Some? && x.value.ExternalSendInput? {
      StringOrderIrrelevant(x.value.recipients, y.value.recipients, 100, 320);
    } else if x.Some? && x.value.UpdateAccessInput? {
      var xs, ys := x.value.targetPrincipals, y.value.targetPrincipals;
      TraverseSame(NormalizePrincipal, xs, ys);
      TraverseElements(NormalizePrincipal, xs);
      TraverseElements(NormalizePrincipal, ys);
      if Traverse(NormalizePrincipal, xs).Ok? {
        PrincipalOrderIrrelevant(Traverse(NormalizePrincipal, xs).value, Traverse(NormalizePrincipal, ys).value);
      }
    }
  }

  lemma EvidenceAgree(xs: seq<EvidenceInput>, ys: seq<EvidenceInput>)
    requires SameSet(xs, ys, MAX_EVIDENCE)
    ensures Agree(NormalizeEvidence(xs), NormalizeEvidence(ys))
  {
    hide Traverse, NormalizeOneEvidence, NormalEvidenceSet, SameElements;
    TraverseSame(NormalizeOneEvidence, xs, ys);
    TraverseElements(NormalizeOneEvidence, xs);
    TraverseElements(NormalizeOneEvidence, ys);
    if Traverse(NormalizeOneEvidence, xs).Ok? {
      EvidenceOrderIrrelevant(Traverse(NormalizeOneEvidence, xs).value, Traverse(NormalizeOneEvidence, ys).value);
    }
  }

  /** Order independence of the whole action: permuting or repeating recipients, target
      principals, labels or evidence within the count limits changes nothing. */
  lemma NormalizeOrderIrrelevant(runtimeId: string, x: ActionInput, y: ActionInput)
    requires SameFacts(x, y)
    ensures Normalize(runtimeId, x) == Normalize(runtimeId, y)
  {
    hide NewActor, NewDelegation, NewTarget, NormalizePrincipal, NormalizeParameters, NormalizeEvidence, Trim, Trimmed;
    hide NormalStrings, NewProposedAction, ValidDigest, SameParameters, SameElements;
    ParametersAgree(x.typ, x.parameters, y.parameters);
    StringOrderIrrelevant(x.classification, y.classification, 32, 128);
    EvidenceAgree(x.evidence, y.evidence);
  }
}
