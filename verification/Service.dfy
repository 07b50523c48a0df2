/** The decision service between its ledger calls: what it prepares before the first lookup,
    what it builds from the policy answer, and what it makes of a ledger answer. */
module Service {
  import opened Actions
  import opened Ascending
  import opened Canonical
  import opened Clock
  import opened Decisions
  import opened Gates
  import opened Guards
  import opened Ledger
  import opened Normalizer
  import opened Policy
  import opened Principals
  import opened Results
  import opened Text
  import Embedded
  import Osprey

  // ---------------------------------------------------------------- before the first lookup

  /** One call of `Evaluate`: the authenticated runtime, the request id and the action, raw. */
  datatype Call = Call(runtimeId: string, requestId: string, input: ActionInput)

  datatype Prepared = Prepared(key: Key, action: Action, digest: string)

  /** `normalizeDecisionRequestID`. */
  function NormalRequestId(value: string): (r: Result<string>)
    ensures r.Ok? ==> NormalIdentifier(r.value)
  {
    var id := Trim(value);
    if id == "" || ByteLen(id) > 256 then Err(InvalidInput) else Ok(id)
  }

  function Prepare(sha: Hash, call: Call): Result<Prepared> {
    var runtimeId :- NewAuthenticatedRuntime(call.runtimeId);
    var requestId :- NormalRequestId(call.requestId);
    var action :- Normalize(runtimeId, call.input);
    match ComputeDigest(sha, action)
    case Err(_) => Err(InvalidInput)
    case Ok(digest) => Ok(Prepared(Key(runtimeId, requestId), action, digest))
  }

  ghost predicate PreparedOk(sha: Hash, p: Prepared) {
    forall k: nat {:trigger Opened(OfRequests, k)} :: Opened(OfRequests, k) ==>
      && TrimmedKey(p.key) && NormalAction(p.action) && p.action.actor.runtimeId == p.key.runtimeId
      && ComputeDigest(sha, p.action) == Ok(p.digest) && ValidDigest(p.digest)
  }

  lemma RequestParts(sha: Hash, p: Prepared)
    requires PreparedOk(sha, p)
    ensures TrimmedKey(p.key) && NormalAction(p.action) && p.action.actor.runtimeId == p.key.runtimeId
    ensures ComputeDigest(sha, p.action) == Ok(p.digest) && ValidDigest(p.digest)
  {
    hide TrimmedKey, NormalAction, ComputeDigest, ValidDigest;
    assert Opened(OfRequests, 0);
  }

  /** The service hands the ledger trimmed, nonblank identifiers only, an action normalised
      under that very runtime and the digest of that action; the digest step never fails. */
  lemma PrepareSound(sha: Hash, call: Call)
    ensures Prepare(sha, call).Ok? ==> PreparedOk(sha, Prepare(sha, call).value)
    ensures Prepare(sha, call).Ok? <==>
              && NewAuthenticatedRuntime(call.runtimeId).Ok? && NormalRequestId(call.requestId).Ok?
              && Normalize(Trim(call.runtimeId), call.input).Ok?
    ensures Prepare(sha, call).Ok? ==>
              Prepare(sha, call).value.key == Key(Trim(call.runtimeId), Trim(call.requestId))
  {
    hide Normalize, NormalAction, ComputeDigest, ValidDigest, Trim, ByteLen, CanonicalText, Trimmed;
    if NewAuthenticatedRuntime(call.runtimeId).Ok? && Normalize(Trim(call.runtimeId), call.input).Ok? {
      NormalizeNormal(Trim(call.runtimeId), call.input);
      DigestDefined(sha, Normalize(Trim(call.runtimeId), call.input).value);
    }
  }

  lemma DigestDefined(sha: Hash, a: Action)
    requires NormalAction(a)
    ensures ComputeDigest(sha, a).Ok?
  {
    hide NormalAction, CanonicalText, DigestText;
    CanonicalRoundTrip(a);
  }

  /** Retrying with the same facts, however ordered or repeated, and with any spaces around
      the identifiers, is the same request with the same digest. */
  lemma RetryIsTheSameRequest(sha: Hash, call: Call, again: Call)
    requires Trim(call.runtimeId) == Trim(again.runtimeId) && Trim(call.requestId) == Trim(again.requestId)
    requires SameFacts(call.input, again.input)
    ensures Prepare(sha, call) == Prepare(sha, again)
  {
    hide Normalize, ComputeDigest, Trim, ByteLen, Trimmed, SameFacts;
    NormalizeOrderIrrelevant(Trim(call.runtimeId), call.input, again.input);
  }

  // ---------------------------------------------------------------- building the commit

  /** Everything the outside world answers between the first lookup and the commit: the
      policy engine, the identifier generator (decision first, then one per effect), the clock. */
  datatype Answers = Answers(policy: Result<PolicyEvaluation>, ids: nat -> Option<string>, now: Time)

  /** `newRequiredID`. */
  function RequiredId(generated: Option<string>): (r: Result<string>)
    ensures r.Ok? ==> r.value != "" && Trimmed(r.value)
  {
    if generated.None? || Trim(generated.value) == "" then Err(IdGeneration) else Ok(Trim(generated.value))
  }

  function PrepareEffect(effect: PolicyEffect, generated: Option<string>): Result<EffectCommit> {
    if effect.NilEffect? then Err(PolicyUnavailable)
    else
      var id :- RequiredId(generated);
      Ok(EffectCommit(id, effect))
  }

  function PreparedEffects(effects: seq<PolicyEffect>, ids: nat -> Option<string>): Result<seq<EffectCommit>> {
    if effects == [] then Ok([])
    else
      var n := |effects| - 1;
      var front :- PreparedEffects(effects[..n], ids);
      var last :- PrepareEffect(effects[n], ids(n + 1));
      Ok(front + [last])
  }

  lemma {:induction false} PreparedEffectsElements(effects: seq<PolicyEffect>, ids: nat -> Option<string>)
    ensures PreparedEffects(effects, ids).Ok? <==>
              forall i: nat :: i < |effects| ==> PrepareEffect(effects[i], ids(i + 1)).Ok?
    ensures PreparedEffects(effects, ids).Ok? ==>
              && |PreparedEffects(effects, ids).value| == |effects|
              && forall i: nat :: i < |effects| ==>
                   PrepareEffect(effects[i], ids(i + 1)) == Ok(PreparedEffects(effects, ids).value[i])
  {
    hide PrepareEffect;
    if effects != [] {
      var front := effects[..|effects| - 1];
      PreparedEffectsElements(front, ids);
      assert forall i: nat :: i < |front| ==> front[i] == effects[i];
    }
  }

  lemma {:induction false} PreparedEffectsFail(effects: seq<PolicyEffect>, ids: nat -> Option<string>, n: nat)
    requires n < |effects| && PreparedEffects(effects[..n], ids).Ok? && PrepareEffect(effects[n], ids(n + 1)).Err?
    ensures PreparedEffects(effects, ids) == Err(PrepareEffect(effects[n], ids(n + 1)).error)
    decreases |effects|
  {
    hide PrepareEffect;
    var front := effects[..|effects| - 1];
    if n == |effects| - 1 {
      assert front == effects[..n];
    } else {
      assert front[..n] == effects[..n];
      PreparedEffectsFail(front, ids, n);
    }
  }

  /** `preparePolicyEffects`: one identifier per effect, in order. */
  method PreparePolicyEffects(
      effects: seq<PolicyEffect>, ids: nat -> Option<string>) returns (r: Result<seq<EffectCommit>>)
    ensures r == PreparedEffects(effects, ids)
  {
    hide PrepareEffect;
    var prepared: seq<EffectCommit> := [];
    for n := 0 to |effects|
      invariant PreparedEffects(effects[..n], ids) == Ok(prepared)
    {
      var item := PrepareEffect(effects[n], ids(n + 1));
      assert effects[..n + 1][..n] == effects[..n];
      if item.Err? {
        PreparedEffectsFail(effects, ids, n);
        return Err(item.error);
      }
      prepared := prepared + [item.value];
    }
    assert effects[..|effects|] == effects;
    r := Ok(prepared);
  }

  /** From the policy answer to the commit handed to the ledger. */
  function BuildCommit(p: Prepared, a: Answers): Result<EvaluationCommit> {
    if a.policy.Err? || !EvaluationValid(a.policy.value) then Err(PolicyUnavailable)
    else
      var evaluation := a.policy.value;
      match Composed(evaluation.reasons)
      case Err(_) => Err(PolicyUnavailable)
      case Ok(decision) =>
        var decisionId :- RequiredId(a.ids(0));
        var effects :- PreparedEffects(evaluation.effects, a.ids);
        if a.now == ZERO then Err(ClockFailure)
        else
          Ok(EvaluationCommit(p.key, p.action, p.digest, decisionId, decision,
                              Trim(evaluation.policyVersion), evaluation.matchedRuleIds, effects, a.now))
  }

  lemma {:induction false} PreparedEffectsErrors(effects: seq<PolicyEffect>, ids: nat -> Option<string>)
    requires PreparedEffects(effects, ids).Err?
    ensures PreparedEffects(effects, ids).error in {PolicyUnavailable, IdGeneration}
  {
    hide Trim, Trimmed;
    var front := effects[..|effects| - 1];
    if PreparedEffects(front, ids).Err? { PreparedEffectsErrors(front, ids); }
  }

  /** Building fails closed: a policy, identifier or clock error, never a ledger one. */
  lemma BuildCommitErrors(p: Prepared, a: Answers)
    requires BuildCommit(p, a).Err?
    ensures BuildCommit(p, a).error in {PolicyUnavailable, IdGeneration, ClockFailure}
  {
    hide Trim, Trimmed, EvaluationValid, Composed, PreparedEffects;
    if a.policy.Ok? && PreparedEffects(a.policy.value.effects, a.ids).Err? {
      PreparedEffectsErrors(a.policy.value.effects, a.ids);
    }
  }

  /** The steps of `Evaluate` between its two ledger calls, in the source's order. */
  method BuildEvaluationCommit(p: Prepared, a: Answers) returns (r: Result<EvaluationCommit>)
    ensures r == BuildCommit(p, a)
  {
    hide EvaluationValid, Composed, RequiredId, PreparedEffects, Trim;
    if a.policy.Err? || !EvaluationValid(a.policy.value) {
      return Err(PolicyUnavailable);
    }
    var evaluation := a.policy.value;
    var decision := Compose(evaluation.reasons);
    if decision.Err? {
      return Err(PolicyUnavailable);
    }
    var decisionId :- RequiredId(a.ids(0));
    var effects :- PreparePolicyEffects(evaluation.effects, a.ids);
    if a.now == ZERO {
      return Err(ClockFailure);
    }
    r := Ok(EvaluationCommit(p.key, p.action, p.digest, decisionId, decision.value,
                             Trim(evaluation.policyVersion), evaluation.matchedRuleIds, effects, a.now));
  }

  /** A commit built for a prepared request: everything but the number of effects is right. */
  ghost predicate BuiltFor(sha: Hash, p: Prepared, c: EvaluationCommit) {
    && c.key == p.key && c.action == p.action && c.digest == p.digest
    && PreparedOk(sha, p) && WellFormed(c.decision)
    && Trim(c.decisionId) != "" && Trim(c.policyVersion) != "" && c.evaluatedAt != ZERO
    && AllNonBlank(c.matchedRuleIds)
    && forall i :: 0 <= i < |c.effects| ==> Trim(c.effects[i].effectId) != "" && c.effects[i].effect.SafetyReview?
  }

  lemma BuildCommitSound(sha: Hash, p: Prepared, a: Answers)
    requires PreparedOk(sha, p) && BuildCommit(p, a).Ok?
    ensures BuiltFor(sha, p, BuildCommit(p, a).value)
    ensures Composed(a.policy.value.reasons) == Ok(BuildCommit(p, a).value.decision)
    ensures |BuildCommit(p, a).value.effects| == |a.policy.value.effects|
  {
    hide PreparedOk, Trim, Trimmed, Composed, WellFormed, AllNonBlank, PreparedEffects;
    ComposeFails(a.policy.value.reasons);
    ComposeMeaning(a.policy.value.reasons);
    PreparedEffectsElements(a.policy.value.effects, a.ids);
  }

  /** A policy answer the service goes on with: a version, rules with names, effects that are
      there, and reasons out of the known six. */
  ghost predicate Usable(answer: Result<PolicyEvaluation>) {
    && answer.Ok? && Trim(answer.value.policyVersion) != ""
    && (forall i :: 0 <= i < |answer.value.matchedRuleIds| ==> Trim(answer.value.matchedRuleIds[i]) != "")
    && (forall i :: 0 <= i < |answer.value.effects| ==> answer.value.effects[i].SafetyReview?)
    && (forall r :: r in answer.value.reasons ==>
          || r == "DELEGATOR_APPROVAL_REQUIRED" || r == "EXTERNAL_DESTINATION" || r == "VISIBILITY_EXPANSION"
          || r == "DESTRUCTIVE_OPERATION" || r == "ACTOR_NOT_AUTHORIZED" || r == "POLICY_UNAVAILABLE")
  }

  /** The generator's n-th answer is an identifier. */
  predicate Generated(ids: nat -> Option<string>, n: nat) { ids(n).Some? && Trim(ids(n).value) != "" }

  /** What the commit is made of, and of nothing else: the prepared request, the composed
      decision, and the policy's own version, rules and effects, each effect under the next
      generated identifier. */
  lemma BuildExactly(p: Prepared, a: Answers)
    requires BuildCommit(p, a).Ok?
    ensures a.policy.Ok?
    ensures var c, e := BuildCommit(p, a).value, a.policy.value;
            && c.key == p.key && c.action == p.action && c.digest == p.digest && c.evaluatedAt == a.now
            && Composed(e.reasons) == Ok(c.decision)
            && c.policyVersion == Trim(e.policyVersion) && c.matchedRuleIds == e.matchedRuleIds
            && a.ids(0).Some? && c.decisionId == Trim(a.ids(0).value)
            && |c.effects| == |e.effects|
            && forall i: nat :: i < |e.effects| ==>
                 && c.effects[i].effect == e.effects[i]
                 && a.ids(i + 1).Some? && c.effects[i].effectId == Trim(a.ids(i + 1).value)
  {
    hide Trim, Trimmed, Composed, EvaluationValid;
    PreparedEffectsElements(a.policy.value.effects, a.ids);
  }

  /** Exactly when no commit is made, and with which error: the policy first, then the
      identifiers, then the clock. */
  lemma BuildFailsExactly(p: Prepared, a: Answers)
    ensures !Usable(a.policy) ==> BuildCommit(p, a) == Err(PolicyUnavailable)
    ensures Usable(a.policy) && (exists i: nat :: i <= |a.policy.value.effects| && !Generated(a.ids, i)) ==>
              BuildCommit(p, a) == Err(IdGeneration)
    ensures Usable(a.policy) && (forall i: nat :: i <= |a.policy.value.effects| ==> Generated(a.ids, i)) ==>
              if a.now == ZERO then BuildCommit(p, a) == Err(ClockFailure) else BuildCommit(p, a).Ok?
  {
    hide Trim, Trimmed, Composed, PreparedEffects;
    if a.policy.Ok? { KnownReasons(a.policy.value.reasons); }
    if Usable(a.policy) {
      var effects := a.policy.value.effects;
      EffectsGenerated(effects, a.ids);
      assert RequiredId(a.ids(0)).Ok? <==> Generated(a.ids, 0);
      assert EvaluationValid(a.policy.value);
      if i: nat :| i <= |effects| && !Generated(a.ids, i) { assert i == 0 || 1 <= i <= |effects|; }
    }
  }

  lemma EffectsGenerated(effects: seq<PolicyEffect>, ids: nat -> Option<string>)
    requires forall i :: 0 <= i < |effects| ==> effects[i].SafetyReview?
    ensures PreparedEffects(effects, ids).Ok? <==> forall i: nat :: 1 <= i <= |effects| ==> Generated(ids, i)
    ensures PreparedEffects(effects, ids).Err? ==> PreparedEffects(effects, ids) == Err(IdGeneration)
  {
    hide Trim, Trimmed;
    PreparedEffectsElements(effects, ids);
    assert forall i: nat :: i < |effects| ==> (PrepareEffect(effects[i], ids(i + 1)).Ok? <==> Generated(ids, i + 1));
    assert forall i: nat :: 1 <= i <= |effects| ==>
             i - 1 + 1 == i && (PrepareEffect(effects[i - 1], ids(i)).Ok? <==> Generated(ids, i));
    if PreparedEffects(effects, ids).Err? { FirstEffectError(effects, ids); }
  }

  lemma KnownReasons(reasons: seq<string>)
    ensures Composed(reasons).Ok? <==>
              forall r :: r in reasons ==>
                || r == "DELEGATOR_APPROVAL_REQUIRED" || r == "EXTERNAL_DESTINATION" || r == "VISIBILITY_EXPANSION"
                || r == "DESTRUCTIVE_OPERATION" || r == "ACTOR_NOT_AUTHORIZED" || r == "POLICY_UNAVAILABLE"
  {
    hide Composed;
    ComposeFails(reasons);
    assert forall i :: 0 <= i < |reasons| ==> reasons[i] in reasons;
  }

  lemma {:induction false} FirstEffectError(effects: seq<PolicyEffect>, ids: nat -> Option<string>)
    requires PreparedEffects(effects, ids).Err? && forall i :: 0 <= i < |effects| ==> effects[i].SafetyReview?
    ensures PreparedEffects(effects, ids) == Err(IdGeneration)
  {
    hide Trim, Trimmed;
    var front := effects[..|effects| - 1];
    if PreparedEffects(front, ids).Err? { FirstEffectError(front, ids); }
  }

  /** The encoder refuses a built commit for one reason only: more than one effect. */
  lemma BuiltCommitEncodes(sha: Hash, p: Prepared, c: EvaluationCommit)
    requires BuiltFor(sha, p, c)
    ensures Encode(sha, c).Ok? <==> |c.effects| <= 1
    ensures Encode(sha, c).Ok? ==> Committable(sha, c) && Accepted(sha, c, Encode(sha, c).value)
  {
    hide NormalAction, ComputeDigest, ValidDigest, WellFormed, Trimmed, Trim, EffectsAccepted, EncodeAll, CanonicalText;
    hide AllNonBlank, EncoderGate, ReasonsText, ActionsText, Distinct, Accepted, Committable;
    RequestParts(sha, p);
    AtMostOneEffect(c.effects);
    WellFormedListed(c.decision);
    CanonicalRoundTrip(c.action);
    if Encode(sha, c).Ok? { EncodedIsAccepted(sha, c); }
  }

  ghost predicate GeneratorWorks(ids: nat -> Option<string>) {
    forall n: nat :: Generated(ids, n)
  }

  lemma ValidAnswerCommits(sha: Hash, p: Prepared, a: Answers)
    requires PreparedOk(sha, p) && GeneratorWorks(a.ids) && a.now != ZERO
    requires a.policy.Ok? && EvaluationValid(a.policy.value) && |a.policy.value.effects| <= 1
    requires AllReasonsValid(a.policy.value.reasons)
    ensures BuildCommit(p, a).Ok? && Committable(sha, BuildCommit(p, a).value)
  {
    hide PreparedOk, Committable, Composed, PreparedEffects, AllReasonsValid;
    hide Encode, BuiltFor, Trim, Trimmed;
    ComposeFails(a.policy.value.reasons);
    assert Generated(a.ids, 0) && forall n: nat :: Generated(a.ids, n);
    EffectsGenerated(a.policy.value.effects, a.ids);
    BuildCommitSound(sha, p, a);
    BuiltCommitEncodes(sha, p, BuildCommit(p, a).value);
  }

  /** With the embedded engine the commit is built and passes every encoder check exactly
      when the engine answers, given working identifiers and clock. */
  lemma EmbeddedCommitAccepted(sha: Hash, call: Call, a: Answers)
    requires Prepare(sha, call).Ok? && GeneratorWorks(a.ids) && a.now != ZERO
    requires a.policy == Embedded.Evaluation(Prepare(sha, call).value.action)
    ensures var p := Prepare(sha, call).value;
            && (BuildCommit(p, a).Ok? <==>
                !(Embedded.SECRET in p.action.payload.classification && Embedded.SharedIdentifier(p.action)))
            && (BuildCommit(p, a).Ok? ==> Committable(sha, BuildCommit(p, a).value))
  {
    var p := Prepare(sha, call).value;
    PrepareSound(sha, call);
    EmbeddedAnswer(sha, p, a);
    hide PreparedOk, Embedded.Evaluation, Embedded.SharedIdentifier, EvaluationValid;
    hide AllReasonsValid, Prepare, Committable, GeneratorWorks;
    if a.policy.Ok? {
      ValidAnswerCommits(sha, p, a);
    }
  }

  lemma EmbeddedAnswer(sha: Hash, p: Prepared, a: Answers)
    requires PreparedOk(sha, p) && a.policy == Embedded.Evaluation(p.action)
    ensures a.policy.Ok? <==>
        !(Embedded.SECRET in p.action.payload.classification && Embedded.SharedIdentifier(p.action))
    ensures a.policy.Ok? ==>
              && EvaluationValid(a.policy.value) && |a.policy.value.effects| <= 1
              && AllReasonsValid(a.policy.value.reasons)
  {
    hide Embedded.Evaluation, Embedded.SharedIdentifier, EvaluationValid, AllReasonsValid;
    hide PreparedOk, NormalAction, ComputeDigest, ValidDigest;
    RequestParts(sha, p);
    Embedded.EmbeddedFails(p.action);
    if a.policy.Ok? { Embedded.EmbeddedValid(p.action); }
  }

  /** With Osprey the commit is built and accepted whatever the coordinator answers, exactly
      when the requested time has a year its request encoding can carry. */
  lemma OspreyCommitAccepted(sha: Hash, call: Call, a: Answers, version: string, answer: Option<seq<string>>)
    requires Prepare(sha, call).Ok? && GeneratorWorks(a.ids) && a.now != ZERO && Trim(version) != ""
    requires a.policy == Osprey.Evaluation(version, Prepare(sha, call).value.action.requestedAt, answer)
    ensures var p := Prepare(sha, call).value;
            && (BuildCommit(p, a).Ok? <==> FourDigitYear(p.action.requestedAt))
            && (BuildCommit(p, a).Ok? ==> Committable(sha, BuildCommit(p, a).value))
  {
    var p := Prepare(sha, call).value;
    PrepareSound(sha, call);
    if FourDigitYear(p.action.requestedAt) {
      OspreyAnswer(version, p.action.requestedAt, answer);
      hide PreparedOk, Osprey.Evaluation, EvaluationValid, AllReasonsValid, Prepare, Committable, GeneratorWorks, Trim;
      ValidAnswerCommits(sha, p, a);
    }
  }

  lemma OspreyAnswer(version: string, requestedAt: Time, answer: Option<seq<string>>)
    requires FourDigitYear(requestedAt) && Trim(version) != ""
    ensures var r := Osprey.Evaluation(version, requestedAt, answer);
            r.Ok? && EvaluationValid(r.value) && |r.value.effects| <= 1 && AllReasonsValid(r.value.reasons)
  {
    hide Osprey.Evaluation, EvaluationValid, AllReasonsValid, Composed, Trim;
    Osprey.OspreyFailClosed(version, requestedAt, answer);
    Osprey.OspreyValid(version, requestedAt, answer);
  }

  // ---------------------------------------------------------------- after a ledger answer

  /** `validateAuthoritativeDecision`. */
  predicate Authoritative(record: DecisionRecord, digest: string) {
    && Trim(record.decisionId) != "" && ValidDecisionType(record.decision.typ) && record.digest == digest
    && Trim(record.policyVersion) != "" && record.evaluatedAt != ZERO
  }

  /** `resolveStoredEvaluation`. */
  function ResolveStored(stored: StoredEvaluation, key: Key, digest: string): Result<DecisionRecord> {
    if stored.key != key then Err(LedgerFailure)
    else if stored.decision.digest != digest then Err(RequestIdConflict)
    else if !Authoritative(stored.decision, digest) then Err(LedgerFailure)
    else Ok(stored.decision)
  }

  /** What `Evaluate` returns for the answer of `CommitEvaluation`. */
  function Conclude(answer: Result<DecisionRecord>, digest: string): Result<DecisionRecord> {
    match answer
    case Err(RequestIdConflict) => Err(RequestIdConflict)
    case Err(_) => Err(LedgerFailure)
    case Ok(record) => if Authoritative(record, digest) then Ok(record) else Err(LedgerFailure)
  }

  /** The service's own validation never rejects a record that the ledger accepted. */
  lemma AcceptedIsAuthoritative(sha: Hash, c: EvaluationCommit)
    requires Encode(sha, c).Ok?
    ensures Authoritative(RecordOf(c), c.digest)
  {
    hide Encode, Trim, ComputeDigest, ValidDigest, CanonicalText, ReasonsText, ActionsText, EncodedEffects;
    EncodeParts(sha, c);
  }
}
