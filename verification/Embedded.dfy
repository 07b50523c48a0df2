/** The deterministic embedded rules. */
module Embedded {
  import opened Actions
  import opened Ascending
  import opened Decisions
  import opened Evidence
  import opened Parameters
  import opened Policy
  import opened Principals
  import opened Results
  import opened Text

  const VERSION := "embedded-mvp-v1"
  const RULE_PERMISSION := "mvp.permission-mismatch"
  const RULE_EXTERNAL_SEND := "mvp.external-send-approval"
  const RULE_VISIBILITY := "mvp.visibility-expansion-approval"
  const RULE_DELETE := "mvp.destructive-delete-approval"
  const RULE_SECRET := "mvp.secret-payload-review"
  const SECRET := "SECRET"

  predicate ScopeMatches(s: Scope, a: Action) {
    && s.actionType == a.typ
    && match a.parameters
       case ExternalSend(scope, _) => s.destinationScope == scope
       case UpdateAccess(_, requested, _) => s.requestedScope == requested
       case Delete(mode, _) => s.deleteMode == mode
  }

  predicate ItemMatches(e: Evidence, a: Action) {
    e.issuedBy == Principal(RUNTIME, a.actor.runtimeId) && ScopeMatches(e.scope, a)
  }

  /** Some evidence was issued by the acting runtime for exactly this kind of action. */
  predicate RuntimeEvidence(a: Action) {
    exists i :: 0 <= i < |a.evidence| && ItemMatches(a.evidence[i], a)
  }

  /** `hasMatchingRuntimeEvidence`: an early-exit scan. */
  method HasMatchingRuntimeEvidence(a: Action) returns (found: bool)
    ensures found <==> RuntimeEvidence(a)
  {
    for n := 0 to |a.evidence|
      invariant forall i :: 0 <= i < n ==> !ItemMatches(a.evidence[i], a)
    {
      if ItemMatches(a.evidence[n], a) {
        return true;
      }
    }
    found := false;
  }

  /** The approval rule of the action's variant: its reason and rule, or nothing. */
  function ActionRule(a: Action): Option<(string, string)> {
    match a.parameters
    case ExternalSend(scope, _) =>
      if scope == EXTERNAL && a.evidence == [] then Some((EXTERNAL_DESTINATION, RULE_EXTERNAL_SEND)) else None
    case UpdateAccess(current, requested, _) =>
      if current == PRIVATE && (requested == WORKSPACE || requested == PUBLIC)
      then Some((VISIBILITY_EXPANSION, RULE_VISIBILITY)) else None
    case Delete(mode, recoverable) =>
      if mode == HARD || !recoverable then Some((DESTRUCTIVE_OPERATION, RULE_DELETE)) else None
  }

  function Rules(a: Action): PolicyEvaluation {
    if a.evidence != [] && !RuntimeEvidence(a) then
      PolicyEvaluation([ACTOR_NOT_AUTHORIZED], [], [RULE_PERMISSION], VERSION)
    else
      match ActionRule(a)
      case Some((reason, rule)) => PolicyEvaluation([APPROVAL_REQUIRED, reason], [], [rule], VERSION)
      case None => PolicyEvaluation([], [], [], VERSION)
  }

  function References(a: Action): (refs: seq<string>)
    ensures |refs| == |a.evidence| && forall i :: 0 <= i < |refs| ==> refs[i] == a.evidence[i].id
  {
    seq(|a.evidence|, i requires 0 <= i < |a.evidence| => a.evidence[i].id)
  }

  function Evaluation(a: Action): Result<PolicyEvaluation> {
    var e := Rules(a);
    if SECRET in a.payload.classification then
      var effect :- NewSafetyReview(HIGH, References(a));
      Ok(e.(effects := e.effects + [effect], matchedRuleIds := e.matchedRuleIds + [RULE_SECRET]))
    else Ok(e)
  }

  /** `evaluateActionRules` and the permission rule before it. */
  method EvaluateRules(a: Action) returns (e: PolicyEvaluation)
    ensures e == Rules(a)
  {
    hide RuntimeEvidence;
    e := PolicyEvaluation([], [], [], VERSION);
    var matching := HasMatchingRuntimeEvidence(a);
    if |a.evidence| > 0 && !matching {
      e := e.(reasons := e.reasons + [ACTOR_NOT_AUTHORIZED], matchedRuleIds := e.matchedRuleIds + [RULE_PERMISSION]);
    } else {
      var rule := ActionRule(a);
      if rule.Some? {
        e := e.(reasons := e.reasons + [APPROVAL_REQUIRED, rule.value.0],
                matchedRuleIds := e.matchedRuleIds + [rule.value.1]);
      }
    }
  }

  method CollectReferences(a: Action) returns (references: seq<string>)
    ensures references == References(a)
  {
    hide References;
    references := [];
    for n := 0 to |a.evidence|
      invariant references == References(a)[..n]
    {
      references := references + [a.evidence[n].id];
    }
  }

  /** `Evaluate`: the shared evaluation is extended rule by rule. */
  method Evaluate(a: Action) returns (r: Result<PolicyEvaluation>)
    ensures r == Evaluation(a)
  {
    hide Rules, References, NewSafetyReview;
    var e := EvaluateRules(a);
    var secret := Contains(a.payload.classification, SECRET);
    if secret {
      var references := CollectReferences(a);
      var effect := NewSafetyReviewRequirement(HIGH, references);
      if effect.Err? {
        return Err(effect.error);
      }
      e := e.(effects := e.effects + [effect.value], matchedRuleIds := e.matchedRuleIds + [RULE_SECRET]);
    }
    r := Ok(e);
  }

  // ---------------------------------------------------------------- end to end

  /** No evidence at all, or evidence that the acting runtime issued for this action. */
  predicate Authorised(a: Action) { a.evidence == [] || RuntimeEvidence(a) }

  /** The action facts that need the delegator's approval. */
  predicate NeedsApproval(a: Action) {
    match a.parameters
    case ExternalSend(scope, _) => scope == EXTERNAL && a.evidence == []
    case UpdateAccess(current, requested, _) => current == PRIVATE && (requested == WORKSPACE || requested == PUBLIC)
    case Delete(mode, recoverable) => mode == HARD || !recoverable
  }

  /** Two evidence items carry the same identifier under different types. */
  predicate SharedIdentifier(a: Action) {
    exists i, j :: 0 <= i < j < |a.evidence|
      && a.evidence[i].id == a.evidence[j].id && a.evidence[i].typ != a.evidence[j].typ
  }

  lemma ReferencesRepeat(a: Action)
    requires NormalAction(a)
    ensures Repeats(References(a)) <==> SharedIdentifier(a)
  {
    hide NormalActor, NormalDelegation, NormalTarget, NormalParameters, NormalPayload, NormalEvidence, ValidActionType;
    ActionParts(a);
    forall i, j | 0 <= i < j < |a.evidence| && a.evidence[i].id == a.evidence[j].id
      ensures a.evidence[i].typ != a.evidence[j].typ
    {
      if a.evidence[i].typ == a.evidence[j].typ { LessIrreflexive(EvidenceKey(a.evidence[i])); }
    }
    var refs := References(a);
    if Repeats(refs) {
      var i, j :| 0 <= i < j < |refs| && refs[i] == refs[j];
      assert a.evidence[i].id == a.evidence[j].id;
    }
    if SharedIdentifier(a) {
      var i, j :| 0 <= i < j < |a.evidence|
        && a.evidence[i].id == a.evidence[j].id && a.evidence[i].typ != a.evidence[j].typ;
      assert refs[i] == refs[j];
    }
  }

  lemma ReferencesNonBlank(a: Action)
    requires NormalAction(a)
    ensures AllNonBlank(References(a))
  {
    hide NormalActor, NormalDelegation, NormalTarget, NormalParameters, NormalPayload;
    hide ValidActionType, IsAscending, Trim, ByteLen;
    ActionParts(a);
    forall i | 0 <= i < |a.evidence| ensures Trim(References(a)[i]) != "" { assert NormalEvidence(a.evidence[i]); }
  }

  /** The embedded engine fails exactly on a SECRET payload whose evidence reuses one
      identifier under two types: evidence is unique by (type, identifier) but a review
      references it by identifier alone. */
  lemma EmbeddedFails(a: Action)
    requires NormalAction(a)
    ensures Evaluation(a).Err? <==> SECRET in a.payload.classification && SharedIdentifier(a)
  {
    hide NormalAction, References, Repeats, SharedIdentifier, Rules, AllNonBlank;
    ReferencesRepeat(a);
    ReferencesNonBlank(a);
  }

  /** The whole decision, as a closed formula over the action: ALLOW exactly when the actor
      is authorised and nothing needs approval; one approval requirement exactly when the
      actor is authorised and something does; a terminal deny otherwise. */
  lemma EmbeddedDecides(a: Action)
    requires Evaluation(a).Ok?
    ensures Composed(Evaluation(a).value.reasons).Ok?
    ensures var d := Composed(Evaluation(a).value.reasons).value;
            && (d.typ == ALLOW <==> Authorised(a) && !NeedsApproval(a))
            && (d.actions == [REQUIRE_APPROVAL] <==> Authorised(a) && NeedsApproval(a))
            && (!Authorised(a) ==> d == Decision(DENY, [ACTOR_NOT_AUTHORIZED], []))
  {
    hide RuntimeEvidence, NewSafetyReview, FirstSeen, Without;
    ReasonsDiffer();
    var reasons := Evaluation(a).value.reasons;
    assert reasons == Rules(a).reasons;
    assert AllReasonsValid(reasons);
    ComposeMeaning(reasons);
    var d := Composed(reasons).value;
    if !Authorised(a) {
      assert reasons[0] == ACTOR_NOT_AUTHORIZED;
      OneReason(d);
    } else if NeedsApproval(a) {
      assert reasons[0] == APPROVAL_REQUIRED;
    }
  }

  /** Why: each negotiable reason appears for exactly its own kind of action, each rule is
      recorded exactly when it fired, and a SECRET payload asks for one high-priority review
      that refers to the evidence in order, whether or not the action is denied. */
  lemma EmbeddedExplains(a: Action)
    requires Evaluation(a).Ok?
    ensures Composed(Evaluation(a).value.reasons).Ok?
    ensures var e, d := Evaluation(a).value, Composed(Evaluation(a).value.reasons).value;
            && (EXTERNAL_DESTINATION in d.reasons <==>
                a.evidence == [] && a.parameters.ExternalSend? && a.parameters.destinationScope == EXTERNAL)
            && (VISIBILITY_EXPANSION in d.reasons <==> Authorised(a) && a.parameters.UpdateAccess? && NeedsApproval(a))
            && (DESTRUCTIVE_OPERATION in d.reasons <==> Authorised(a) && a.parameters.Delete? && NeedsApproval(a))
            && (RULE_PERMISSION in e.matchedRuleIds <==> !Authorised(a))
            && (RULE_EXTERNAL_SEND in e.matchedRuleIds <==> EXTERNAL_DESTINATION in d.reasons)
            && (RULE_VISIBILITY in e.matchedRuleIds <==> VISIBILITY_EXPANSION in d.reasons)
            && (RULE_DELETE in e.matchedRuleIds <==> DESTRUCTIVE_OPERATION in d.reasons)
            && (RULE_SECRET in e.matchedRuleIds <==> SECRET in a.payload.classification)
            && (SECRET !in a.payload.classification ==> e.effects == [])
            && (SECRET in a.payload.classification ==>
                  && |e.effects| == 1 && e.effects[0].SafetyReview? && e.effects[0].priority == HIGH
                  && |e.effects[0].evidenceRefs| == |a.evidence|
                  && forall i :: 0 <= i < |a.evidence| ==> e.effects[0].evidenceRefs[i] == a.evidence[i].id)
  {
    hide RuntimeEvidence, FirstSeen, Without, ValidReason, Repeats, AllNonBlank, Composed, HasTerminal;
    ReasonsDiffer();
    RulesDiffer();
    ReasonsAreValid();
    ComposeMeaning(Evaluation(a).value.reasons);
  }

  lemma RulesDiffer()
    ensures ACTOR_NOT_AUTHORIZED != EXTERNAL_DESTINATION && ACTOR_NOT_AUTHORIZED != VISIBILITY_EXPANSION
    ensures ACTOR_NOT_AUTHORIZED != DESTRUCTIVE_OPERATION && VISIBILITY_EXPANSION != DESTRUCTIVE_OPERATION
    ensures EXTERNAL_DESTINATION != DESTRUCTIVE_OPERATION
    ensures RULE_PERMISSION != RULE_EXTERNAL_SEND && RULE_PERMISSION != RULE_VISIBILITY
    ensures RULE_PERMISSION != RULE_DELETE
    ensures RULE_PERMISSION != RULE_SECRET && RULE_EXTERNAL_SEND != RULE_VISIBILITY && RULE_EXTERNAL_SEND != RULE_DELETE
    ensures RULE_EXTERNAL_SEND != RULE_SECRET && RULE_VISIBILITY != RULE_DELETE && RULE_VISIBILITY != RULE_SECRET
    ensures RULE_DELETE != RULE_SECRET
  {
    assert ACTOR_NOT_AUTHORIZED[0] == 'A' && EXTERNAL_DESTINATION[0] == 'E' && VISIBILITY_EXPANSION[0] == 'V';
    assert DESTRUCTIVE_OPERATION[0] == 'D';
    assert RULE_PERMISSION[4] == 'p' && RULE_EXTERNAL_SEND[4] == 'e' && RULE_VISIBILITY[4] == 'v';
    assert RULE_DELETE[4] == 'd' && RULE_SECRET[4] == 's';
  }

  lemma OneReason(d: Decision)
    requires Composed([ACTOR_NOT_AUTHORIZED]) == Ok(d)
    ensures d == Decision(DENY, [ACTOR_NOT_AUTHORIZED], [])
  {
    hide Composed, ValidReason, TerminalReason;
    ReasonsDiffer();
    ReasonsAreValid();
    ApprovalIsNotActor();
    LoneTerminal(ACTOR_NOT_AUTHORIZED);
  }

  lemma ApprovalIsNotActor()
    ensures ACTOR_NOT_AUTHORIZED != APPROVAL_REQUIRED
  {
    assert ACTOR_NOT_AUTHORIZED[0] == 'A' && APPROVAL_REQUIRED[0] == 'D';
  }

  /** Whatever the action, the evaluation the engine returns passes the service's checks and
      carries at most one effect. */
  lemma EmbeddedValid(a: Action)
    requires Evaluation(a).Ok?
    ensures EvaluationValid(Evaluation(a).value) && |Evaluation(a).value.effects| <= 1
    ensures AllReasonsValid(Evaluation(a).value.reasons)
  {
    hide RuntimeEvidence, NormalAction, Trim, Repeats, ValidReason;
    RuleNames();
    ReasonsAreValid();
  }

  lemma ReasonsAreValid()
    ensures ValidReason(APPROVAL_REQUIRED) && ValidReason(EXTERNAL_DESTINATION) && ValidReason(VISIBILITY_EXPANSION)
    ensures ValidReason(DESTRUCTIVE_OPERATION) && ValidReason(ACTOR_NOT_AUTHORIZED) && ValidReason(POLICY_UNAVAILABLE)
  {
  }

  lemma RuleNames()
    ensures Trim(VERSION) != "" && Trim(RULE_PERMISSION) != "" && Trim(RULE_EXTERNAL_SEND) != ""
    ensures Trim(RULE_VISIBILITY) != "" && Trim(RULE_DELETE) != "" && Trim(RULE_SECRET) != ""
  {
    hide Trim;
  }
}
