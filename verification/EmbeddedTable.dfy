/** The embedded rules as a table: for every normal action the one decision it gets, said
    without the engine's own matching predicates. */
module EmbeddedTable {
  import opened Actions
  import opened Decisions
  import opened Evidence
  import opened Parameters
  import opened Policy
  import opened Principals
  import opened Results
  import Embedded

  /** The one scope that the scope constructor builds from the action's own type and
      sensitive dimension. */
  function OwnScope(a: Action): Result<Scope> {
    match a.parameters
    case ExternalSend(destination, _) => NewScope(a.typ, destination, "", "")
    case UpdateAccess(_, requested, _) => NewScope(a.typ, "", requested, "")
    case Delete(mode, _) => NewScope(a.typ, "", "", mode)
  }

  /** Evidence issued by the acting runtime itself for exactly this kind of action. */
  predicate OwnEvidence(e: Evidence, a: Action) {
    e.issuedBy.typ == "RUNTIME" && e.issuedBy.id == a.actor.runtimeId && OwnScope(a) == Ok(e.scope)
  }

  /** Evidence is there, and none of it is the acting runtime's own. */
  predicate Unauthorised(a: Action) {
    a.evidence != [] && forall i :: 0 <= i < |a.evidence| ==> !OwnEvidence(a.evidence[i], a)
  }

  function Asks(reason: string): Decision {
    Decision("DENY", ["DELEGATOR_APPROVAL_REQUIRED", reason], ["REQUIRE_APPROVAL"])
  }

  function Expected(a: Action): Decision {
    if Unauthorised(a) then Decision("DENY", ["ACTOR_NOT_AUTHORIZED"], [])
    else
      match a.parameters
      case ExternalSend(destination, _) =>
        if destination == "EXTERNAL" && a.evidence == [] then Asks("EXTERNAL_DESTINATION")
        else Decision("ALLOW", [], [])
      case UpdateAccess(current, requested, _) =>
        if current == "PRIVATE" && (requested == "WORKSPACE" || requested == "PUBLIC") then Asks("VISIBILITY_EXPANSION")
        else Decision("ALLOW", [], [])
      case Delete(mode, recoverable) =>
        if mode == "HARD" || !recoverable then Asks("DESTRUCTIVE_OPERATION") else Decision("ALLOW", [], [])
  }

  /** The references of a review: the evidence identifiers, in order. */
  function EvidenceIds(a: Action): (ids: seq<string>)
    ensures |ids| == |a.evidence| && forall i :: 0 <= i < |ids| ==> ids[i] == a.evidence[i].id
  {
    seq(|a.evidence|, i requires 0 <= i < |a.evidence| => a.evidence[i].id)
  }

  // ---------------------------------------------------------------- the engine follows the table

  lemma MatchesExactly(e: Evidence, a: Action)
    requires NormalAction(a) && NormalEvidence(e)
    ensures Embedded.ItemMatches(e, a) <==> OwnEvidence(e, a)
  {
    hide NormalAction, NormalActor, NormalDelegation, NormalTarget, NormalPayload, NormalEvidenceSeq;
    hide NormalAccessScope, ValidDestination, ValidDeleteMode, NormalStringSet, NormalPrincipalSet, NormalIdentifier;
    hide NormalPrincipal, ValidEvidenceType;
    ActionParts(a);
    ActionTypesDiffer();
    assert OwnScope(a) ==
             match a.parameters
             case ExternalSend(destination, _) => Ok(Scope(EXTERNAL_SEND, destination, "", ""))
             case UpdateAccess(_, requested, _) => Ok(Scope(UPDATE_RESOURCE_ACCESS, "", requested, ""))
             case Delete(mode, _) => Ok(Scope(DELETE, "", "", mode)) by { hide NewScope; }
    hide OwnScope, NormalParameters;
  }

  lemma UnauthorisedExactly(a: Action)
    requires NormalAction(a)
    ensures Unauthorised(a) <==> a.evidence != [] && !Embedded.RuntimeEvidence(a)
  {
    hide NormalAction, OwnEvidence, Embedded.ItemMatches, NormalEvidence;
    ActionParts(a);
    forall i | 0 <= i < |a.evidence| ensures Embedded.ItemMatches(a.evidence[i], a) <==> OwnEvidence(a.evidence[i], a) {
      MatchesExactly(a.evidence[i], a);
    }
  }

  lemma AskDecision(reason: string)
    requires ValidReason(reason) && !TerminalReason(reason) && reason != APPROVAL_REQUIRED
    ensures Composed([APPROVAL_REQUIRED, reason]) == Ok(Asks(reason))
  {
    hide ValidReason, TerminalReason, Composed, FirstSeen, Without;
    ApprovalIsNegotiable();
    ApprovalIsValid();
    var reasons := [APPROVAL_REQUIRED, reason];
    assert forall i :: 0 <= i < |reasons| ==> reasons[i] == APPROVAL_REQUIRED || reasons[i] == reason;
    assert reasons[0] == APPROVAL_REQUIRED && !HasTerminal(reasons);
    ComposeMeaning(reasons);
    FirstSeenFixed(reasons);
  }

  lemma ApprovalIsNegotiable()
    ensures !TerminalReason(APPROVAL_REQUIRED) && !TerminalReason(EXTERNAL_DESTINATION)
    ensures !TerminalReason(VISIBILITY_EXPANSION) && !TerminalReason(DESTRUCTIVE_OPERATION)
    ensures EXTERNAL_DESTINATION != APPROVAL_REQUIRED && VISIBILITY_EXPANSION != APPROVAL_REQUIRED
    ensures DESTRUCTIVE_OPERATION != APPROVAL_REQUIRED
  {
    assert EXTERNAL_DESTINATION[0] == 'E' && VISIBILITY_EXPANSION[0] == 'V' && APPROVAL_REQUIRED[0] == 'D';
    assert DESTRUCTIVE_OPERATION[2] == 'S' && APPROVAL_REQUIRED[2] == 'L';
  }

  /** The table: what the embedded engine's answer composes to, for every normal action. */
  lemma DecidesExactly(a: Action)
    requires NormalAction(a) && Embedded.Evaluation(a).Ok?
    ensures Composed(Embedded.Evaluation(a).value.reasons) == Ok(Expected(a))
  {
    hide NormalAction, Unauthorised, Embedded.RuntimeEvidence, Composed, ValidReason, TerminalReason, NewSafetyReview;
    UnauthorisedExactly(a);
    ReasonsDiffer();
    Embedded.ReasonsAreValid();
    Embedded.ApprovalIsNotActor();
    ApprovalIsNegotiable();
    LoneTerminal(ACTOR_NOT_AUTHORIZED);
    AskDecision(EXTERNAL_DESTINATION);
    AskDecision(VISIBILITY_EXPANSION);
    AskDecision(DESTRUCTIVE_OPERATION);
    NothingComposesToAllow();
  }

  lemma NothingComposesToAllow()
    ensures Composed([]) == Ok(Decision("ALLOW", [], []))
  {
  }

  /** The review: none without the SECRET label, and with it one of high priority that names
      every piece of evidence in order, whatever the decision. */
  lemma ReviewsExactly(a: Action)
    requires Embedded.Evaluation(a).Ok?
    ensures Embedded.Evaluation(a).value.effects ==
              if "SECRET" in a.payload.classification then [SafetyReview("HIGH", EvidenceIds(a))] else []
  {
    hide Embedded.RuntimeEvidence, Repeats, AllNonBlank;
    assert Embedded.References(a) == EvidenceIds(a);
  }

  function ExpectedRules(a: Action): seq<string> {
    (if Unauthorised(a) then ["mvp.permission-mismatch"]
     else if Expected(a).typ == "ALLOW" then []
     else if a.parameters.ExternalSend? then ["mvp.external-send-approval"]
     else if a.parameters.UpdateAccess? then ["mvp.visibility-expansion-approval"]
     else ["mvp.destructive-delete-approval"])
    + (if "SECRET" in a.payload.classification then ["mvp.secret-payload-review"] else [])
  }

  /** The rules recorded with the decision, and the version they belong to. */
  lemma RulesExactly(a: Action)
    requires NormalAction(a) && Embedded.Evaluation(a).Ok?
    ensures Embedded.Evaluation(a).value.matchedRuleIds == ExpectedRules(a)
    ensures Embedded.Evaluation(a).value.policyVersion == "embedded-mvp-v1"
  {
    hide NormalAction, Unauthorised, Embedded.RuntimeEvidence, NewSafetyReview, Embedded.References;
    UnauthorisedExactly(a);
    AllowIsNotDeny();
  }

  lemma AllowIsNotDeny()
    ensures "ALLOW" != "DENY"
  {
    assert "ALLOW"[0] == 'A' && "DENY"[0] == 'D';
  }

  /** Another's evidence never authorises: without a piece the acting runtime issued itself,
      evidence can only ever lead to the terminal deny. */
  lemma ForeignEvidenceNeverAuthorises(a: Action)
    requires NormalAction(a) && Embedded.Evaluation(a).Ok? && a.evidence != []
    requires forall i :: 0 <= i < |a.evidence| ==> a.evidence[i].issuedBy != Principal("RUNTIME", a.actor.runtimeId)
    ensures Composed(Embedded.Evaluation(a).value.reasons) == Ok(Decision("DENY", ["ACTOR_NOT_AUTHORIZED"], []))
  {
    hide NormalAction, Embedded.Evaluation, Composed, OwnScope;
    DecidesExactly(a);
  }
}
