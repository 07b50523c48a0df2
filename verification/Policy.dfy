/** What a policy engine returns: deny reasons, internal effects, matched rules, a version. */
module Policy {
  import opened Results
  import opened Text

  const HIGH := "HIGH"

  predicate ValidPriority(p: string) { p == "LOW" || p == "MEDIUM" || p == HIGH || p == "CRITICAL" }

  const CREATE_SAFETY_REVIEW := "CREATE_SAFETY_REVIEW"

  /** The closed set of effects; a nil effect value is representable in the source. */
  datatype PolicyEffect =
    | SafetyReview(priority: string, evidenceRefs: seq<string>)
    | NilEffect

  datatype PolicyEvaluation = PolicyEvaluation(
    reasons: seq<string>, effects: seq<PolicyEffect>, matchedRuleIds: seq<string>, policyVersion: string)

  predicate AllNonBlank(xs: seq<string>) { forall i :: 0 <= i < |xs| ==> Trim(xs[i]) != "" }

  predicate Repeats(xs: seq<string>) { exists i, j :: 0 <= i < j < |xs| && xs[i] == xs[j] }

  function NewSafetyReview(priority: string, refs: seq<string>): Result<PolicyEffect> {
    if !ValidPriority(priority) || !AllNonBlank(refs) || Repeats(refs) then Err(InvalidArgument)
    else Ok(SafetyReview(priority, refs))
  }

  /** `NewSafetyReviewRequirement` and the effect around it: blank or repeated references
      are refused by one scan over a seen-set. */
  method NewSafetyReviewRequirement(priority: string, refs: seq<string>) returns (r: Result<PolicyEffect>)
    ensures r == NewSafetyReview(priority, refs)
  {
    hide Trim, ValidPriority, Trimmed;
    if !ValidPriority(priority) {
      return Err(InvalidArgument);
    }
    var seen: set<string> := {};
    for n := 0 to |refs|
      invariant AllNonBlank(refs[..n]) && !Repeats(refs[..n])
      invariant forall x :: x in seen <==> x in refs[..n]
    {
      if Trim(refs[n]) == "" {
        return Err(InvalidArgument);
      }
      if refs[n] in seen {
        ghost var m :| 0 <= m < n && refs[m] == refs[n];
        return Err(InvalidArgument);
      }
      seen := seen + {refs[n]};
      assert refs[..n + 1] == refs[..n] + [refs[n]];
      StillDistinct(refs[..n], refs[n]);
    }
    assert refs[..|refs|] == refs;
    r := Ok(SafetyReview(priority, refs));
  }

  lemma StillDistinct(xs: seq<string>, x: string)
    requires !Repeats(xs) && x !in xs
    ensures !Repeats(xs + [x])
  {
  }

  /** The blank check shared by rule identifiers in the service and in the ledger. */
  method CheckNonBlank(xs: seq<string>) returns (ok: bool)
    ensures ok <==> AllNonBlank(xs)
  {
    hide Trim;
    for n := 0 to |xs|
      invariant AllNonBlank(xs[..n])
    {
      if Trim(xs[n]) == "" {
        return false;
      }
    }
    assert xs[..|xs|] == xs;
    ok := true;
  }

  /** `validatePolicyEvaluation`. */
  predicate EvaluationValid(e: PolicyEvaluation) {
    && Trim(e.policyVersion) != ""
    && AllNonBlank(e.matchedRuleIds)
    && forall i :: 0 <= i < |e.effects| ==> e.effects[i].SafetyReview?
  }
}
