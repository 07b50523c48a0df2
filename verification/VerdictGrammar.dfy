/** The verdict grammar in its own terms: which texts the Osprey mapping accepts, what each
    stands for, and what the service decides on them. */
module VerdictGrammar {
  import opened Clock
  import opened Decisions
  import opened Osprey
  import opened Policy
  import opened Results
  import opened Text

  predicate LowerOrDigit(c: char) { 'a' <= c <= 'z' || '0' <= c <= '9' }

  /** One to 128 characters: a lower-case letter or digit, then also underscores and hyphens. */
  predicate KeyText(k: string) {
    && k != "" && |k| <= 128 && LowerOrDigit(k[0])
    && forall i :: 0 <= i < |k| ==> LowerOrDigit(k[i]) || k[i] == '_' || k[i] == '-'
  }

  ghost predicate ApprovalVerdict(v: string) { exists k :: KeyText(k) && v == "require_delegator_approval." + k }

  ghost predicate ReviewVerdict(v: string) { exists k :: KeyText(k) && v == "create_safety_review." + k }

  /** The four deny verdicts and the reasons they give. */
  predicate DenyVerdict(v: string, reason: string) {
    || (v == "deny.actor_not_authorized" && reason == "ACTOR_NOT_AUTHORIZED")
    || (v == "deny.external_destination" && reason == "EXTERNAL_DESTINATION")
    || (v == "deny.visibility_expansion" && reason == "VISIBILITY_EXPANSION")
    || (v == "deny.destructive_operation" && reason == "DESTRUCTIVE_OPERATION")
  }

  /** The reason a verdict stands for. */
  ghost predicate StandsFor(v: string, reason: string) {
    DenyVerdict(v, reason) || (ApprovalVerdict(v) && reason == "DELEGATOR_APPROVAL_REQUIRED")
  }

  /** Some verdict stands for the reason. */
  ghost predicate Given(vs: seq<string>, reason: string) { exists i :: 0 <= i < |vs| && StandsFor(vs[i], reason) }

  ghost predicate Legal(v: string) {
    ReviewVerdict(v) || ApprovalVerdict(v) || exists r :: DenyVerdict(v, r)
  }

  // ---------------------------------------------------------------- the classifier

  lemma KeyTextIsPolicyKey(k: string)
    ensures KeyText(k) <==> PolicyKey(k)
  {
  }

  lemma PrefixedKey(v: string, prefix: string)
    ensures (prefix <= v && PolicyKey(v[|prefix|..])) <==> exists k :: KeyText(k) && v == prefix + k
  {
    hide PolicyKey, KeyText;
    if prefix <= v && PolicyKey(v[|prefix|..]) {
      KeyTextIsPolicyKey(v[|prefix|..]);
      assert v == prefix + v[|prefix|..];
    }
    if exists k :: KeyText(k) && v == prefix + k {
      var k :| KeyText(k) && v == prefix + k;
      assert v[|prefix|..] == k;
      KeyTextIsPolicyKey(k);
    }
  }

  lemma PrefixesDiffer(v: string)
    requires DENY_PREFIX <= v
    ensures !(APPROVAL_PREFIX <= v) && !(REVIEW_PREFIX <= v)
  {
    assert DENY_PREFIX[0] == 'd' && APPROVAL_PREFIX[0] == 'r' && REVIEW_PREFIX[0] == 'c';
  }

  lemma ApprovalIsNotReview(v: string)
    requires APPROVAL_PREFIX <= v
    ensures !(REVIEW_PREFIX <= v)
  {
    assert APPROVAL_PREFIX[0] == 'r' && REVIEW_PREFIX[0] == 'c';
  }

  lemma PromptVerdicts(v: string)
    ensures Classify(v) == AsksApproval <==> ApprovalVerdict(v)
    ensures Classify(v) == AsksReview <==> ReviewVerdict(v)
  {
    hide PolicyKey, KeyText, ParseTerminalReason;
    PrefixedKey(v, "require_delegator_approval.");
    PrefixedKey(v, "create_safety_review.");
    if DENY_PREFIX <= v { PrefixesDiffer(v); }
    if APPROVAL_PREFIX <= v { ApprovalIsNotReview(v); }
  }

  // Each lower-case key and its reason.

  lemma ExternalSpelling()
    ensures PolicyKey("external_destination") && Upper("external_destination") == EXTERNAL_DESTINATION
  {
    var u := Upper("external_destination");
    assert u[..10] == EXTERNAL_DESTINATION[..10];
    assert u[10..] == EXTERNAL_DESTINATION[10..];
    assert u == u[..10] + u[10..];
  }

  lemma VisibilitySpelling()
    ensures PolicyKey("visibility_expansion") && Upper("visibility_expansion") == VISIBILITY_EXPANSION
  {
    var u := Upper("visibility_expansion");
    assert u[..10] == VISIBILITY_EXPANSION[..10];
    assert u[10..] == VISIBILITY_EXPANSION[10..];
    assert u == u[..10] + u[10..];
  }

  lemma DestructiveSpelling()
    ensures PolicyKey("destructive_operation") && Upper("destructive_operation") == DESTRUCTIVE_OPERATION
  {
    var u := Upper("destructive_operation");
    assert u[..10] == DESTRUCTIVE_OPERATION[..10];
    assert u[10..] == DESTRUCTIVE_OPERATION[10..];
    assert u == u[..10] + u[10..];
  }

  /** A deny verdict spells its reason in one way. */
  lemma DenySpelling(v: string, key: string, reason: string)
    requires PolicyKey(key) && Upper(key) == reason
    requires ValidReason(reason) && reason != APPROVAL_REQUIRED && reason != POLICY_UNAVAILABLE
    ensures Classify(v) == Denies(reason) <==> v == DENY_PREFIX + key
  {
    if Classify(v) == Denies(reason) {
      var k := v[|DENY_PREFIX|..];
      KeyUpperInjective(k, key);
      assert v == DENY_PREFIX + k;
    }
    if v == DENY_PREFIX + key {
      assert v[|DENY_PREFIX|..] == key;
    }
  }

  lemma ActorText()
    ensures DENY_PREFIX + "actor_not_authorized" == "deny.actor_not_authorized"
  {
  }

  lemma ExternalText()
    ensures DENY_PREFIX + "external_destination" == "deny.external_destination"
  {
  }

  lemma VisibilityText()
    ensures DENY_PREFIX + "visibility_expansion" == "deny.visibility_expansion"
  {
  }

  lemma DestructiveText()
    ensures DENY_PREFIX + "destructive_operation" == "deny.destructive_operation"
  {
  }

  lemma NegotiableReasons()
    ensures ACTOR_NOT_AUTHORIZED != APPROVAL_REQUIRED && ACTOR_NOT_AUTHORIZED != POLICY_UNAVAILABLE
    ensures EXTERNAL_DESTINATION != APPROVAL_REQUIRED && EXTERNAL_DESTINATION != POLICY_UNAVAILABLE
    ensures VISIBILITY_EXPANSION != APPROVAL_REQUIRED && VISIBILITY_EXPANSION != POLICY_UNAVAILABLE
    ensures DESTRUCTIVE_OPERATION != APPROVAL_REQUIRED && DESTRUCTIVE_OPERATION != POLICY_UNAVAILABLE
  {
    assert ACTOR_NOT_AUTHORIZED[0] == 'A' && EXTERNAL_DESTINATION[0] == 'E' && VISIBILITY_EXPANSION[0] == 'V';
    assert DESTRUCTIVE_OPERATION[1] == 'E' && APPROVAL_REQUIRED[0] == 'D' && POLICY_UNAVAILABLE[0] == 'P';
    assert DESTRUCTIVE_OPERATION[0] == 'D' && DESTRUCTIVE_OPERATION[2] == 'S' && APPROVAL_REQUIRED[2] == 'L';
  }

  lemma DeniesExactly(v: string, reason: string)
    ensures Classify(v) == Denies(reason) <==> DenyVerdict(v, reason)
  {
    ActorKey();
    ExternalSpelling();
    VisibilitySpelling();
    DestructiveSpelling();
    hide PolicyKey, Upper;
    NegotiableReasons();
    ActorText();
    ExternalText();
    VisibilityText();
    DestructiveText();
    DenySpelling(v, "actor_not_authorized", ACTOR_NOT_AUTHORIZED);
    DenySpelling(v, "external_destination", EXTERNAL_DESTINATION);
    DenySpelling(v, "visibility_expansion", VISIBILITY_EXPANSION);
    DenySpelling(v, "destructive_operation", DESTRUCTIVE_OPERATION);
    if Classify(v) == Denies(reason) { DeniedReasonIsKnown(v, reason); }
  }

  lemma DeniedReasonIsKnown(v: string, reason: string)
    requires Classify(v) == Denies(reason)
    ensures reason in {ACTOR_NOT_AUTHORIZED, EXTERNAL_DESTINATION, VISIBILITY_EXPANSION, DESTRUCTIVE_OPERATION}
  {
    hide PolicyKey, Upper;
  }

  /** The grammar: the classifier accepts exactly the legal verdicts and reads each as what
      its text says. */
  lemma GrammarExactly(v: string)
    ensures InGrammar(v) <==> Legal(v)
    ensures Classify(v) == AsksReview <==> ReviewVerdict(v)
    ensures Classify(v) == AsksApproval <==> ApprovalVerdict(v)
    ensures forall r :: r in ReasonOf(v) <==> StandsFor(v, r)
  {
    PromptVerdicts(v);
    forall r ensures Classify(v) == Denies(r) <==> DenyVerdict(v, r) { DeniesExactly(v, r); }
    hide Classify, ApprovalVerdict, ReviewVerdict, DenyVerdict;
    match Classify(v)
    case Denies(reason) => assert DenyVerdict(v, reason);
    case _ =>
  }

  // ---------------------------------------------------------------- the mapping

  /** The mapping, said of the verdict texts: it answers exactly when every verdict is legal,
      with the reasons the verdicts stand for, the one high-priority review without
      references exactly when a review verdict is there, and the distinct verdicts, in the
      order first seen, as matched rules of the configured version. */
  lemma MappedExactly(version: string, vs: seq<string>)
    ensures Mapped(version, vs).Ok? <==> forall i :: 0 <= i < |vs| ==> Legal(vs[i])
    ensures Mapped(version, vs).Ok? ==>
              var e := Mapped(version, vs).value;
              && (forall r :: r in e.reasons <==> Given(vs, r))
              && e.effects
                   == (if exists i :: 0 <= i < |vs| && ReviewVerdict(vs[i]) then [SafetyReview("HIGH", [])] else [])
              && e.matchedRuleIds == FirstSeen(vs) && e.policyVersion == version
  {
    hide Classify, InGrammar, ReasonOf, FirstSeen, ReasonsOf, Legal, ReviewVerdict, ApprovalVerdict, StandsFor;
    forall i | 0 <= i < |vs|
      ensures InGrammar(vs[i]) <==> Legal(vs[i])
      ensures Classify(vs[i]) == AsksReview <==> ReviewVerdict(vs[i])
      ensures forall r :: r in ReasonOf(vs[i]) <==> StandsFor(vs[i], r)
    {
      GrammarExactly(vs[i]);
    }
    MappingMeaning(version, vs);
    if Mapped(version, vs).Ok? {
      var e := Mapped(version, vs).value;
      forall r ensures r in e.reasons <==> Given(vs, r) {
        assert r in e.reasons <==> Contributes(vs, r);
      }
      ReviewIsHigh(vs);
    }
  }

  lemma ReviewIsHigh(vs: seq<string>)
    ensures REVIEW == SafetyReview("HIGH", [])
  {
  }

  // ---------------------------------------------------------------- the order of the reasons

  /** The first verdict that stands for a reason. */
  ghost function FirstStanding(vs: seq<string>, r: string): (n: nat)
    requires Given(vs, r)
    ensures n < |vs| && StandsFor(vs[n], r) && forall i :: 0 <= i < n ==> !StandsFor(vs[i], r)
  {
    hide StandsFor;
    if StandsFor(vs[0], r) then 0
    else
      assert exists i :: 0 <= i < |vs[1..]| && StandsFor(vs[1..][i], r) by {
        var i :| 0 <= i < |vs| && StandsFor(vs[i], r);
        assert vs[1..][i - 1] == vs[i];
      }
      assert forall i :: 1 <= i < |vs| ==> vs[1..][i - 1] == vs[i];
      1 + FirstStanding(vs[1..], r)
  }

  lemma FirstStandingUnique(vs: seq<string>, r: string, n: nat)
    requires n < |vs| && StandsFor(vs[n], r) && forall i :: 0 <= i < n ==> !StandsFor(vs[i], r)
    ensures FirstStanding(vs, r) == n
  {
    hide StandsFor;
  }

  lemma StandingReason(v: string, r: string)
    ensures r in ReasonOf(v) <==> StandsFor(v, r)
  {
    hide Classify, StandsFor;
    GrammarExactly(v);
  }

  lemma OneReasonEach(v: string)
    ensures |ReasonOf(v)| <= 1
  {
    hide Classify;
  }

  /** Over the kept verdicts, the reasons come in the order of the verdicts. */
  lemma {:induction false} KeptOrder(vs: seq<string>, x: string, y: string)
    requires x in ReasonsOf(vs) && y in ReasonsOf(vs) && FirstIndex(ReasonsOf(vs), x) < FirstIndex(ReasonsOf(vs), y)
    requires Given(vs, x)
    requires Given(vs, y)
    ensures FirstStanding(vs, x) < FirstStanding(vs, y)
  {
    hide StandsFor, ReasonOf, FirstIndex;
    var n := |vs| - 1;
    var front, last := vs[..n], vs[n];
    OneReasonEach(last);
    StandingReason(last, x);
    StandingReason(last, y);
    KeptReasons(front, x);
    KeptReasons(front, y);
    KeptReasons(vs, y);
    EarlierPart(ReasonsOf(vs), ReasonsOf(front), x, y);
    if y in ReasonsOf(front) {
      KeptSplit(front, last, y);
      KeptSplit(front, last, x);
      KeptOrder(front, x, y);
      FirstStandingUnique(vs, x, FirstStanding(front, x));
      FirstStandingUnique(vs, y, FirstStanding(front, y));
    } else {
      assert y in ReasonOf(last) && ReasonOf(last) == [y];
      FirstStandingUnique(vs, y, n);
      assert x in ReasonsOf(front);
      FirstStandingUnique(vs, x, FirstStanding(front, x));
    }
  }

  lemma {:induction false} KeptReasons(vs: seq<string>, r: string)
    ensures r in ReasonsOf(vs) <==> Given(vs, r)
  {
    hide StandsFor, ReasonOf;
    if vs != [] {
      var n := |vs| - 1;
      KeptReasons(vs[..n], r);
      StandingReason(vs[n], r);
      assert forall i :: 0 <= i < n ==> vs[..n][i] == vs[i];
    }
  }

  lemma KeptSplit(front: seq<string>, last: string, r: string)
    requires r in ReasonsOf(front)
    ensures FirstIndex(ReasonsOf(front + [last]), r) == FirstIndex(ReasonsOf(front), r)
  {
    hide ReasonOf;
    assert (front + [last])[..|front|] == front;
    OneReasonEach(last);
    if ReasonOf(last) == [] {
      assert ReasonsOf(front) + [] == ReasonsOf(front);
    } else {
      assert ReasonOf(last) == [ReasonOf(last)[0]];
      FirstIndexGrows(ReasonsOf(front), ReasonOf(last)[0], r);
    }
  }

  lemma EarlierPart(xs: seq<string>, front: seq<string>, x: string, y: string)
    requires front <= xs && x in xs && y in xs && FirstIndex(xs, x) < FirstIndex(xs, y)
    ensures y in front ==> x in front
  {
    hide FirstIndex;
    assert forall k :: 0 <= k < |front| ==> xs[k] == front[k];
    if y in front {
      var k :| 0 <= k < |front| && front[k] == y;
      assert FirstIndex(xs, y) <= k by {
        assert forall m :: 0 <= m < FirstIndex(xs, y) ==> xs[..FirstIndex(xs, y)][m] == xs[m];
      }
      assert front[FirstIndex(xs, x)] == x;
    }
  }

  /** The kept verdicts stand in the order of their first occurrences, so the first verdict
      that stands for a reason is the first kept one. */
  lemma FirstKept(vs: seq<string>, r: string)
    requires Given(FirstSeen(vs), r)
    ensures Given(vs, r)
    ensures var v := FirstSeen(vs)[FirstStanding(FirstSeen(vs), r)];
            v in vs && FirstStanding(vs, r) == FirstIndex(vs, v)
  {
    hide StandsFor, FirstSeen, FirstIndex;
    FirstSeenMembers(vs);
    var kept := FirstSeen(vs);
    var m := FirstStanding(kept, r);
    assert kept[m] in kept;
    var n := FirstIndex(vs, kept[m]);
    forall i | 0 <= i < n ensures !StandsFor(vs[i], r) {
      assert vs[i] in kept && vs[..n][i] == vs[i];
      var k :| 0 <= k < |kept| && kept[k] == vs[i];
      EarlierKept(vs, m, k, i);
    }
    FirstStandingUnique(vs, r, n);
  }

  lemma EarlierKept(vs: seq<string>, m: nat, k: nat, i: nat)
    requires m < |FirstSeen(vs)| && k < |FirstSeen(vs)| && i < |vs| && FirstSeen(vs)[k] == vs[i]
    requires FirstSeen(vs)[m] in vs && i < FirstIndex(vs, FirstSeen(vs)[m])
    ensures k < m
  {
    hide FirstSeen, FirstIndex;
    FirstSeenMembers(vs);
    var kept := FirstSeen(vs);
    assert vs[i] in vs && FirstIndex(vs, vs[i]) <= i by {
      assert forall j :: 0 <= j < FirstIndex(vs, vs[i]) ==> vs[..FirstIndex(vs, vs[i])][j] == vs[j];
    }
    if m < k { FirstSeenOrder(vs, m, k); }
  }

  /** First-seen order of the mapping: the reasons come in the order of the first verdicts
      that stand for them. */
  lemma MappedOrder(version: string, vs: seq<string>, x: string, y: string)
    requires Mapped(version, vs).Ok?
    requires x in Mapped(version, vs).value.reasons && y in Mapped(version, vs).value.reasons
    requires FirstIndex(Mapped(version, vs).value.reasons, x) < FirstIndex(Mapped(version, vs).value.reasons, y)
    ensures Given(vs, x)
    ensures Given(vs, y)
    ensures FirstStanding(vs, x) < FirstStanding(vs, y)
  {
    hide StandsFor, FirstSeen, FirstIndex, ReasonsOf, AnyVerdict, AllInGrammar;
    var kept := FirstSeen(vs);
    KeptReasons(kept, x);
    KeptReasons(kept, y);
    KeptOrder(kept, x, y);
    FirstKept(vs, x);
    FirstKept(vs, y);
    FirstSeenMembers(vs);
    FirstSeenOrder(vs, FirstStanding(kept, x), FirstStanding(kept, y));
  }

  // ---------------------------------------------------------------- the decision

  ghost predicate AllLegal(vs: seq<string>) { forall i :: 0 <= i < |vs| ==> Legal(vs[i]) }

  /** The whole fail-closed decision, said of the verdict texts. */
  lemma OspreyExactly(version: string, requestedAt: Time, answer: Option<seq<string>>)
    requires FourDigitYear(requestedAt)
    ensures Evaluation(version, requestedAt, answer).Ok?
    ensures Composed(Evaluation(version, requestedAt, answer).value.reasons).Ok?
    ensures var e := Evaluation(version, requestedAt, answer).value;
            var d := Composed(e.reasons).value;
            && (d.typ == "ALLOW" <==>
                  answer.Some? && forall i :: 0 <= i < |answer.value| ==> ReviewVerdict(answer.value[i]))
            && (d.actions == ["REQUIRE_APPROVAL"] <==>
                  && answer.Some? && AllLegal(answer.value) && "deny.actor_not_authorized" !in answer.value
                  && exists i :: 0 <= i < |answer.value| && ApprovalVerdict(answer.value[i]))
            && (!(answer.Some? && AllLegal(answer.value)) ==>
                  d == Decision("DENY", ["POLICY_UNAVAILABLE"], []) && e.effects == [] && e.matchedRuleIds == [])
            && (answer.Some? && AllLegal(answer.value) ==> "POLICY_UNAVAILABLE" !in d.reasons)
  {
    hide Classify, InGrammar, Legal, ReviewVerdict, ApprovalVerdict, Composed, Mapped, StandsFor, ValidReason;
    OspreyFailClosed(version, requestedAt, answer);
    if answer.Some? {
      forall i | 0 <= i < |answer.value|
        ensures InGrammar(answer.value[i]) <==> Legal(answer.value[i])
        ensures Classify(answer.value[i]) == AsksReview <==> ReviewVerdict(answer.value[i])
        ensures Classify(answer.value[i]) == AsksApproval <==> ApprovalVerdict(answer.value[i])
      {
        GrammarExactly(answer.value[i]);
      }
    }
    if answer.Some? && AllLegal(answer.value) {
      NeverInAnswer(version, answer.value);
    } else {
      Unavailable(version, requestedAt, answer);
    }
  }

  lemma NeverInAnswer(version: string, vs: seq<string>)
    requires AllLegal(vs)
    ensures Mapped(version, vs).Ok? && Composed(Mapped(version, vs).value.reasons).Ok?
    ensures "POLICY_UNAVAILABLE" !in Composed(Mapped(version, vs).value.reasons).value.reasons
  {
    hide Mapped, Composed, StandsFor, Legal, ReviewVerdict, FirstSeen;
    MappedExactly(version, vs);
    MappedDecision(version, vs);
    forall i | 0 <= i < |vs| ensures !StandsFor(vs[i], "POLICY_UNAVAILABLE") { NeverUnavailable(vs[i]); }
    assert !Given(vs, "POLICY_UNAVAILABLE");
    UnavailableIsNotApproval();
  }

  lemma UnavailableIsNotApproval()
    ensures "POLICY_UNAVAILABLE" != "DELEGATOR_APPROVAL_REQUIRED"
  {
    assert "POLICY_UNAVAILABLE"[0] == 'P' && "DELEGATOR_APPROVAL_REQUIRED"[0] == 'D';
  }

  lemma Unavailable(version: string, requestedAt: Time, answer: Option<seq<string>>)
    requires FourDigitYear(requestedAt) && !(answer.Some? && AllInGrammar(answer.value))
    ensures var r := Evaluation(version, requestedAt, answer);
            && r.Ok? && r.value.effects == [] && r.value.matchedRuleIds == []
            && Composed(r.value.reasons) == Ok(Decision("DENY", ["POLICY_UNAVAILABLE"], []))
  {
    hide InGrammar, FirstSeen, ReasonsOf, AnyVerdict;
    UnavailableAlone();
  }

  lemma UnavailableAlone()
    ensures Composed([POLICY_UNAVAILABLE]) == Ok(Decision("DENY", ["POLICY_UNAVAILABLE"], []))
  {
    hide Composed, ValidReason, TerminalReason;
    UnavailableIsTerminal();
    ReasonsDiffer();
    LoneTerminal(POLICY_UNAVAILABLE);
  }

  // ---------------------------------------------------------------- decisions explained by their rules

  /** A decision and its effects, explained by the matched rules alone: either the engine
      failed closed, or every rule is a legal verdict and together they say which reasons
      there are, whether the action is allowed or needs approval, and whether it is reviewed. */
  ghost predicate Explains(d: Decision, effects: seq<PolicyEffect>, rules: seq<string>) {
    if "POLICY_UNAVAILABLE" in d.reasons then
      d == Decision("DENY", ["POLICY_UNAVAILABLE"], []) && effects == [] && rules == []
    else
      && AllLegal(rules)
      && (forall r :: r != "DELEGATOR_APPROVAL_REQUIRED" ==>
            (r in d.reasons <==> Given(rules, r)))
      && (d.typ == "ALLOW" <==> forall i :: 0 <= i < |rules| ==> ReviewVerdict(rules[i]))
      && (d.actions == ["REQUIRE_APPROVAL"] <==>
            "deny.actor_not_authorized" !in rules && exists i :: 0 <= i < |rules| && ApprovalVerdict(rules[i]))
      && effects == (if exists i :: 0 <= i < |rules| && ReviewVerdict(rules[i]) then [SafetyReview("HIGH", [])] else [])
  }

  lemma NeverUnavailable(v: string)
    ensures !StandsFor(v, "POLICY_UNAVAILABLE")
  {
    var r := "POLICY_UNAVAILABLE";
    assert r[0] == 'P' && "ACTOR_NOT_AUTHORIZED"[0] == 'A' && "EXTERNAL_DESTINATION"[0] == 'E';
    assert "VISIBILITY_EXPANSION"[0] == 'V' && "DESTRUCTIVE_OPERATION"[0] == 'D';
    assert "DELEGATOR_APPROVAL_REQUIRED"[0] == 'D';
  }

  /** The rules are the answer's verdicts, so they explain what the answer explains. */
  lemma SameVerdicts(vs: seq<string>, r: string)
    ensures AllLegal(FirstSeen(vs)) <==> AllLegal(vs)
    ensures (forall i :: 0 <= i < |FirstSeen(vs)| ==> ReviewVerdict(FirstSeen(vs)[i])) <==>
              forall i :: 0 <= i < |vs| ==> ReviewVerdict(vs[i])
    ensures (exists i :: 0 <= i < |FirstSeen(vs)| && ReviewVerdict(FirstSeen(vs)[i])) <==>
              exists i :: 0 <= i < |vs| && ReviewVerdict(vs[i])
    ensures (exists i :: 0 <= i < |FirstSeen(vs)| && ApprovalVerdict(FirstSeen(vs)[i])) <==>
              exists i :: 0 <= i < |vs| && ApprovalVerdict(vs[i])
    ensures Given(FirstSeen(vs), r) <==> Given(vs, r)
    ensures "deny.actor_not_authorized" in FirstSeen(vs) <==> "deny.actor_not_authorized" in vs
  {
    hide FirstSeen, Legal, ReviewVerdict, ApprovalVerdict, StandsFor;
    FirstSeenMembers(vs);
    var kept := FirstSeen(vs);
    assert forall i :: 0 <= i < |kept| ==> kept[i] in vs;
    assert forall i :: 0 <= i < |vs| ==> vs[i] in kept;
  }

  /** Every decision on an Osprey answer is explained by its matched rules. */
  lemma OspreyExplained(version: string, requestedAt: Time, answer: Option<seq<string>>)
    requires Evaluation(version, requestedAt, answer).Ok?
    ensures var e := Evaluation(version, requestedAt, answer).value;
            Composed(e.reasons).Ok? && Explains(Composed(e.reasons).value, e.effects, e.matchedRuleIds)
  {
    hide Mapped, Composed, StandsFor, Legal, ReviewVerdict, ApprovalVerdict, FirstSeen;
    OspreyExactly(version, requestedAt, answer);
    if answer.Some? && AllLegal(answer.value) {
      var vs := answer.value;
      MappedExactly(version, vs);
      MappedDecision(version, vs);
      forall r ensures Given(FirstSeen(vs), r) <==> Given(vs, r) { SameVerdicts(vs, r); }
      SameVerdicts(vs, "");
    }
  }

  lemma MappedDecision(version: string, vs: seq<string>)
    requires Mapped(version, vs).Ok?
    ensures var reasons := Mapped(version, vs).value.reasons;
            && Composed(reasons).Ok?
            && forall r :: r != "DELEGATOR_APPROVAL_REQUIRED" ==>
                 (r in Composed(reasons).value.reasons <==> r in reasons)
  {
    hide Composed, ReasonsOf, FirstSeen, InGrammar, AnyVerdict, ValidReason, HasTerminal, Without, WellFormed;
    MappedReasons(version, vs);
    ComposeMeaning(Mapped(version, vs).value.reasons);
  }
}
