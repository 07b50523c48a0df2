/** The Osprey adapter: verdict strings become a policy evaluation, and every doubt fails
    closed. */
module Osprey {
  import opened Ascending
  import opened Clock
  import opened Decisions
  import opened Policy
  import opened Results
  import opened Text

  const DENY_PREFIX := "deny."
  const APPROVAL_PREFIX := "require_delegator_approval."
  const REVIEW_PREFIX := "create_safety_review."

  predicate KeyChar(c: char) { 'a' <= c <= 'z' || '0' <= c <= '9' || c == '_' || c == '-' }

  /** The policy key pattern: one lower-case letter or digit, then up to 127 key characters. */
  predicate PolicyKey(s: string) {
    && 1 <= |s| <= 128 && s[0] != '_' && s[0] != '-'
    && forall i :: 0 <= i < |s| ==> KeyChar(s[i])
  }

  function ParseTerminalReason(value: string): Result<string> {
    var reason := Upper(value);
    if !PolicyKey(value) || !ValidReason(reason) || reason == APPROVAL_REQUIRED || reason == POLICY_UNAVAILABLE
    then Err(InvalidReasonCode) else Ok(reason)
  }

  /** What one verdict means. */
  datatype Verdict = Denies(reason: string) | AsksApproval | AsksReview | Unknown

  function Classify(v: string): Verdict {
    if DENY_PREFIX <= v then
      match ParseTerminalReason(v[|DENY_PREFIX|..]) case Ok(reason) => Denies(reason) case Err(_) => Unknown
    else if APPROVAL_PREFIX <= v then
      (if PolicyKey(v[|APPROVAL_PREFIX|..]) then AsksApproval else Unknown)
    else if REVIEW_PREFIX <= v then
      (if PolicyKey(v[|REVIEW_PREFIX|..]) then AsksReview else Unknown)
    else Unknown
  }

  predicate InGrammar(v: string) { !Classify(v).Unknown? }

  predicate AllInGrammar(vs: seq<string>) { forall i :: 0 <= i < |vs| ==> InGrammar(vs[i]) }

  predicate AnyVerdict(vs: seq<string>, kind: Verdict) { exists i :: 0 <= i < |vs| && Classify(vs[i]) == kind }

  function ReasonOf(v: string): seq<string> {
    match Classify(v)
    case Denies(reason) => [reason]
    case AsksApproval => [APPROVAL_REQUIRED]
    case _ => []
  }

  function ReasonsOf(vs: seq<string>): seq<string> {
    if vs == [] then [] else ReasonsOf(vs[..|vs| - 1]) + ReasonOf(vs[|vs| - 1])
  }

  const REVIEW := SafetyReview(HIGH, [])

  /** The evaluation of a verdict list: reasons of the distinct verdicts in first-seen order,
      one review if any verdict asks for it, the distinct verdicts as matched rules. */
  function Mapped(version: string, vs: seq<string>): Result<PolicyEvaluation> {
    if !AllInGrammar(vs) then Err(PolicyUnavailable)
    else
      Ok(PolicyEvaluation(
        ReasonsOf(FirstSeen(vs)), if AnyVerdict(vs, AsksReview) then [REVIEW] else [], FirstSeen(vs), version))
  }

  /** `mapVerdicts`: one pass with a seen-set, a flag and three growing lists. */
  method MapVerdicts(version: string, verdicts: seq<string>) returns (r: Result<PolicyEvaluation>)
    ensures r == Mapped(version, verdicts)
  {
    NoVerdicts();
    hide Classify, FirstSeen, ReasonsOf, AnyVerdict;
    var e := PolicyEvaluation([], [], [], version);
    var seen: set<string>, reviewCreated := {}, false;
    for n := 0 to |verdicts|
      invariant AllInGrammar(verdicts[..n])
      invariant forall x :: x in seen <==> x in verdicts[..n]
      invariant reviewCreated == AnyVerdict(verdicts[..n], AsksReview)
      invariant e == PolicyEvaluation(ReasonsOf(FirstSeen(verdicts[..n])), if reviewCreated then [REVIEW] else [],
                                      FirstSeen(verdicts[..n]), version)
    {
      var verdict := verdicts[n];
      ghost var before := verdicts[..n];
      assert verdicts[..n + 1] == before + [verdict];
      if verdict in seen {
        RepeatedVerdict(before, verdict);
        continue;
      }
      NewVerdict(before, verdict);
      seen := seen + {verdict};
      match Classify(verdict) {
        case Unknown =>
          assert !InGrammar(verdicts[n]);
          return Err(PolicyUnavailable);
        case Denies(reason) => e := e.(reasons := e.reasons + [reason]);
        case AsksApproval => e := e.(reasons := e.reasons + [APPROVAL_REQUIRED]);
        case AsksReview =>
          if !reviewCreated {
            e := e.(effects := e.effects + [REVIEW]);
            reviewCreated := true;
          }
      }
      e := e.(matchedRuleIds := e.matchedRuleIds + [verdict]);
    }
    assert verdicts[..|verdicts|] == verdicts;
    r := Ok(e);
  }

  lemma NoVerdicts()
    ensures FirstSeen([]) == [] && ReasonsOf([]) == [] && !AnyVerdict([], AsksReview)
  {
  }

  lemma RepeatedVerdict(before: seq<string>, v: string)
    requires AllInGrammar(before) && v in before
    ensures AllInGrammar(before + [v]) && FirstSeen(before + [v]) == FirstSeen(before)
    ensures AnyVerdict(before + [v], AsksReview) == AnyVerdict(before, AsksReview)
  {
    hide Classify;
    FirstSeenMembers(before);
    var all := before + [v];
    assert all[..|all| - 1] == before;
    if AnyVerdict(before, AsksReview) {
      var i :| 0 <= i < |before| && Classify(before[i]) == AsksReview;
      assert all[i] == before[i];
    }
  }

  lemma NewVerdict(before: seq<string>, v: string)
    requires v !in before
    ensures FirstSeen(before + [v]) == FirstSeen(before) + [v]
    ensures ReasonsOf(FirstSeen(before + [v])) == ReasonsOf(FirstSeen(before)) + ReasonOf(v)
    ensures AnyVerdict(before + [v], AsksReview) <==> AnyVerdict(before, AsksReview) || Classify(v) == AsksReview
  {
    hide Classify, ReasonOf;
    FirstSeenMembers(before);
    var all := before + [v];
    assert all[..|all| - 1] == before;
    var kept := FirstSeen(before);
    assert (kept + [v])[..|kept|] == kept;
    if AnyVerdict(before, AsksReview) {
      var i :| 0 <= i < |before| && Classify(before[i]) == AsksReview;
      assert all[i] == before[i];
    }
    if Classify(v) == AsksReview { assert all[|before|] == v; }
  }

  // ---------------------------------------------------------------- set semantics

  /** Some verdict of the list stands for the reason. */
  predicate Contributes(vs: seq<string>, reason: string) {
    exists i :: 0 <= i < |vs| && reason in ReasonOf(vs[i])
  }

  lemma {:induction false} ReasonsOfMembers(vs: seq<string>)
    ensures forall r :: r in ReasonsOf(vs) <==> Contributes(vs, r)
  {
    hide ReasonOf;
    if vs != [] {
      var front, last := vs[..|vs| - 1], vs[|vs| - 1];
      ReasonsOfMembers(front);
      forall r ensures Contributes(vs, r) <==> Contributes(front, r) || r in ReasonOf(last) {
        if Contributes(front, r) {
          var i :| 0 <= i < |front| && r in ReasonOf(front[i]);
          assert r in ReasonOf(vs[i]);
        }
        if Contributes(vs, r) {
          var i :| 0 <= i < |vs| && r in ReasonOf(vs[i]);
          assert i < |front| ==> front[i] == vs[i];
        }
      }
    }
  }

  lemma ContributesSubset(vs: seq<string>, ws: seq<string>)
    requires forall v :: v in vs ==> v in ws
    ensures forall r :: Contributes(vs, r) ==> Contributes(ws, r)
  {
    hide ReasonOf;
    forall r | Contributes(vs, r) ensures Contributes(ws, r) {
      var i :| 0 <= i < |vs| && r in ReasonOf(vs[i]);
      assert vs[i] in ws;
      var j :| 0 <= j < |ws| && ws[j] == vs[i];
      assert r in ReasonOf(ws[j]);
    }
  }

  /** The mapping errs exactly on a verdict outside the grammar. Otherwise a reason is present
      exactly when some verdict stands for it, there is one effect exactly when some verdict
      asks for a review, and the matched rules are the distinct verdicts in first-seen order. */
  lemma MappingMeaning(version: string, vs: seq<string>)
    ensures Mapped(version, vs).Err? <==> exists i :: 0 <= i < |vs| && !InGrammar(vs[i])
    ensures Mapped(version, vs).Ok? ==>
              var e := Mapped(version, vs).value;
              && (forall r :: r in e.reasons <==> Contributes(vs, r))
              && |e.effects| <= 1 && (e.effects == [REVIEW] <==> AnyVerdict(vs, AsksReview))
              && e.matchedRuleIds == FirstSeen(vs)
  {
    hide Classify, ReasonOf, InGrammar, FirstSeen, ReasonsOf, Contributes;
    FirstSeenMembers(vs);
    ReasonsOfMembers(FirstSeen(vs));
    ContributesSubset(vs, FirstSeen(vs));
    ContributesSubset(FirstSeen(vs), vs);
  }

  /** The outcome depends only on the set of verdicts: permuting or repeating them can change
      neither the failure, nor the set of reasons, nor the effects. */
  lemma MappingOrderIrrelevant(version: string, vs: seq<string>, ws: seq<string>)
    requires SameElements(vs, ws)
    ensures Mapped(version, vs).Ok? <==> Mapped(version, ws).Ok?
    ensures Mapped(version, vs).Ok? ==>
              && SameElements(Mapped(version, vs).value.reasons, Mapped(version, ws).value.reasons)
              && Mapped(version, vs).value.effects == Mapped(version, ws).value.effects
  {
    hide Classify, ReasonOf, InGrammar, FirstSeen, ReasonsOf, Contributes;
    MappingMeaning(version, vs);
    MappingMeaning(version, ws);
    ContributesSubset(vs, ws);
    ContributesSubset(ws, vs);
    assert forall i :: 0 <= i < |vs| ==> vs[i] in ws;
    assert forall i :: 0 <= i < |ws| ==> ws[i] in vs;
    assert AnyVerdict(vs, AsksReview) <==> AnyVerdict(ws, AsksReview);
  }

  // ---------------------------------------------------------------- fail closed

  function FailClosed(version: string): PolicyEvaluation { PolicyEvaluation([POLICY_UNAVAILABLE], [], [], version) }

  /** `Evaluate`: the action facts must be printable (a JSON time needs a four-digit year);
      after that a coordinator error or an unknown verdict becomes POLICY_UNAVAILABLE. */
  function Evaluation(version: string, requestedAt: Time, answer: Option<seq<string>>): Result<PolicyEvaluation> {
    if !FourDigitYear(requestedAt) then Err(PolicyUnavailable)
    else if answer.None? then Ok(FailClosed(version))
    else
      match Mapped(version, answer.value)
      case Ok(e) => Ok(e)
      case Err(_) => Ok(FailClosed(version))
  }

  const DENY_ACTOR := "deny.actor_not_authorized"

  lemma KeyUpperInjective(a: string, b: string)
    requires |a| == |b| && (forall i :: 0 <= i < |a| ==> KeyChar(a[i]) && KeyChar(b[i])) && Upper(a) == Upper(b)
    ensures a == b
  {
    forall i | 0 <= i < |a| ensures a[i] == b[i] { assert UpperChar(a[i]) == Upper(a)[i] == Upper(b)[i]; }
  }

  lemma ActorKey()
    ensures PolicyKey("actor_not_authorized") && Upper("actor_not_authorized") == ACTOR_NOT_AUTHORIZED
  {
    var u := Upper("actor_not_authorized");
    assert |u| == |ACTOR_NOT_AUTHORIZED| == 20;
    assert u[..10] == ACTOR_NOT_AUTHORIZED[..10];
    assert u[10..] == ACTOR_NOT_AUTHORIZED[10..];
    assert u == u[..10] + u[10..];
  }

  /** Only one verdict spells the terminal reason. */
  lemma DenyActorUnique(v: string)
    ensures Classify(v) == Denies(ACTOR_NOT_AUTHORIZED) <==> v == DENY_ACTOR
  {
    hide PolicyKey, Upper;
    ActorKey();
    DenyActorParts();
    if Classify(v) == Denies(ACTOR_NOT_AUTHORIZED) { DenyActorSpelling(v); }
  }

  lemma DenyActorParts()
    ensures DENY_ACTOR == DENY_PREFIX + "actor_not_authorized" && DENY_PREFIX <= DENY_ACTOR
    ensures DENY_ACTOR[|DENY_PREFIX|..] == "actor_not_authorized"
    ensures ValidReason(ACTOR_NOT_AUTHORIZED)
    ensures ACTOR_NOT_AUTHORIZED != APPROVAL_REQUIRED && ACTOR_NOT_AUTHORIZED != POLICY_UNAVAILABLE
  {
  }

  lemma DenyActorSpelling(v: string)
    requires DENY_PREFIX <= v && PolicyKey(v[|DENY_PREFIX|..]) && Upper(v[|DENY_PREFIX|..]) == ACTOR_NOT_AUTHORIZED
    ensures v == DENY_PREFIX + "actor_not_authorized"
  {
    ActorKey();
    var key := v[|DENY_PREFIX|..];
    hide Upper;
    KeyUpperInjective(key, "actor_not_authorized");
    assert v == DENY_PREFIX + key;
  }

  /** A verdict can only contribute a valid reason, and a terminal one only by naming it. */
  lemma ReasonOfMeaning(v: string)
    ensures forall r :: r in ReasonOf(v) ==> ValidReason(r) && r != POLICY_UNAVAILABLE
    ensures APPROVAL_REQUIRED in ReasonOf(v) <==> Classify(v) == AsksApproval
    ensures ACTOR_NOT_AUTHORIZED in ReasonOf(v) <==> v == DENY_ACTOR
    ensures ReasonOf(v) == [] <==> Classify(v).AsksReview? || Classify(v).Unknown?
  {
    DenyActorUnique(v);
    ReasonsDiffer();
    hide PolicyKey, Upper;
  }

  lemma TerminalMeaning(reasons: seq<string>)
    requires AllReasonsValid(reasons)
    ensures HasTerminal(reasons) <==> ACTOR_NOT_AUTHORIZED in reasons || POLICY_UNAVAILABLE in reasons
  {
    ReasonsDiffer();
    hide ValidReason, TerminalReason;
    forall i | 0 <= i < |reasons|
      ensures TerminalReason(reasons[i]) <==> reasons[i] == ACTOR_NOT_AUTHORIZED || reasons[i] == POLICY_UNAVAILABLE
    {
      OneTerminal(reasons[i]);
    }
  }

  lemma OneTerminal(r: string)
    requires ValidReason(r)
    ensures TerminalReason(r) <==> r == ACTOR_NOT_AUTHORIZED || r == POLICY_UNAVAILABLE
  {
    ReasonsDiffer();
  }

  predicate AllReviews(vs: seq<string>) { forall i :: 0 <= i < |vs| ==> Classify(vs[i]) == AsksReview }

  /** The reasons of a well-formed verdict list, seen as a set. */
  lemma MappedReasons(version: string, vs: seq<string>)
    requires AllInGrammar(vs)
    ensures var reasons := Mapped(version, vs).value.reasons;
            && AllReasonsValid(reasons) && POLICY_UNAVAILABLE !in reasons
            && (reasons == [] <==> AllReviews(vs))
            && (APPROVAL_REQUIRED in reasons <==> AnyVerdict(vs, AsksApproval))
            && (ACTOR_NOT_AUTHORIZED in reasons <==> DENY_ACTOR in vs)
  {
    hide Classify, ReasonOf, FirstSeen, ReasonsOf, ValidReason;
    MappingMeaning(version, vs);
    forall i | 0 <= i < |vs|
      ensures forall r :: r in ReasonOf(vs[i]) ==> ValidReason(r) && r != POLICY_UNAVAILABLE
      ensures APPROVAL_REQUIRED in ReasonOf(vs[i]) <==> Classify(vs[i]) == AsksApproval
      ensures ACTOR_NOT_AUTHORIZED in ReasonOf(vs[i]) <==> vs[i] == DENY_ACTOR
      ensures ReasonOf(vs[i]) == [] <==> Classify(vs[i]) == AsksReview
    {
      ReasonOfMeaning(vs[i]);
    }
    var reasons := Mapped(version, vs).value.reasons;
    assert forall i :: 0 <= i < |reasons| ==> reasons[i] in reasons;
    if !AllReviews(vs) {
      var i :| 0 <= i < |vs| && Classify(vs[i]) != AsksReview;
      assert ReasonOf(vs[i])[0] in reasons;
    } else {
      assert forall r :: !Contributes(vs, r);
      if reasons != [] { NonEmptyDiffers(reasons); }
    }
  }

  /** Fail closed, end to end: after composition ALLOW means that the coordinator answered and
      every verdict was a well-formed review; approval is required exactly when every verdict
      was well formed, one asked for approval and none denied the actor. */
  lemma OspreyFailClosed(version: string, requestedAt: Time, answer: Option<seq<string>>)
    requires FourDigitYear(requestedAt)
    ensures Evaluation(version, requestedAt, answer).Ok?
    ensures var e := Evaluation(version, requestedAt, answer).value;
            && AllReasonsValid(e.reasons) && Composed(e.reasons).Ok?
            && (Composed(e.reasons).value.typ == ALLOW <==> answer.Some? && AllReviews(answer.value))
            && (Composed(e.reasons).value.actions == [REQUIRE_APPROVAL] <==>
                  answer.Some? && AllInGrammar(answer.value) && AnyVerdict(answer.value, AsksApproval)
                  && DENY_ACTOR !in answer.value)
  {
    hide Classify, FirstSeen, ReasonsOf, ValidReason, Without, TerminalReason, Composed, WellFormed, HasTerminal;
    var e := Evaluation(version, requestedAt, answer).value;
    if answer.Some? && AllInGrammar(answer.value) {
      MappedReasons(version, answer.value);
    } else {
      UnavailableIsTerminal();
      assert e.reasons == [POLICY_UNAVAILABLE] && e.reasons[0] == POLICY_UNAVAILABLE;
    }
    TerminalMeaning(e.reasons);
    ComposeMeaning(e.reasons);
    if answer.Some? && AllReviews(answer.value) {
      assert forall i :: 0 <= i < |answer.value| ==> InGrammar(answer.value[i]);
    }
  }

  lemma UnavailableIsTerminal()
    ensures ValidReason(POLICY_UNAVAILABLE) && POLICY_UNAVAILABLE != APPROVAL_REQUIRED
  {
  }

  /** Every evaluation of this adapter passes the service's checks, provided its configured
      version is not blank, and carries at most one effect. */
  lemma OspreyValid(version: string, requestedAt: Time, answer: Option<seq<string>>)
    requires Trim(version) != "" && Evaluation(version, requestedAt, answer).Ok?
    ensures EvaluationValid(Evaluation(version, requestedAt, answer).value)
    ensures |Evaluation(version, requestedAt, answer).value.effects| <= 1
  {
    hide Classify, ReasonsOf, FirstSeen, Trim;
    if answer.Some? && AllInGrammar(answer.value) {
      var kept := FirstSeen(answer.value);
      FirstSeenMembers(answer.value);
      forall i | 0 <= i < |kept| ensures Trim(kept[i]) != "" {
        assert kept[i] in answer.value;
        VerdictNonBlank(kept[i]);
      }
    }
  }

  lemma VerdictNonBlank(v: string)
    requires InGrammar(v)
    ensures Trim(v) != ""
  {
    assert v[0] == 'd' || v[0] == 'r' || v[0] == 'c';
    hide Classify, Trim;
    NonBlank(v);
  }
}
