/** Decisions: reason codes, the deny constructor and the composer's precedence. */
module Decisions {
  import opened Ascending
  import opened Results

  const APPROVAL_REQUIRED := "DELEGATOR_APPROVAL_REQUIRED"
  const EXTERNAL_DESTINATION := "EXTERNAL_DESTINATION"
  const VISIBILITY_EXPANSION := "VISIBILITY_EXPANSION"
  const DESTRUCTIVE_OPERATION := "DESTRUCTIVE_OPERATION"
  const ACTOR_NOT_AUTHORIZED := "ACTOR_NOT_AUTHORIZED"
  const POLICY_UNAVAILABLE := "POLICY_UNAVAILABLE"

  predicate ValidReason(r: string) {
    || r == APPROVAL_REQUIRED || r == EXTERNAL_DESTINATION || r == VISIBILITY_EXPANSION
    || r == DESTRUCTIVE_OPERATION || r == ACTOR_NOT_AUTHORIZED || r == POLICY_UNAVAILABLE
  }

  /** The composer's view: every code outside the four negotiable ones is terminal. */
  predicate TerminalReason(r: string) {
    r != APPROVAL_REQUIRED && r != EXTERNAL_DESTINATION && r != VISIBILITY_EXPANSION && r != DESTRUCTIVE_OPERATION
  }

  lemma ReasonsDiffer()
    ensures TerminalReason(ACTOR_NOT_AUTHORIZED) && TerminalReason(POLICY_UNAVAILABLE)
    ensures APPROVAL_REQUIRED != EXTERNAL_DESTINATION && APPROVAL_REQUIRED != VISIBILITY_EXPANSION
    ensures APPROVAL_REQUIRED != DESTRUCTIVE_OPERATION && EXTERNAL_DESTINATION != VISIBILITY_EXPANSION
  {
    assert EXTERNAL_DESTINATION[0] == 'E' && VISIBILITY_EXPANSION[0] == 'V' && ACTOR_NOT_AUTHORIZED[0] == 'A';
  }

  const REQUIRE_APPROVAL := "REQUIRE_APPROVAL"

  const ALLOW := "ALLOW"
  const DENY := "DENY"

  predicate ValidDecisionType(typ: string) { typ == ALLOW || typ == DENY }

  /** A decision and the types of its required actions. */
  datatype Decision = Decision(typ: string, reasons: seq<string>, actions: seq<string>)

  const ALLOW_DECISION := Decision(ALLOW, [], [])

  predicate AllReasonsValid(reasons: seq<string>) { forall i :: 0 <= i < |reasons| ==> ValidReason(reasons[i]) }

  predicate AllActionsValid(actions: seq<string>) { forall i :: 0 <= i < |actions| ==> actions[i] == REQUIRE_APPROVAL }

  // ---------------------------------------------------------------- first-seen order

  /** Drops repetitions and keeps the first occurrence of every element. */
  function FirstSeen(xs: seq<string>): seq<string> {
    if xs == [] then []
    else
      var front := FirstSeen(xs[..|xs| - 1]);
      if xs[|xs| - 1] in front then front else front + [xs[|xs| - 1]]
  }

  function FirstIndex(xs: seq<string>, x: string): (n: nat)
    requires x in xs
    ensures n < |xs| && xs[n] == x && x !in xs[..n]
  {
    if xs[0] == x then 0
    else
      assert xs == [xs[0]] + xs[1..];
      var n := FirstIndex(xs[1..], x);
      assert xs[..n + 1] == [xs[0]] + xs[1..][..n];
      n + 1
  }

  lemma {:induction false} FirstSeenMembers(xs: seq<string>)
    ensures Distinct(FirstSeen(xs)) && SameElements(FirstSeen(xs), xs)
  {
    if xs != [] {
      FirstSeenMembers(xs[..|xs| - 1]);
      assert xs == xs[..|xs| - 1] + [xs[|xs| - 1]];
    }
  }

  /** The kept elements stand in the order of their first occurrences. */
  lemma {:induction false} FirstSeenOrder(xs: seq<string>, i: nat, j: nat)
    requires i < j < |FirstSeen(xs)| && FirstSeen(xs)[i] in xs && FirstSeen(xs)[j] in xs
    ensures FirstIndex(xs, FirstSeen(xs)[i]) < FirstIndex(xs, FirstSeen(xs)[j])
  {
    var n := |xs| - 1;
    var front, last := xs[..n], xs[n];
    var r := FirstSeen(front);
    assert xs == front + [last];
    FirstSeenMembers(front);
    FirstIndexGrows(front, last, r[i]);
    if j < |r| {
      FirstIndexGrows(front, last, r[j]);
      FirstSeenOrder(front, i, j);
    }
  }

  lemma FirstIndexGrows(front: seq<string>, last: string, x: string)
    requires x in front
    ensures FirstIndex(front + [last], x) == FirstIndex(front, x)
  {
    var n := FirstIndex(front, x);
    assert (front + [last])[..n] == front[..n];
    FirstIndexUnique(front + [last], x, n);
  }

  lemma {:induction false} FirstIndexUnique(xs: seq<string>, x: string, n: nat)
    requires n < |xs| && xs[n] == x && x !in xs[..n]
    ensures x in xs && FirstIndex(xs, x) == n
  {
    if n > 0 {
      assert xs[..n][0] == xs[0] && xs[1..][..n - 1] == xs[..n][1..];
      FirstIndexUnique(xs[1..], x, n - 1);
    }
  }

  lemma {:induction false} FirstSeenFixed(xs: seq<string>)
    requires Distinct(xs)
    ensures FirstSeen(xs) == xs
  {
    if xs != [] {
      var front := xs[..|xs| - 1];
      FirstSeenFixed(front);
      assert xs == front + [xs[|xs| - 1]];
    }
  }

  // ---------------------------------------------------------------- the deny constructor

  function NewDeny(reasons: seq<string>, actions: seq<string>): Result<Decision> {
    if reasons == [] then Err(InvalidArgument)
    else if !AllReasonsValid(reasons) then Err(InvalidReasonCode)
    else if !AllActionsValid(actions) then Err(InvalidRequiredActionType)
    else if (actions != []) != (APPROVAL_REQUIRED in reasons) then Err(InvariantViolation)
    else Ok(Decision(DENY, FirstSeen(reasons), FirstSeen(actions)))
  }

  /** `NewDenyDecision`: two deduplication loops, a search loop and the two invariant checks. */
  method NewDenyDecision(reasons: seq<string>, actions: seq<string>) returns (r: Result<Decision>)
    ensures r == NewDeny(reasons, actions)
  {
    if |reasons| == 0 {
      return Err(InvalidArgument);
    }
    var normalizedReasons: seq<string>, seenReasons: set<string> := [], {};
    for n := 0 to |reasons|
      invariant AllReasonsValid(reasons[..n])
      invariant normalizedReasons == FirstSeen(reasons[..n])
      invariant forall x :: x in seenReasons <==> x in normalizedReasons
    {
      if !ValidReason(reasons[n]) {
        return Err(InvalidReasonCode);
      }
      assert reasons[..n + 1][..n] == reasons[..n];
      if reasons[n] !in seenReasons {
        seenReasons := seenReasons + {reasons[n]};
        normalizedReasons := normalizedReasons + [reasons[n]];
      }
    }
    assert reasons[..|reasons|] == reasons;
    var normalizedActions: seq<string>, seenActions: set<string> := [], {};
    for n := 0 to |actions|
      invariant AllActionsValid(actions[..n])
      invariant normalizedActions == FirstSeen(actions[..n])
      invariant forall x :: x in seenActions <==> x in normalizedActions
    {
      if actions[n] != REQUIRE_APPROVAL {
        return Err(InvalidRequiredActionType);
      }
      assert actions[..n + 1][..n] == actions[..n];
      if actions[n] !in seenActions {
        seenActions := seenActions + {actions[n]};
        normalizedActions := normalizedActions + [actions[n]];
      }
    }
    assert actions[..|actions|] == actions;
    FirstSeenMembers(reasons);
    FirstSeenMembers(actions);
    NonEmptyKept(actions);
    var hasApproval := Contains(normalizedReasons, APPROVAL_REQUIRED);
    if (|normalizedActions| > 0 && !hasApproval) || (hasApproval && |normalizedActions| == 0) {
      return Err(InvariantViolation);
    }
    r := Ok(Decision(DENY, normalizedReasons, normalizedActions));
  }

  lemma NonEmptyKept(xs: seq<string>)
    ensures FirstSeen(xs) == [] <==> xs == []
  {
  }

  // ---------------------------------------------------------------- the composer

  /** `containsReason`: an early-exit scan. */
  method Contains(reasons: seq<string>, target: string) returns (found: bool)
    ensures found <==> target in reasons
  {
    for n := 0 to |reasons|
      invariant target !in reasons[..n]
    {
      if reasons[n] == target {
        return true;
      }
      assert reasons[..n + 1] == reasons[..n] + [reasons[n]];
    }
    assert reasons[..|reasons|] == reasons;
    found := false;
  }

  predicate HasTerminal(reasons: seq<string>) {
    exists i :: 0 <= i < |reasons| && TerminalReason(reasons[i])
  }

  method ContainsTerminalReason(reasons: seq<string>) returns (found: bool)
    ensures found <==> HasTerminal(reasons)
  {
    for n := 0 to |reasons|
      invariant !HasTerminal(reasons[..n])
    {
      if TerminalReason(reasons[n]) {
        return true;
      }
      assert reasons[..n + 1] == reasons[..n] + [reasons[n]];
    }
    assert reasons[..|reasons|] == reasons;
    found := false;
  }

  function Without(reasons: seq<string>, excluded: string): seq<string> {
    if reasons == [] then []
    else
      var front := Without(reasons[..|reasons| - 1], excluded);
      if reasons[|reasons| - 1] == excluded then front else front + [reasons[|reasons| - 1]]
  }

  method WithoutReason(reasons: seq<string>, excluded: string) returns (filtered: seq<string>)
    ensures filtered == Without(reasons, excluded)
  {
    filtered := [];
    for n := 0 to |reasons|
      invariant filtered == Without(reasons[..n], excluded)
    {
      assert reasons[..n + 1][..n] == reasons[..n];
      if reasons[n] != excluded {
        filtered := filtered + [reasons[n]];
      }
    }
    assert reasons[..|reasons|] == reasons;
  }

  lemma {:induction false} WithoutMembers(reasons: seq<string>, excluded: string)
    ensures forall x :: x in Without(reasons, excluded) <==> x in reasons && x != excluded
  {
    if reasons != [] {
      var front := reasons[..|reasons| - 1];
      WithoutMembers(front, excluded);
      assert reasons == front + [reasons[|reasons| - 1]];
    }
  }

  function Composed(reasons: seq<string>): Result<Decision> {
    if reasons == [] then Ok(ALLOW_DECISION)
    else if HasTerminal(reasons) then NewDeny(Without(reasons, APPROVAL_REQUIRED), [])
    else if APPROVAL_REQUIRED in reasons then NewDeny(reasons, [REQUIRE_APPROVAL])
    else NewDeny(reasons, [])
  }

  /** `Compose`. */
  method Compose(reasons: seq<string>) returns (r: Result<Decision>)
    ensures r == Composed(reasons)
  {
    if |reasons| == 0 {
      return Ok(ALLOW_DECISION);
    }
    var terminal := ContainsTerminalReason(reasons);
    if terminal {
      var filtered := WithoutReason(reasons, APPROVAL_REQUIRED);
      r := NewDenyDecision(filtered, []);
      return;
    }
    var approval := Contains(reasons, APPROVAL_REQUIRED);
    if approval {
      r := NewDenyDecision(reasons, [REQUIRE_APPROVAL]);
      return;
    }
    r := NewDenyDecision(reasons, []);
  }

  /** The decision invariant, stated once. */
  ghost predicate WellFormed(d: Decision) {
    if d.typ == ALLOW then d.reasons == [] && d.actions == []
    else
      && d.typ == DENY && d.reasons != [] && Distinct(d.reasons) && AllReasonsValid(d.reasons)
      && d.actions == if APPROVAL_REQUIRED in d.reasons then [REQUIRE_APPROVAL] else []
  }

  lemma {:induction false} FirstSeenActions(actions: seq<string>)
    requires AllActionsValid(actions)
    ensures FirstSeen(actions) == if actions == [] then [] else [REQUIRE_APPROVAL]
  {
    if actions != [] {
      FirstSeenActions(actions[..|actions| - 1]);
    }
  }

  lemma DistinctActions(actions: seq<string>)
    requires AllActionsValid(actions) && Distinct(actions)
    ensures actions == [] || actions == [REQUIRE_APPROVAL]
  {
    FirstSeenFixed(actions);
    FirstSeenActions(actions);
  }

  /** A deny decision satisfies the invariant and keeps exactly the given reasons. */
  lemma NewDenyWellFormed(reasons: seq<string>, actions: seq<string>)
    requires NewDeny(reasons, actions).Ok?
    ensures var d := NewDeny(reasons, actions).value;
            WellFormed(d) && d.typ == DENY && d.reasons == FirstSeen(reasons) && SameElements(d.reasons, reasons)
  {
    hide ValidReason, FirstSeen;
    FirstSeenMembers(reasons);
    FirstSeenActions(actions);
    NonEmptyKept(reasons);
    var d := NewDeny(reasons, actions).value;
    assert AllReasonsValid(d.reasons) by {
      forall i | 0 <= i < |d.reasons| ensures ValidReason(d.reasons[i]) { assert d.reasons[i] in reasons; }
    }
  }

  /** Composition fails exactly on an invalid reason code. */
  lemma ComposeFails(reasons: seq<string>)
    ensures Composed(reasons).Err? <==> !AllReasonsValid(reasons)
  {
    hide ValidReason, FirstSeen, Without;
    if reasons != [] && HasTerminal(reasons) {
      var kept := Without(reasons, APPROVAL_REQUIRED);
      WithoutMembers(reasons, APPROVAL_REQUIRED);
      ApprovalIsValid();
      assert AllReasonsValid(kept) <==> AllReasonsValid(reasons) by {
        assert forall i :: 0 <= i < |kept| ==> kept[i] in reasons;
        assert forall i :: 0 <= i < |reasons| ==> reasons[i] in kept || reasons[i] == APPROVAL_REQUIRED;
      }
      var i :| 0 <= i < |reasons| && TerminalReason(reasons[i]);
      assert reasons[i] in kept;
    } else if reasons != [] {
      var actions := [REQUIRE_APPROVAL];
      assert AllActionsValid(actions);
    }
  }

  lemma ApprovalIsValid()
    ensures ValidReason(APPROVAL_REQUIRED)
  {
  }

  /** What a composed decision contains. Empty input means ALLOW; any other input means
      DENY. Every reason but approval is kept; approval is kept exactly when no terminal
      reason is present; and the decision carries one REQUIRE_APPROVAL exactly then. */
  lemma ComposeMeaning(reasons: seq<string>)
    requires AllReasonsValid(reasons)
    ensures Composed(reasons).Ok?
    ensures var d := Composed(reasons).value;
            && WellFormed(d)
            && (d.typ == ALLOW <==> reasons == [])
            && (forall x :: x != APPROVAL_REQUIRED ==> (x in d.reasons <==> x in reasons))
            && (APPROVAL_REQUIRED in d.reasons <==> APPROVAL_REQUIRED in reasons && !HasTerminal(reasons))
            && (d.actions == [REQUIRE_APPROVAL] <==> APPROVAL_REQUIRED in reasons && !HasTerminal(reasons))
            && d.reasons == FirstSeen(if HasTerminal(reasons) then Without(reasons, APPROVAL_REQUIRED) else reasons)
  {
    hide ValidReason, FirstSeen, Without, NewDeny;
    ComposeFails(reasons);
    WithoutMembers(reasons, APPROVAL_REQUIRED);
    if reasons == [] {
      assert Composed(reasons) == Ok(ALLOW_DECISION);
      assert FirstSeen([]) == [] by { NonEmptyKept([]); }
    } else if HasTerminal(reasons) {
      NewDenyWellFormed(Without(reasons, APPROVAL_REQUIRED), []);
    } else {
      NewDenyWellFormed(reasons, if APPROVAL_REQUIRED in reasons then [REQUIRE_APPROVAL] else []);
    }
  }

  /** Leaving elements out does not reorder the rest. */
  lemma {:induction false} WithoutOrder(reasons: seq<string>, excluded: string, x: string, y: string)
    requires x in Without(reasons, excluded) && y in Without(reasons, excluded) && x in reasons && y in reasons
    requires FirstIndex(Without(reasons, excluded), x) < FirstIndex(Without(reasons, excluded), y)
    ensures FirstIndex(reasons, x) < FirstIndex(reasons, y)
  {
    var n := |reasons| - 1;
    var front, last := reasons[..n], reasons[n];
    assert reasons == front + [last];
    WithoutMembers(front, excluded);
    if y in front {
      FirstIndexGrows(front, last, y);
      if x in front {
        FirstIndexGrows(front, last, x);
        if last != excluded {
          FirstIndexGrows(Without(front, excluded), last, x);
          FirstIndexGrows(Without(front, excluded), last, y);
        }
        WithoutOrder(front, excluded, x, y);
      } else {
        FirstIndexGrows(Without(front, excluded), last, y);
      }
    } else if x in front {
      FirstIndexGrows(front, last, x);
    }
  }

  /** First-seen order of every composed decision, terminal denies included: its reasons stand
      in the order in which the policy first gave them. With `ComposeMeaning`, which says which
      reasons there are, and that none is repeated, this determines the list. */
  lemma ComposedOrder(reasons: seq<string>, i: nat, j: nat)
    requires Composed(reasons).Ok? && i < j < |Composed(reasons).value.reasons|
    ensures var d := Composed(reasons).value;
            && d.reasons[i] in reasons && d.reasons[j] in reasons
            && FirstIndex(reasons, d.reasons[i]) < FirstIndex(reasons, d.reasons[j])
  {
    hide Composed, FirstSeen, Without, HasTerminal, WellFormed, ValidReason;
    ComposeFails(reasons);
    ComposeMeaning(reasons);
    var d := Composed(reasons).value;
    var base := if HasTerminal(reasons) then Without(reasons, APPROVAL_REQUIRED) else reasons;
    FirstSeenMembers(base);
    WithoutMembers(reasons, APPROVAL_REQUIRED);
    FirstSeenOrder(base, i, j);
    assert d.reasons[i] in d.reasons && d.reasons[j] in d.reasons;
    if HasTerminal(reasons) { WithoutOrder(reasons, APPROVAL_REQUIRED, d.reasons[i], d.reasons[j]); }
  }

  /** A terminal reason alone is the whole decision. */
  lemma LoneTerminal(r: string)
    requires ValidReason(r) && TerminalReason(r) && r != APPROVAL_REQUIRED
    ensures Composed([r]) == Ok(Decision(DENY, [r], []))
  {
    hide ValidReason, TerminalReason;
    var reasons := [r];
    assert AllReasonsValid(reasons) && reasons[..0] == [] && reasons[0] == r;
    assert HasTerminal(reasons);
    assert Without(reasons, APPROVAL_REQUIRED) == reasons;
    FirstSeenFixed(reasons);
  }
}
