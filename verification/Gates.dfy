/** The decision invariant and the four gates that restate parts of it: the ledger encoder, the
    SQL CHECK constraints, the ledger decoder and the HTTP response validator. */
module Gates {
  import opened Ascending
  import opened Decisions
  import opened Json
  import opened Results

  function ReasonsText(d: Decision): string { Render(Strings(d.reasons)) }

  function ActionsText(d: Decision): string { Render(Strings(d.actions)) }

  // ---------------------------------------------------------------- the gates

  /** What `encodeEvaluation` checks about a decision. */
  predicate EncoderGate(d: Decision) {
    ValidDecisionType(d.typ) && AllReasonsValid(d.reasons) && AllActionsValid(d.actions)
  }

  /** SQL `instr(text, pattern) > 0`. */
  predicate Occurs(text: string, pattern: string) {
    exists i :: 0 <= i <= |text| - |pattern| && OccursAt(text, pattern, i)
  }

  predicate OccursAt(text: string, pattern: string, i: int) {
    0 <= i <= |text| - |pattern| && forall j :: i <= j < i + |pattern| ==> text[j] == pattern[j - i]
  }

  /** SQL `json_array_length`, or nothing when the text is not a JSON array. */
  function ArrayLength(text: string): Option<nat> {
    match Parse(text) case Done(Arr(items), _) => Some(|items|) case _ => None
  }

  /** The CHECK constraints of the decisions table over the decision columns. */
  predicate SqlGate(typ: string, reasonsText: string, actionsText: string) {
    && (typ == ALLOW || typ == DENY)
    && ArrayLength(reasonsText).Some?
    && (actionsText == "[]" || actionsText == "[\"REQUIRE_APPROVAL\"]")
    && (|| (typ == ALLOW && ArrayLength(reasonsText).value == 0 && actionsText == "[]")
        || (typ == DENY && ArrayLength(reasonsText).value > 0))
    && (|| (Occurs(reasonsText, "\"DELEGATOR_APPROVAL_REQUIRED\"") && actionsText == "[\"REQUIRE_APPROVAL\"]")
        || (!Occurs(reasonsText, "\"DELEGATOR_APPROVAL_REQUIRED\"") && actionsText == "[]"))
  }

  function ParseReason(value: string): Result<string> {
    if ValidReason(value) then Ok(value) else Err(InvalidReasonCode)
  }

  function ParseRequiredAction(value: string): Result<string> {
    if value == REQUIRE_APPROVAL then Ok(value) else Err(InvalidRequiredActionType)
  }

  function DecodeStrings(text: string): Result<seq<string>> {
    match Parse(text) case Fail => Err(Malformed) case Done(j, _) => DecodeArray(AsString, j)
  }

  /** `decodeDecision`. */
  function DecodeDecision(typ: string, reasonsText: string, actionsText: string): Result<Decision> {
    if !ValidDecisionType(typ) then Err(InvalidDecisionType)
    else
      var reasonValues :- DecodeStrings(reasonsText);
      var reasons :- Traverse(ParseReason, reasonValues);
      var actionValues :- DecodeStrings(actionsText);
      var actions :- Traverse(ParseRequiredAction, actionValues);
      if typ == ALLOW then (if reasons != [] || actions != [] then Err(Malformed) else Ok(ALLOW_DECISION))
      else NewDeny(reasons, actions)
  }

  /** `decodeDecision` with its two append loops. */
  method DecodeStoredDecision(typ: string, reasonsText: string, actionsText: string) returns (r: Result<Decision>)
    ensures r == DecodeDecision(typ, reasonsText, actionsText)
  {
    hide DecodeStrings, Traverse, NewDeny, ParseReason, ParseRequiredAction;
    if !ValidDecisionType(typ) {
      return Err(InvalidDecisionType);
    }
    var reasonValues :- DecodeStrings(reasonsText);
    var reasons :- ConvertAll(ParseReason, reasonValues);
    var actionValues :- DecodeStrings(actionsText);
    var actions :- ConvertAll(ParseRequiredAction, actionValues);
    if typ == ALLOW {
      return if reasons != [] || actions != [] then Err(Malformed) else Ok(ALLOW_DECISION);
    }
    r := NewDenyDecision(reasons, actions);
  }

  const API_VERSION := "v1"

  /** What `DecisionResponse.Validate` accepts in a response of the supported version. */
  predicate HttpGate(d: Decision) {
    if d.typ == ALLOW then d.reasons == [] && d.actions == []
    else
      && d.typ == DENY && d.reasons != []
      && AllActionsValid(d.actions)
      && (APPROVAL_REQUIRED in d.reasons <==> |d.actions| == 1)
  }

  /** `DecisionResponse.Validate`: the reason scan sets a flag, the action scan may reject. */
  method ValidateResponse(apiVersion: string, d: Decision) returns (accepted: bool)
    ensures accepted <==> apiVersion == API_VERSION && HttpGate(d)
  {
    if apiVersion != API_VERSION {
      return false;
    }
    if d.typ != ALLOW && d.typ != DENY {
      return false;
    }
    if d.typ == ALLOW {
      return |d.reasons| == 0 && |d.actions| == 0;
    }
    if |d.reasons| == 0 {
      return false;
    }
    var hasApproval := false;
    for n := 0 to |d.reasons|
      invariant hasApproval <==> APPROVAL_REQUIRED in d.reasons[..n]
    {
      assert d.reasons[..n + 1] == d.reasons[..n] + [d.reasons[n]];
      if d.reasons[n] == APPROVAL_REQUIRED {
        hasApproval := true;
      }
    }
    assert d.reasons[..|d.reasons|] == d.reasons;
    for n := 0 to |d.actions|
      invariant AllActionsValid(d.actions[..n])
    {
      if d.actions[n] != REQUIRE_APPROVAL {
        return false;
      }
    }
    assert d.actions[..|d.actions|] == d.actions;
    accepted := hasApproval == (|d.actions| == 1);
  }

  // ---------------------------------------------------------------- substring search

  /** Names made of capitals and underscores print without escapes. */
  predicate PlainName(s: string) {
    s != "" && forall i :: 0 <= i < |s| ==> 'A' <= s[i] <= 'Z' || s[i] == '_'
  }

  lemma {:induction false} PlainEscape(s: string)
    requires forall i :: 0 <= i < |s| ==> 'A' <= s[i] <= 'Z' || s[i] == '_'
    ensures Escape(s) == s
  {
    if s != "" {
      PlainEscape(s[1..]);
      assert s == [s[0]] + s[1..];
    }
  }

  lemma PlainQuote(s: string)
    requires PlainName(s)
    ensures Quote(s) == "\"" + s + "\""
  {
    hide Escape;
    PlainEscape(s);
  }

  lemma PlainReasons(r: string)
    requires ValidReason(r)
    ensures PlainName(r)
  {
  }

  /** The printed list without its opening bracket. */
  function ListTail(xs: seq<string>): string {
    if xs == [] then "]"
    else if |xs| == 1 then "\"" + xs[0] + "\"" + "]"
    else "\"" + xs[0] + "\"" + ("," + ListTail(xs[1..]))
  }

  lemma {:induction false} ItemsText(xs: seq<string>)
    requires forall i :: 0 <= i < |xs| ==> PlainName(xs[i])
    ensures RenderItems(Strings(xs).items) + "]" == ListTail(xs)
  {
    hide PlainName, Quote;
    var items := Strings(xs).items;
    if xs != [] {
      PlainQuote(xs[0]);
      if |xs| > 1 {
        assert items[1..] == Strings(xs[1..]).items;
        ItemsText(xs[1..]);
        var q := "\"" + xs[0] + "\"";
        assert Render(items[0]) == q;
        assert q + "," + RenderItems(items[1..]) + "]" == q + ("," + (RenderItems(items[1..]) + "]"));
      }
    }
  }

  /** An occurrence of a quoted name in a text that starts with a quoted name is either that
      name itself or an occurrence further on. */
  lemma HeadOccurrence(x: string, rest: string, name: string, i: int)
    requires PlainName(x) && PlainName(name) && rest != "" && (rest[0] == ']' || rest[0] == ',')
    requires OccursAt("\"" + x + "\"" + rest, "\"" + name + "\"", i)
    ensures (i == 0 && x == name) || (i >= |x| + 2 && OccursAt(rest, "\"" + name + "\"", i - |x| - 2))
  {
    hide PlainName, OccursAt;
    var head := "\"" + x + "\"";
    QuoteStarts(x, rest, name, i);
    if i == 0 {
      SameQuoted(x, rest, name);
    } else {
      LaterOccurrence(head, rest, "\"" + name + "\"", i);
    }
  }

  lemma LaterOccurrence(head: string, rest: string, pattern: string, i: int)
    requires i >= |head| && OccursAt(head + rest, pattern, i)
    ensures OccursAt(rest, pattern, i - |head|)
  {
    assert forall j :: 0 <= j < |rest| ==> rest[j] == (head + rest)[j + |head|];
  }

  lemma QuoteStarts(x: string, rest: string, name: string, i: int)
    requires PlainName(x) && PlainName(name) && rest != "" && (rest[0] == ']' || rest[0] == ',')
    requires OccursAt("\"" + x + "\"" + rest, "\"" + name + "\"", i)
    ensures i == 0 || i >= |x| + 2
  {
    var text, pattern := "\"" + x + "\"" + rest, "\"" + name + "\"";
    assert forall m :: 1 <= m <= |x| ==> text[m] == x[m - 1] != '"';
    assert text[|x| + 2] == rest[0];
    assert text[i] == pattern[0] && text[i + 1] == pattern[1];
    assert pattern[1] == name[0];
  }

  lemma SameQuoted(x: string, rest: string, name: string)
    requires PlainName(x) && PlainName(name) && OccursAt("\"" + x + "\"" + rest, "\"" + name + "\"", 0)
    ensures x == name
  {
    var text, pattern := "\"" + x + "\"" + rest, "\"" + name + "\"";
    assert forall m :: 1 <= m <= |x| ==> text[m] == x[m - 1] != '"';
    assert forall m :: 1 <= m <= |name| ==> pattern[m] == name[m - 1] != '"';
    assert text[|x| + 1] == '"';
    assert text[|name| + 1] == '"';
    assert |name| == |x|;
    assert forall k :: 0 <= k < |x| ==> x[k] == text[k + 1] == name[k];
  }

  lemma ConsOccurrence(c: char, rest: string, pattern: string)
    requires pattern != "" && pattern[0] != c
    ensures Occurs([c] + rest, pattern) <==> Occurs(rest, pattern)
  {
    var text := [c] + rest;
    assert forall j :: 0 <= j < |rest| ==> rest[j] == text[j + 1];
    forall i | OccursAt(text, pattern, i) ensures OccursAt(rest, pattern, i - 1) {
      assert text[i] == pattern[0];
    }
    forall i | OccursAt(rest, pattern, i) ensures OccursAt(text, pattern, i + 1) {
      assert forall j :: i + 1 <= j < i + 1 + |pattern| ==> text[j] == rest[j - 1];
    }
    OccursMeaning(text, pattern);
    OccursMeaning(rest, pattern);
    hide OccursAt;
  }

  lemma TailOccurrence(head: string, rest: string, pattern: string, i: int)
    requires OccursAt(rest, pattern, i)
    ensures OccursAt(head + rest, pattern, i + |head|)
  {
    assert forall j :: |head| <= j < |head + rest| ==> (head + rest)[j] == rest[j - |head|];
  }

  lemma {:induction false} ListOccurrence(xs: seq<string>, name: string)
    requires PlainName(name) && forall i :: 0 <= i < |xs| ==> PlainName(xs[i])
    ensures Occurs(ListTail(xs), "\"" + name + "\"") <==> name in xs
    decreases xs, 1
  {
    hide PlainName, OccursAt;
    var pattern := "\"" + name + "\"";
    if xs == [] {
      NothingInBracket(pattern);
    } else {
      var rest := if |xs| == 1 then "]" else "," + ListTail(xs[1..]);
      var head := "\"" + xs[0] + "\"";
      assert ListTail(xs) == head + rest;
      assert name in xs <==> name == xs[0] || name in xs[1..];
      RestOccurrence(xs, name);
      forall i | OccursAt(head + rest, pattern, i)
        ensures xs[0] == name || OccursAt(rest, pattern, i - |xs[0]| - 2)
      {
        HeadOccurrence(xs[0], rest, name, i);
      }
      forall i | OccursAt(rest, pattern, i) ensures OccursAt(head + rest, pattern, i + |head|) {
        TailOccurrence(head, rest, pattern, i);
      }
      if xs[0] == name { FirstOccurrence(pattern, rest); }
      OccursMeaning(head + rest, pattern);
      OccursMeaning(rest, pattern);
    }
  }

  lemma {:induction false} RestOccurrence(xs: seq<string>, name: string)
    requires xs != [] && PlainName(name) && forall i :: 0 <= i < |xs| ==> PlainName(xs[i])
    ensures Occurs(if |xs| == 1 then "]" else "," + ListTail(xs[1..]), "\"" + name + "\"") <==> name in xs[1..]
    decreases xs, 0
  {
    hide PlainName, Occurs;
    var pattern := "\"" + name + "\"";
    if |xs| == 1 {
      NothingInBracket(pattern);
    } else {
      ConsOccurrence(',', ListTail(xs[1..]), pattern);
      ListOccurrence(xs[1..], name);
    }
  }

  lemma NothingInBracket(pattern: string)
    requires |pattern| >= 2
    ensures !Occurs("]", pattern)
  {
  }

  lemma FirstOccurrence(pattern: string, rest: string)
    ensures OccursAt(pattern + rest, pattern, 0)
  {
    assert forall j :: 0 <= j < |pattern| ==> (pattern + rest)[j] == pattern[j];
  }

  lemma OccursMeaning(text: string, pattern: string)
    ensures Occurs(text, pattern) <==> exists i :: OccursAt(text, pattern, i)
  {
    forall i | OccursAt(text, pattern, i) ensures 0 <= i <= |text| - |pattern| {}
  }

  lemma ListText(xs: seq<string>)
    requires forall i :: 0 <= i < |xs| ==> PlainName(xs[i])
    ensures Render(Strings(xs)) == ['['] + ListTail(xs)
  {
    hide PlainName, RenderItems, ListTail, Strings;
    ItemsText(xs);
    Bracketed(RenderItems(Strings(xs).items));
  }

  lemma Bracketed(t: string)
    ensures "[" + t + "]" == ['['] + (t + "]")
  {
  }

  lemma ApprovalName()
    ensures PlainName(APPROVAL_REQUIRED) && "\"" + APPROVAL_REQUIRED + "\"" == "\"DELEGATOR_APPROVAL_REQUIRED\""
  {
  }

  /** The SQL substring search on the printed reasons is list membership. */
  lemma SubstringIsMembership(d: Decision)
    requires AllReasonsValid(d.reasons)
    ensures Occurs(ReasonsText(d), "\"DELEGATOR_APPROVAL_REQUIRED\"") <==> APPROVAL_REQUIRED in d.reasons
  {
    hide ValidReason, PlainName, Occurs, Render, ListTail;
    forall i | 0 <= i < |d.reasons| ensures PlainName(d.reasons[i]) { PlainReasons(d.reasons[i]); }
    ApprovalName();
    ListText(d.reasons);
    var pattern := "\"" + APPROVAL_REQUIRED + "\"";
    ConsOccurrence('[', ListTail(d.reasons), pattern);
    ListOccurrence(d.reasons, APPROVAL_REQUIRED);
  }

  lemma ReasonsLength(d: Decision)
    ensures ArrayLength(ReasonsText(d)) == Some(|d.reasons|)
  {
    hide Parse, Render;
    RoundTrip(Strings(d.reasons));
  }

  lemma ActionsTexts(d: Decision)
    requires d.actions == [] || d.actions == [REQUIRE_APPROVAL]
    ensures ActionsText(d) == if d.actions == [] then "[]" else "[\"REQUIRE_APPROVAL\"]"
  {
    hide Render;
    assert forall i :: 0 <= i < |d.actions| ==> PlainName(d.actions[i]);
    ListText(d.actions);
  }

  lemma DecodeStringsText(xs: seq<string>)
    ensures DecodeStrings(Render(Strings(xs))) == Ok(xs)
  {
    hide Parse, Render, Strings, DecodeArray;
    RoundTrip(Strings(xs));
    StringsRoundTrip(xs);
  }

  // ---------------------------------------------------------------- agreement

  /** The columns a decision is stored in. */
  predicate SqlAccepts(d: Decision) { SqlGate(d.typ, ReasonsText(d), ActionsText(d)) }

  function ReadBack(d: Decision): Result<Decision> { DecodeDecision(d.typ, ReasonsText(d), ActionsText(d)) }

  /** The values a stored decision is made of: known codes, listed without repetition. */
  ghost predicate Listed(d: Decision) {
    EncoderGate(d) && Distinct(d.reasons) && Distinct(d.actions)
  }

  lemma ActionsTextExactly(d: Decision)
    requires AllActionsValid(d.actions)
    ensures ActionsText(d) == "[]" <==> d.actions == []
    ensures ActionsText(d) == "[\"REQUIRE_APPROVAL\"]" <==> d.actions == [REQUIRE_APPROVAL]
  {
    hide Parse, Render;
    ActionsTexts(Decision(DENY, [], []));
    ActionsTexts(Decision(DENY, [], [REQUIRE_APPROVAL]));
    DecodeStringsText(d.actions);
    DecodeStringsText([]);
    DecodeStringsText([REQUIRE_APPROVAL]);
  }

  /** The CHECK constraints as a formula over the decision: they see neither repeated reasons
      nor anything but the presence of the approval reason. */
  lemma SqlExactly(d: Decision)
    requires EncoderGate(d)
    ensures SqlAccepts(d) <==>
              if d.typ == ALLOW then d.reasons == [] && d.actions == []
              else d.reasons != [] && d.actions == if APPROVAL_REQUIRED in d.reasons then [REQUIRE_APPROVAL] else []
  {
    hide Occurs, ReasonsText, ActionsText, ArrayLength, ValidReason;
    SubstringIsMembership(d);
    ReasonsLength(d);
    ActionsTextExactly(d);
  }

  /** The decoder as a formula: it forgives repeated reasons and repeated actions alike, since
      the constructor it calls removes both. */
  lemma DecoderExactly(d: Decision)
    requires EncoderGate(d)
    ensures ReadBack(d).Ok? <==>
              if d.typ == ALLOW then d.reasons == [] && d.actions == []
              else d.reasons != [] && (APPROVAL_REQUIRED in d.reasons <==> d.actions != [])
    ensures ReadBack(d).Ok? ==> WellFormed(ReadBack(d).value) && ReadBack(d).value.typ == d.typ
    ensures ReadBack(d).Ok? ==> ReadBack(d).value.reasons == FirstSeen(d.reasons)
  {
    hide Render, DecodeStrings, ValidReason, Traverse, FirstSeen, WellFormed;
    DecodeStringsText(d.reasons);
    DecodeStringsText(d.actions);
    TraverseInverse(ParseReason, d.reasons, d.reasons);
    TraverseInverse(ParseRequiredAction, d.actions, d.actions);
    if d.typ == DENY {
      if NewDeny(d.reasons, d.actions).Ok? { NewDenyWellFormed(d.reasons, d.actions); }
    } else {
      AllowIsWellFormed();
    }
  }

  lemma AllowIsWellFormed()
    ensures WellFormed(ALLOW_DECISION) && FirstSeen([]) == []
  {
  }

  /** The decoder returns the decision it was given exactly when the invariant holds. */
  lemma RoundTripExactly(d: Decision)
    requires EncoderGate(d)
    ensures ReadBack(d) == Ok(d) <==> WellFormed(d)
  {
    hide ReadBack, ValidReason, FirstSeen;
    DecoderExactly(d);
    if WellFormed(d) {
      FirstSeenFixed(d.reasons);
      if d.typ == DENY { SameDecision(d, ReadBack(d).value); }
    }
  }

  lemma SameDecision(d: Decision, e: Decision)
    requires WellFormed(d) && WellFormed(e) && d.typ == e.typ == DENY && d.reasons == e.reasons
    ensures d == e
  {
  }

  // What each gate lets through beside the invariant, as a caller can check it.

  /** REQUIRE_APPROVAL is listed more than once. */
  predicate RepeatedActions(d: Decision) { d.typ == DENY && d.reasons != [] && |d.actions| >= 2 }

  /** A reason is listed more than once in a decision that is in order otherwise. */
  ghost predicate RepeatedReasons(d: Decision) {
    && d.typ == DENY && !Distinct(d.reasons)
    && d.actions == if APPROVAL_REQUIRED in d.reasons then [REQUIRE_APPROVAL] else []
  }

  /** Exactly when two gates agree, for every decision the encoder lets through. SQL and HTTP
      part only on repeated actions without the approval reason, SQL and the decoder only on
      repeated actions with it, and both only on repeated reasons from the invariant. */
  lemma GatesAgreeExactly(d: Decision)
    requires EncoderGate(d)
    ensures (HttpGate(d) <==> SqlAccepts(d)) <==> !(RepeatedActions(d) && APPROVAL_REQUIRED !in d.reasons)
    ensures (ReadBack(d).Ok? <==> SqlAccepts(d)) <==> !(RepeatedActions(d) && APPROVAL_REQUIRED in d.reasons)
    ensures (HttpGate(d) <==> ReadBack(d).Ok?) <==> !RepeatedActions(d)
    ensures (WellFormed(d) <==> SqlAccepts(d)) <==> !RepeatedReasons(d)
    ensures (WellFormed(d) <==> HttpGate(d)) <==>
              !RepeatedReasons(d) && !(RepeatedActions(d) && APPROVAL_REQUIRED !in d.reasons)
    ensures (WellFormed(d) <==> ReadBack(d).Ok?) <==>
              !RepeatedReasons(d) && !(RepeatedActions(d) && APPROVAL_REQUIRED in d.reasons)
    ensures WellFormed(d) <==> ReadBack(d) == Ok(d)
    ensures WellFormed(d) ==> SqlAccepts(d)
    ensures SqlAccepts(d) ==> HttpGate(d) && ReadBack(d).Ok?
  {
    hide SqlAccepts, ReadBack, ValidReason, FirstSeen;
    SqlExactly(d);
    DecoderExactly(d);
    RoundTripExactly(d);
  }

  /** On a decision the encoder lets through, the other three gates all accept exactly when SQL
      does, that is when it is well formed or only repeats reasons, and the three give one
      answer exactly when no action is repeated. */
  lemma EncoderIsWeakest(d: Decision)
    requires EncoderGate(d)
    ensures (SqlAccepts(d) && HttpGate(d) && ReadBack(d).Ok?) <==> SqlAccepts(d)
    ensures (EncoderGate(d) <==> SqlAccepts(d)) <==> WellFormed(d) || RepeatedReasons(d)
    ensures (SqlAccepts(d) <==> HttpGate(d)) && (SqlAccepts(d) <==> ReadBack(d).Ok?) <==> !RepeatedActions(d)
  {
    hide SqlAccepts, ReadBack, HttpGate, EncoderGate, WellFormed;
    GatesAgreeExactly(d);
    SqlOrder(d);
  }

  lemma SqlOrder(d: Decision)
    requires EncoderGate(d)
    ensures SqlAccepts(d) <==> WellFormed(d) || RepeatedReasons(d)
  {
    hide SqlAccepts, ValidReason;
    SqlExactly(d);
  }

  /** Four-gate agreement: on known codes listed without repetition, the domain invariant,
      the SQL constraints, the decoder's round trip and the HTTP validator accept exactly the
      same decisions; the encoder, which looks at codes only, accepts all of them. */
  lemma FourGateAgreement(d: Decision)
    requires Listed(d)
    ensures WellFormed(d) <==> SqlAccepts(d)
    ensures WellFormed(d) <==> ReadBack(d) == Ok(d)
    ensures WellFormed(d) <==> HttpGate(d)
  {
    hide SqlAccepts, ReadBack, HttpGate, WellFormed;
    GatesAgreeExactly(d);
    DistinctActions(d.actions);
  }

  lemma WellFormedListed(d: Decision)
    requires WellFormed(d)
    ensures Listed(d)
  {
  }

  /** Every decision the composer produces passes all four gates and reads back unchanged. */
  lemma ComposedPassesEveryGate(reasons: seq<string>)
    requires Composed(reasons).Ok?
    ensures var d := Composed(reasons).value;
            EncoderGate(d) && SqlAccepts(d) && ReadBack(d) == Ok(d) && HttpGate(d)
  {
    hide SqlAccepts, ReadBack, HttpGate, WellFormed, Composed, EncoderGate;
    ComposeFails(reasons);
    ComposeMeaning(reasons);
    WellFormedListed(Composed(reasons).value);
    FourGateAgreement(Composed(reasons).value);
  }

  /** One input for each way to disagree, all of which the encoder lets through: a repeated
      approval without its reason passes HTTP, with its reason it passes the decoder, and a
      repeated reason passes all four gates against the invariant. */
  lemma DisagreementWitnesses()
    ensures var d := Decision(DENY, [EXTERNAL_DESTINATION], [REQUIRE_APPROVAL, REQUIRE_APPROVAL]);
            EncoderGate(d) && HttpGate(d) && !SqlAccepts(d) && ReadBack(d).Err? && !WellFormed(d)
    ensures var d := Decision(DENY, [APPROVAL_REQUIRED], [REQUIRE_APPROVAL, REQUIRE_APPROVAL]);
            EncoderGate(d) && !HttpGate(d) && !SqlAccepts(d) && ReadBack(d).Ok? && !WellFormed(d)
    ensures var d := Decision(DENY, [EXTERNAL_DESTINATION, EXTERNAL_DESTINATION], []);
            EncoderGate(d) && HttpGate(d) && SqlAccepts(d) && ReadBack(d).Ok? && !WellFormed(d)
    ensures var d := Decision(ALLOW, [EXTERNAL_DESTINATION], []);
            EncoderGate(d) && !HttpGate(d) && !SqlAccepts(d) && ReadBack(d).Err? && !WellFormed(d)
  {
    hide SqlAccepts, ReadBack, ValidReason;
    ReasonsDiffer();
    KnownReasons();
    var twice := [REQUIRE_APPROVAL, REQUIRE_APPROVAL];
    SqlExactly(Decision(DENY, [EXTERNAL_DESTINATION], twice));
    DecoderExactly(Decision(DENY, [EXTERNAL_DESTINATION], twice));
    SqlExactly(Decision(DENY, [APPROVAL_REQUIRED], twice));
    DecoderExactly(Decision(DENY, [APPROVAL_REQUIRED], twice));
    var repeated := [EXTERNAL_DESTINATION, EXTERNAL_DESTINATION];
    assert repeated[0] == repeated[1];
    SqlExactly(Decision(DENY, repeated, []));
    DecoderExactly(Decision(DENY, repeated, []));
    SqlExactly(Decision(ALLOW, [EXTERNAL_DESTINATION], []));
    DecoderExactly(Decision(ALLOW, [EXTERNAL_DESTINATION], []));
  }

  lemma KnownReasons()
    ensures ValidReason(EXTERNAL_DESTINATION) && ValidReason(APPROVAL_REQUIRED) && ALLOW != DENY
  {
  }
}
