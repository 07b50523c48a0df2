/** The canonical text written out: its members, their names and their order, down to the
    characters. */
module CanonicalForm {
  import opened Actions
  import opened Canonical
  import opened Clock
  import opened Digits
  import opened Evidence
  import opened Json
  import opened Parameters
  import opened Principals
  import opened Results

  function Commas(texts: seq<string>): string {
    if texts == [] then ""
    else if |texts| == 1 then texts[0]
    else texts[0] + "," + Commas(texts[1..])
  }

  function Braced(members: seq<string>): string { "{" + Commas(members) + "}" }

  function Bracketed(items: seq<string>): string { "[" + Commas(items) + "]" }

  function Named(name: string, text: string): string { "\"" + name + "\"" + ":" + text }

  function Quotes(xs: seq<string>): seq<string> { seq(|xs|, i requires 0 <= i < |xs| => Quote(xs[i])) }

  function PrincipalText(p: Principal): string { Braced([Named("type", Quote(p.typ)), Named("id", Quote(p.id))]) }

  /** A member that is left out when its value is empty. */
  function Unless(name: string, value: string): seq<string> {
    if value == "" then [] else [Named(name, Quote(value))]
  }

  function ScopeText(s: Scope): string {
    Braced([Named("actionType", Quote(s.actionType))]
           + Unless("destinationScope", s.destinationScope)
           + Unless("requestedScope", s.requestedScope)
           + Unless("deleteMode", s.deleteMode))
  }

  function EvidenceText(e: Evidence): string {
    Braced([Named("type", Quote(e.typ)), Named("evidenceId", Quote(e.id)),
            Named("issuedBy", PrincipalText(e.issuedBy)), Named("scope", ScopeText(e.scope))])
  }

  function ParametersText(p: Parameters): string {
    match p
    case ExternalSend(destination, recipients) =>
      Braced([Named("destinationScope", Quote(destination)), Named("recipients", Bracketed(Quotes(recipients)))])
    case UpdateAccess(current, requested, targets) =>
      Braced([Named("currentScope", Quote(current)), Named("requestedScope", Quote(requested)),
              Named("targetPrincipals", Bracketed(Texts(PrincipalText, targets)))])
    case Delete(mode, recoverable) =>
      Braced([Named("deleteMode", Quote(mode)), Named("recoverable", if recoverable then "true" else "false")])
  }

  function Texts<T>(text: T -> string, xs: seq<T>): (r: seq<string>)
    ensures |r| == |xs| && forall i :: 0 <= i < |r| ==> r[i] == text(xs[i])
  {
    seq(|xs|, i requires 0 <= i < |xs| => text(xs[i]))
  }

  function SizeText(size: Option<Int64>): string { if size.Some? then RenderInt(size.value) else "null" }

  function ActorText(a: Actor): string {
    Braced([Named("agentId", Quote(a.agentId)), Named("runtimeId", Quote(a.runtimeId)),
            Named("sessionId", Quote(a.sessionId))])
  }

  function DelegationText(d: Delegation): string {
    Braced([Named("id", Quote(d.id)), Named("delegator", PrincipalText(d.delegator))])
  }

  function TargetText(t: Target): string {
    Braced([Named("resourceType", Quote(t.resourceType)), Named("resourceId", Quote(t.resourceId))])
  }

  function PayloadText(p: Payload): string {
    Braced([Named("digest", Quote(p.digest)), Named("classification", Bracketed(Quotes(p.classification))),
            Named("sizeBytes", SizeText(p.sizeBytes))])
  }

  function ActionMembers(a: Action): seq<string> {
    [Named("schema", Quote("agent-action-control/action-digest/v1")), Named("type", Quote(a.typ)),
     Named("requestedAt", Quote(CanonicalTime(a.requestedAt))),
     Named("actor", ActorText(a.actor)), Named("delegation", DelegationText(a.delegation)),
     Named("target", TargetText(a.target)), Named("parameters", ParametersText(a.parameters)),
     Named("payload", PayloadText(a.payload)),
     Named("authorizationEvidence", Bracketed(Texts(EvidenceText, a.evidence)))]
  }

  /** The canonical text of an action. */
  function ActionText(a: Action): string { Braced(ActionMembers(a)) }

  // ---------------------------------------------------------------- characters

  /** The characters written with a letter. */
  function Letter(c: char): Option<char> {
    if c == '"' || c == '\\' then Some(c)
    else if c as int == 8 then Some('b')
    else if c as int == 9 then Some('t')
    else if c as int == 10 then Some('n')
    else if c as int == 12 then Some('f')
    else if c as int == 13 then Some('r')
    else None
  }

  lemma EscapedAlone(c: char)
    ensures Escape([c]) == EscapeChar(c)
  {
    hide EscapeChar;
    assert [c][1..] == "";
  }

  lemma HexCharacter(n: nat)
    requires n < 16
    ensures HexDigit(n) == "0123456789abcdef"[n]
  {
  }

  lemma ByteInHex(n: nat)
    requires n < 256
    ensures Hex4(n) == ['0', '0', "0123456789abcdef"[n / 16], "0123456789abcdef"[n % 16]]
  {
    hide HexDigit;
    HexCharacter(0);
    HexCharacter(n / 16);
    HexCharacter(n % 16);
  }

  /** How one character is written inside quotes: quote, backslash and five controls with a
      letter; the other controls, `<`, `>` and `&` by number; the rest as it stands. The two
      line separators are apart, below. */
  lemma EscapesExactly(c: char)
    requires c as int !in {0x2028, 0x2029}
    ensures Escape([c]) ==
              if Letter(c).Some? then ['\\', Letter(c).value]
              else if c as int < 32 || c == '<' || c == '>' || c == '&' then
                ['\\', 'u', '0', '0', "0123456789abcdef"[c as int / 16], "0123456789abcdef"[c as int % 16]]
              else [c]
  {
    EscapedAlone(c);
    hide Escape;
    if c as int < 256 { ByteInHex(c as int); }
    hide Hex4;
  }

  lemma LineSeparatorInHex(n: nat)
    requires n == 0x2028 || n == 0x2029
    ensures Hex4(n) == ['2', '0', '2', if n == 0x2028 then '8' else '9']
  {
    assert n / 16 == 0x202 && 0x202 / 16 == 0x20;
  }

  lemma LineSeparatorEscapes(c: char)
    requires c as int == 0x2028 || c as int == 0x2029
    ensures Escape([c]) == ['\\', 'u', '2', '0', '2', if c as int == 0x2028 then '8' else '9']
  {
    EscapedAlone(c);
    LineSeparatorInHex(c as int);
    hide Escape, Hex4;
  }

  lemma {:induction false} EscapeJoins(s: string, t: string)
    ensures Escape(s + t) == Escape(s) + Escape(t)
  {
    if s == "" {
      assert s + t == t;
    } else {
      assert (s + t)[1..] == s[1..] + t;
      EscapeJoins(s[1..], t);
    }
  }

  // ---------------------------------------------------------------- members

  predicate PlainText(s: string) { forall i :: 0 <= i < |s| ==> IsPlain(s[i]) }

  /** Text without special characters is quoted as it stands. */
  lemma {:induction false} PlainQuoted(s: string)
    requires PlainText(s)
    ensures Escape(s) == s && Quote(s) == "\"" + s + "\""
  {
    if s != "" {
      PlainQuoted(s[1..]);
      assert s == [s[0]] + s[1..];
    }
  }

  predicate Spells(fields: seq<Field>, texts: seq<string>) {
    |texts| == |fields| && forall i :: 0 <= i < |fields| ==> texts[i] == RenderField(fields[i])
  }

  lemma {:induction false} FieldsText(fields: seq<Field>, texts: seq<string>)
    requires Spells(fields, texts)
    ensures RenderFields(fields) == Commas(texts)
  {
    hide RenderField;
    if |fields| > 1 { FieldsText(fields[1..], texts[1..]); }
  }

  lemma ObjectText(fields: seq<Field>, texts: seq<string>)
    requires Spells(fields, texts)
    ensures Render(Obj(fields)) == Braced(texts)
  {
    hide Spells, RenderFields, Commas;
    FieldsText(fields, texts);
  }

  lemma {:induction false} ItemsText(items: seq<Json>, texts: seq<string>)
    requires |texts| == |items| && forall i :: 0 <= i < |items| ==> texts[i] == Render(items[i])
    ensures RenderItems(items) == Commas(texts)
  {
    hide Render;
    if |items| > 1 { ItemsText(items[1..], texts[1..]); }
  }

  lemma ListText<T>(tree: T -> Json, text: T -> string, xs: seq<T>)
    requires forall i :: 0 <= i < |xs| ==> Render(tree(xs[i])) == text(xs[i])
    ensures Render(ArrayOf(tree, xs)) == Bracketed(Texts(text, xs))
  {
    hide RenderItems, Commas;
    ItemsText(ArrayOf(tree, xs).items, Texts(text, xs));
  }

  lemma StringsText(xs: seq<string>)
    ensures Render(Strings(xs)) == Bracketed(Quotes(xs))
  {
    hide RenderItems, Commas, Quote;
    ItemsText(Strings(xs).items, Quotes(xs));
  }

  lemma FieldText(name: string, value: Json)
    requires PlainText(name)
    ensures RenderField(Field(name, value)) == Named(name, Render(value))
  {
    hide Render, Quote;
    PlainQuoted(name);
  }

  lemma StrField(name: string, value: string)
    requires PlainText(name)
    ensures RenderField(Field(name, Str(value))) == Named(name, Quote(value))
  {
    hide Quote, Named, RenderField;
    FieldText(name, Str(value));
  }

  // ---------------------------------------------------------------- parts

  lemma PrincipalLayout(p: Principal)
    ensures Render(PrincipalTree(p)) == PrincipalText(p)
  {
    hide Render, Quote, Braced, Named, RenderField;
    StrField("type", p.typ);
    StrField("id", p.id);
    ObjectText(PrincipalTree(p).fields, [Named("type", Quote(p.typ)), Named("id", Quote(p.id))]);
  }

  lemma UnlessSpells(name: string, value: string)
    requires PlainText(name)
    ensures Spells(Optional(name, value), Unless(name, value))
  {
    hide Quote, Named, RenderField;
    StrField(name, value);
  }

  lemma SpellsBoth(fs: seq<Field>, ts: seq<string>, gs: seq<Field>, us: seq<string>)
    requires Spells(fs, ts) && Spells(gs, us)
    ensures Spells(fs + gs, ts + us)
  {
    hide RenderField;
  }

  lemma ScopeLayout(s: Scope)
    ensures Render(ScopeTree(s)) == ScopeText(s)
  {
    hide Render, Quote, Braced, Named, RenderField, Unless, Optional;
    var fs, ts := [Field("actionType", Str(s.actionType))], [Named("actionType", Quote(s.actionType))];
    StrField("actionType", s.actionType);
    assert Spells(fs, ts);
    hide Spells;
    UnlessSpells("destinationScope", s.destinationScope);
    UnlessSpells("requestedScope", s.requestedScope);
    UnlessSpells("deleteMode", s.deleteMode);
    var d, du := Optional("destinationScope", s.destinationScope), Unless("destinationScope", s.destinationScope);
    var r, ru := Optional("requestedScope", s.requestedScope), Unless("requestedScope", s.requestedScope);
    var m, mu := Optional("deleteMode", s.deleteMode), Unless("deleteMode", s.deleteMode);
    SpellsBoth(fs, ts, d, du);
    SpellsBoth(fs + d, ts + du, r, ru);
    SpellsBoth(fs + d + r, ts + du + ru, m, mu);
    ObjectText(fs + d + r + m, ts + du + ru + mu);
  }

  lemma EvidenceLayout(e: Evidence)
    ensures Render(EvidenceTree(e)) == EvidenceText(e)
  {
    hide Render, Quote, Braced, Named, RenderField, PrincipalTree, PrincipalText, ScopeTree, ScopeText;
    StrField("type", e.typ);
    StrField("evidenceId", e.id);
    FieldText("issuedBy", PrincipalTree(e.issuedBy));
    FieldText("scope", ScopeTree(e.scope));
    PrincipalLayout(e.issuedBy);
    ScopeLayout(e.scope);
    ObjectText(EvidenceTree(e).fields,
               [Named("type", Quote(e.typ)), Named("evidenceId", Quote(e.id)),
                Named("issuedBy", PrincipalText(e.issuedBy)), Named("scope", ScopeText(e.scope))]);
  }

  lemma ParametersLayout(p: Parameters)
    ensures Render(ParametersTree(p)) == ParametersText(p)
  {
    hide Quote, Braced, Named, RenderField, RenderFields, RenderItems, PrincipalTree, PrincipalText;
    hide ArrayOf, Strings, Texts, Quotes, Bracketed;
    match p
    case ExternalSend(destination, recipients) =>
      StrField("destinationScope", destination);
      FieldText("recipients", Strings(recipients));
      StringsText(recipients);
      ObjectText(ParametersTree(p).fields,
                 [Named("destinationScope", Quote(destination)), Named("recipients", Bracketed(Quotes(recipients)))]);
    case UpdateAccess(current, requested, targets) =>
      StrField("currentScope", current);
      StrField("requestedScope", requested);
      FieldText("targetPrincipals", ArrayOf(PrincipalTree, targets));
      PrincipalsText(targets);
      ObjectText(ParametersTree(p).fields,
                 [Named("currentScope", Quote(current)), Named("requestedScope", Quote(requested)),
                  Named("targetPrincipals", Bracketed(Texts(PrincipalText, targets)))]);
    case Delete(mode, recoverable) =>
      StrField("deleteMode", mode);
      FieldText("recoverable", Bool(recoverable));
      ObjectText(ParametersTree(p).fields,
                 [Named("deleteMode", Quote(mode)),
                  Named("recoverable", if recoverable then "true" else "false")]);
  }

  lemma PrincipalsText(xs: seq<Principal>)
    ensures Render(ArrayOf(PrincipalTree, xs)) == Bracketed(Texts(PrincipalText, xs))
  {
    hide Render, PrincipalTree, PrincipalText, Bracketed, ArrayOf, Texts;
    forall i | 0 <= i < |xs| ensures Render(PrincipalTree(xs[i])) == PrincipalText(xs[i]) {
      PrincipalLayout(xs[i]);
    }
    ListText(PrincipalTree, PrincipalText, xs);
  }

  lemma EvidenceListText(xs: seq<Evidence>)
    ensures Render(ArrayOf(EvidenceTree, xs)) == Bracketed(Texts(EvidenceText, xs))
  {
    hide Render, EvidenceTree, EvidenceText, Bracketed, ArrayOf, Texts;
    forall i | 0 <= i < |xs| ensures Render(EvidenceTree(xs[i])) == EvidenceText(xs[i]) {
      EvidenceLayout(xs[i]);
    }
    ListText(EvidenceTree, EvidenceText, xs);
  }

  lemma ActorLayout(a: Actor)
    ensures Render(ActorTree(a)) == ActorText(a)
  {
    hide Render, Quote, Braced, Named, RenderField;
    StrField("agentId", a.agentId);
    StrField("runtimeId", a.runtimeId);
    StrField("sessionId", a.sessionId);
    ObjectText(ActorTree(a).fields,
               [Named("agentId", Quote(a.agentId)), Named("runtimeId", Quote(a.runtimeId)),
                Named("sessionId", Quote(a.sessionId))]);
  }

  lemma DelegationLayout(d: Delegation)
    ensures Render(DelegationTree(d)) == DelegationText(d)
  {
    hide Render, Quote, Braced, Named, RenderField, PrincipalTree, PrincipalText;
    StrField("id", d.id);
    FieldText("delegator", PrincipalTree(d.delegator));
    PrincipalLayout(d.delegator);
    ObjectText(DelegationTree(d).fields, [Named("id", Quote(d.id)), Named("delegator", PrincipalText(d.delegator))]);
  }

  lemma TargetLayout(t: Target)
    ensures Render(TargetTree(t)) == TargetText(t)
  {
    hide Render, Quote, Braced, Named, RenderField;
    StrField("resourceType", t.resourceType);
    StrField("resourceId", t.resourceId);
    ObjectText(TargetTree(t).fields,
               [Named("resourceType", Quote(t.resourceType)), Named("resourceId", Quote(t.resourceId))]);
  }

  lemma PayloadLayout(p: Payload)
    ensures Render(PayloadTree(p)) == PayloadText(p)
  {
    hide Quote, Braced, Named, RenderField, RenderFields, RenderItems, Strings, Quotes, Bracketed, RenderInt;
    StrField("digest", p.digest);
    FieldText("classification", Strings(p.classification));
    StringsText(p.classification);
    FieldText("sizeBytes", SizeTree(p.sizeBytes));
    assert Render(SizeTree(p.sizeBytes)) == SizeText(p.sizeBytes);
    hide Render, SizeTree, SizeText;
    ObjectText(PayloadTree(p).fields,
               [Named("digest", Quote(p.digest)), Named("classification", Bracketed(Quotes(p.classification))),
                Named("sizeBytes", SizeText(p.sizeBytes))]);
  }

  // ---------------------------------------------------------------- the whole text

  lemma ActionLayout(a: Action)
    ensures Render(ActionTree(a)) == ActionText(a)
  {
    hide Render, Quote, Braced, Named, RenderField, PrincipalText, Bracketed, ArrayOf, Texts, CanonicalTime;
    hide ActorTree, DelegationTree, TargetTree, ParametersTree, PayloadTree, EvidenceTree;
    hide ActorText, DelegationText, TargetText, ParametersText, PayloadText, EvidenceText;
    StrField("schema", SCHEMA_V1);
    StrField("type", a.typ);
    StrField("requestedAt", CanonicalTime(a.requestedAt));
    FieldText("actor", ActorTree(a.actor));
    FieldText("delegation", DelegationTree(a.delegation));
    FieldText("target", TargetTree(a.target));
    FieldText("parameters", ParametersTree(a.parameters));
    FieldText("payload", PayloadTree(a.payload));
    FieldText("authorizationEvidence", ArrayOf(EvidenceTree, a.evidence));
    ActorLayout(a.actor);
    DelegationLayout(a.delegation);
    TargetLayout(a.target);
    ParametersLayout(a.parameters);
    PayloadLayout(a.payload);
    EvidenceListText(a.evidence);
    ObjectText(ActionFields(a), ActionMembers(a));
  }

  /** The canonical text of a normal action is exactly the written-out one, and its digest
      is "sha256:" with the hexadecimal sum of that text. */
  lemma CanonicalTextExactly(sha: Hash, a: Action)
    requires NormalAction(a)
    ensures CanonicalText(a) == Ok(ActionText(a))
    ensures ComputeDigest(sha, a) == Ok("sha256:" + HexText(sha(ActionText(a))))
  {
    hide NewProposedAction, ActionTree, ActionText, Render, NormalAction;
    NormalActionFixed(a);
    ActionLayout(a);
  }
}
