/** What each stored column of an accepted commit decodes to. */
module Columns {
  import opened Actions
  import opened Canonical
  import opened Clock
  import opened Decisions
  import opened Gates
  import opened Journal
  import opened Json
  import opened Ledger
  import opened Policy
  import opened Results
  import opened Text

  /** The instant a time column can be read back as. */
  function Readback(t: Time): Option<Time> { if FourDigitYear(t) then Some(t) else None }

  /** The request row: the digest, the type and the text of the commit's action under schema
      version 1, created when the commit was evaluated. */
  lemma RequestColumns(sha: Hash, c: EvaluationCommit, e: Encoded)
    requires Accepted(sha, c, e)
    ensures var r := RequestRowOf(c, e);
            && r.actionType == c.action.typ && r.schemaVersion == 1
            && ComputeDigest(sha, c.action) == Ok(r.digest)
            && Parse(r.actionJson) == Parsed.Done(ActionTree(c.action), "")
            && ParseTime(r.createdAt) == Readback(c.evaluatedAt)
  {
    hide Accepted, Encode, NormalAction, WellFormed, CanonicalText, ComputeDigest, ValidDigest, Parse;
    hide Render, ActionTree;
    hide ParseTime, LedgerTime, EncodedEffects, EncoderGate, ReasonsText, ActionsText, Strings, DecodeAction, Trim;
    AcceptedParts(sha, c, e);
    EncodeParts(sha, c);
    CanonicalRoundTrip(c.action);
    RoundTrip(ActionTree(c.action));
    TimeRoundTrip(c.evaluatedAt);
  }

  /** The decision row: the commit's decision, rules, version and time, each in its column. */
  lemma DecisionColumns(sha: Hash, c: EvaluationCommit, e: Encoded)
    requires Accepted(sha, c, e)
    ensures var d := DecisionRowOf(c, e);
            && d.decisionId == c.decisionId && d.decisionType == c.decision.typ && d.policyVersion == c.policyVersion
            && DecodeStrings(d.reasonsJson) == Ok(c.decision.reasons)
            && DecodeStrings(d.requiredJson) == Ok(c.decision.actions)
            && DecodeStrings(d.matchedJson) == Ok(c.matchedRuleIds)
            && ParseTime(d.evaluatedAt) == Readback(c.evaluatedAt)
  {
    hide Accepted, Encode, NormalAction, WellFormed, CanonicalText, ComputeDigest, ValidDigest, DecodeStrings, Render;
    hide ParseTime, LedgerTime, EncodedEffects, EncoderGate, Strings, Trim;
    AcceptedParts(sha, c, e);
    EncodeParts(sha, c);
    DecodeStringsText(c.decision.reasons);
    DecodeStringsText(c.decision.actions);
    DecodeStringsText(c.matchedRuleIds);
    TimeRoundTrip(c.evaluatedAt);
  }

  /** The stored context of a review; an empty reference list is stored as null. */
  function ReviewContext(priority: string, refs: seq<string>): Json {
    Obj([Field("priority", Str(priority)), Field("evidenceRefs", if refs == [] then Null else Strings(refs))])
  }

  lemma ContextHolds(e: PolicyEffect)
    requires e.SafetyReview?
    ensures Parse(ContextText(e)) == Parsed.Done(ReviewContext(e.priority, e.evidenceRefs), "")
  {
    hide Parse, Render, Strings;
    RoundTrip(ReviewContext(e.priority, e.evidenceRefs));
  }

  lemma OneEffectMap(c: EvaluationCommit, fs: seq<EncodedEffect>)
    requires |fs| <= 1
    ensures EffectMap(c, fs) == if fs == [] then map[] else map[fs[0].effectId := EffectRowOf(c, fs[0])]
  {
    hide EffectRowOf;
    if fs != [] { assert fs[..0] == []; }
  }

  /** The one effect of an accepted commit is its one effect row. */
  lemma EffectStored(sha: Hash, c: EvaluationCommit)
    requires Encode(sha, c).Ok?
    ensures |c.effects| <= 1
    ensures c.effects == [] ==> EffectsOf(sha, c) == map[]
    ensures c.effects != [] ==>
              && c.effects[0].effect.SafetyReview? && Trim(c.effects[0].effectId) in EffectsOf(sha, c)
              && var f := EncodeEffect(sha, c.key, c.effects[0]);
                 EffectsOf(sha, c) == map[f.effectId := EffectRowOf(c, f)]
  {
    hide Encode, ComputeDigest, CanonicalText, ValidDigest, EncoderGate, Trim, EffectsAccepted, EffectMap;
    hide EffectRowOf, EffectType, ContextText, IdempotencyKey, ReasonsText, ActionsText, Render, Strings;
    EncodeParts(sha, c);
    AtMostOneEffect(c.effects);
    var fs := Encode(sha, c).value.effects;
    if c.effects != [] { assert fs == [EncodeEffect(sha, c.key, c.effects[0])]; }
    OneEffectMap(c, fs);
  }

  /** The effect row: the commit's own effect, pending and never attempted, under its decision,
      its identifier and the hash of (runtime, request, type). */
  lemma EffectColumns(sha: Hash, c: EvaluationCommit, id: string)
    requires Encode(sha, c).Ok? && id in EffectsOf(sha, c)
    ensures |c.effects| == 1 && c.effects[0].effect.SafetyReview?
    ensures var row, effect := EffectsOf(sha, c)[id], c.effects[0].effect;
            && id == Trim(c.effects[0].effectId) && row.decisionId == c.decisionId
            && row.effectType == "CREATE_SAFETY_REVIEW" && row.status == "PENDING" && row.attempts == 0
            && Parse(row.contextJson) == Parsed.Done(ReviewContext(effect.priority, effect.evidenceRefs), "")
            && row.idempotencyKey ==
                 "sha256:" + HexText(sha(Render(Strings([c.key.runtimeId, c.key.requestId, "CREATE_SAFETY_REVIEW"]))))
            && ParseTime(row.createdAt) == Readback(c.evaluatedAt)
  {
    hide Encode, EffectsOf, Trim, Parse, Render, ParseTime, LedgerTime, Strings, ReviewContext, HexText;
    hide ContextText;
    EffectStored(sha, c);
    ContextHolds(c.effects[0].effect);
    TimeRoundTrip(c.evaluatedAt);
  }
}
