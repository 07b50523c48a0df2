/** The ledger's rows and constraints, the encoder in front of them and the reader behind. */
module Ledger {
  import opened Actions
  import opened Canonical
  import opened Clock
  import opened Decisions
  import opened Gates
  import opened Guards
  import opened Json
  import opened Parameters
  import opened Policy
  import opened Results
  import opened Text

  datatype Key = Key(runtimeId: string, requestId: string)

  predicate TrimmedKey(key: Key) {
    Trimmed(key.runtimeId) && Trimmed(key.requestId) && key.runtimeId != "" && key.requestId != ""
  }

  datatype EffectCommit = EffectCommit(effectId: string, effect: PolicyEffect)

  datatype EvaluationCommit = EvaluationCommit(
    key: Key, action: Action, digest: string, decisionId: string, decision: Decision,
    policyVersion: string, matchedRuleIds: seq<string>, effects: seq<EffectCommit>, evaluatedAt: Time)

  datatype DecisionRecord = DecisionRecord(
    decisionId: string, decision: Decision, digest: string,
    policyVersion: string, matchedRuleIds: seq<string>, evaluatedAt: Time)

  datatype StoredEvaluation = StoredEvaluation(key: Key, action: Action, decision: DecisionRecord)

  /** `decisionRecordFromCommit`. */
  function RecordOf(c: EvaluationCommit): DecisionRecord {
    DecisionRecord(c.decisionId, c.decision, c.digest, c.policyVersion, c.matchedRuleIds, c.evaluatedAt)
  }

  // ---------------------------------------------------------------- encoding

  datatype EncodedEffect = EncodedEffect(effectId: string, typ: string, contextJson: string, idempotencyKey: string)

  datatype Encoded = Encoded(
    actionJson: string, reasonsJson: string, requiredJson: string, matchedJson: string, effects: seq<EncodedEffect>)

  function EffectType(e: PolicyEffect): string { CREATE_SAFETY_REVIEW }

  /** The stored context; an empty reference list is a nil slice and prints as null. */
  function ContextText(e: PolicyEffect): string
    requires e.SafetyReview?
  {
    Render(Obj([Field("priority", Str(e.priority)),
                Field("evidenceRefs", if e.evidenceRefs == [] then Null else Strings(e.evidenceRefs))]))
  }

  function IdempotencyKey(sha: Hash, key: Key, typ: string): string {
    DigestText(sha(Render(Strings([key.runtimeId, key.requestId, typ]))))
  }

  function EncodeEffect(sha: Hash, key: Key, e: EffectCommit): EncodedEffect
    requires e.effect.SafetyReview?
  {
    EncodedEffect(Trim(e.effectId), EffectType(e.effect), ContextText(e.effect),
                  IdempotencyKey(sha, key, EffectType(e.effect)))
  }

  /** Every effect has an identifier and a value, and neither identifiers nor types repeat. */
  predicate EffectsAccepted(effects: seq<EffectCommit>) {
    && (forall i :: 0 <= i < |effects| ==> Trim(effects[i].effectId) != "" && effects[i].effect.SafetyReview?)
    && (forall i, j :: 0 <= i < j < |effects| ==>
          && Trim(effects[i].effectId) != Trim(effects[j].effectId)
          && EffectType(effects[i].effect) != EffectType(effects[j].effect))
  }

  function EncodeAll(sha: Hash, key: Key, effects: seq<EffectCommit>): (r: seq<EncodedEffect>)
    requires forall i :: 0 <= i < |effects| ==> effects[i].effect.SafetyReview?
    ensures |r| == |effects| && forall i :: 0 <= i < |r| ==> r[i] == EncodeEffect(sha, key, effects[i])
  {
    seq(|effects|, i requires 0 <= i < |effects| => EncodeEffect(sha, key, effects[i]))
  }

  function EncodedEffects(sha: Hash, key: Key, effects: seq<EffectCommit>): Result<seq<EncodedEffect>> {
    if !EffectsAccepted(effects) then Err(InvalidInput) else Ok(EncodeAll(sha, key, effects))
  }

  /** There is a single effect type, so an accepted commit carries at most one effect. */
  lemma AtMostOneEffect(effects: seq<EffectCommit>)
    ensures EffectsAccepted(effects) <==>
              |effects| <= 1 && forall i :: 0 <= i < |effects| ==>
                  Trim(effects[i].effectId) != "" && effects[i].effect.SafetyReview?
  {
    hide Trim;
    if |effects| > 1 { assert EffectType(effects[0].effect) == EffectType(effects[1].effect); }
  }

  lemma AtMostOneEncoded(sha: Hash, key: Key, effects: seq<EffectCommit>)
    requires EncodedEffects(sha, key, effects).Ok?
    ensures |EncodedEffects(sha, key, effects).value| == |effects| <= 1
  {
    hide EffectsAccepted;
    AtMostOneEffect(effects);
  }

  /** `encodeEffects`: one pass with two seen-sets. */
  method EncodeEffects(sha: Hash, key: Key, effects: seq<EffectCommit>) returns (r: Result<seq<EncodedEffect>>)
    ensures r == EncodedEffects(sha, key, effects)
  {
    hide Trim, EncodeEffect;
    var result: seq<EncodedEffect> := [];
    var seenIds: set<string>, seenTypes: set<string> := {}, {};
    for n := 0 to |effects|
      invariant EffectsAccepted(effects[..n])
      invariant |result| == n && forall i :: 0 <= i < n ==> result[i] == EncodeEffect(sha, key, effects[i])
      invariant forall i :: 0 <= i < n ==>
          Trim(effects[i].effectId) in seenIds && EffectType(effects[i].effect) in seenTypes
      invariant forall x :: x in seenIds ==> exists i :: 0 <= i < n && Trim(effects[i].effectId) == x
      invariant forall x :: x in seenTypes ==> exists i :: 0 <= i < n && EffectType(effects[i].effect) == x
    {
      var effectId, typ := Trim(effects[n].effectId), EffectType(effects[n].effect);
      if effectId == "" || effects[n].effect.NilEffect? || effectId in seenIds || typ in seenTypes {
        assert !EffectsAccepted(effects);
        return Err(InvalidInput);
      }
      seenIds, seenTypes := seenIds + {effectId}, seenTypes + {typ};
      result := result + [EncodeEffect(sha, key, effects[n])];
      assert effects[..n + 1] == effects[..n] + [effects[n]];
    }
    assert effects[..|effects|] == effects;
    assert result == EncodeAll(sha, key, effects);
    r := Ok(result);
  }

  /** `encodeEvaluation`. */
  function Encode(sha: Hash, c: EvaluationCommit): Result<Encoded> {
    if Trim(c.key.runtimeId) == "" || Trim(c.key.requestId) == "" then Err(InvalidInput)
    else if c.action.actor.runtimeId != c.key.runtimeId then Err(InvalidInput)
    else if ComputeDigest(sha, c.action) != Ok(c.digest) || !ValidDigest(c.digest) then Err(InvalidInput)
    else if Trim(c.decisionId) == "" || Trim(c.policyVersion) == "" || c.evaluatedAt == ZERO then Err(InvalidInput)
    else if !AllNonBlank(c.matchedRuleIds) || !EncoderGate(c.decision) then Err(InvalidInput)
    else
      var actionJson :- CanonicalText(c.action);
      var effects :- EncodedEffects(sha, c.key, c.effects);
      Ok(Encoded(actionJson, ReasonsText(c.decision), ActionsText(c.decision),
                 Render(Strings(c.matchedRuleIds)), effects))
  }

  /** `encodeEvaluation` with its scans: nothing is produced unless every check passes. */
  method EncodeEvaluation(sha: Hash, c: EvaluationCommit) returns (r: Result<Encoded>)
    ensures r == Encode(sha, c)
  {
    hide Trim, ComputeDigest, ValidDigest, CanonicalText, EncoderGate, AllNonBlank, ReasonsText;
    hide ActionsText, EncodedEffects, Render, Strings;
    if Trim(c.key.runtimeId) == "" || Trim(c.key.requestId) == "" || c.action.actor.runtimeId != c.key.runtimeId {
      return Err(InvalidInput);
    }
    if ComputeDigest(sha, c.action) != Ok(c.digest) || !ValidDigest(c.digest) {
      return Err(InvalidInput);
    }
    if Trim(c.decisionId) == "" || Trim(c.policyVersion) == "" || c.evaluatedAt == ZERO {
      return Err(InvalidInput);
    }
    var nonBlank := CheckNonBlank(c.matchedRuleIds);
    if !nonBlank || !EncoderGate(c.decision) {
      return Err(InvalidInput);
    }
    var actionJson :- CanonicalText(c.action);
    var effects :- EncodeEffects(sha, c.key, c.effects);
    r := Ok(Encoded(actionJson, ReasonsText(c.decision), ActionsText(c.decision),
                    Render(Strings(c.matchedRuleIds)), effects));
  }

  // ---------------------------------------------------------------- rows and constraints

  datatype RequestRow = RequestRow(
    digest: string, actionType: string, schemaVersion: int, actionJson: string, createdAt: string)

  datatype DecisionRow = DecisionRow(
    decisionId: string, decisionType: string, reasonsJson: string, requiredJson: string,
    policyVersion: string, matchedJson: string, evaluatedAt: string)

  datatype EffectRow = EffectRow(
    decisionId: string, effectType: string, contextJson: string, idempotencyKey: string,
    status: string, attempts: int, createdAt: string)

  /** The three tables. Requests and decisions are keyed by (runtime, request), which is the
      primary key of the first and a unique key of the second; effects by effect id. */
  datatype Tables = Tables(
    requests: map<Key, RequestRow>, decisions: map<Key, DecisionRow>, effects: map<string, EffectRow>)

  const EMPTY := Tables(map[], map[], map[])

  function Member(j: Json, name: string): Json { if j.Obj? then Get(j.fields, name) else Null }

  predicate RequestChecks(key: Key, r: RequestRow) {
    && SqlNonBlank(key.runtimeId) && SqlNonBlank(key.requestId) && SqlNonBlank(r.createdAt)
    && ValidDigest(r.digest) && ValidActionType(r.actionType) && r.schemaVersion == 1
    && match Parse(r.actionJson)
       case Fail => false
       case Done(j, _) =>
         && j.Obj? && Member(j, "type") == Str(r.actionType)
         && Member(Member(j, "actor"), "runtimeId") == Str(key.runtimeId)
         && Member(Member(j, "payload"), "digest").Str?
         && Member(Member(j, "payload"), "content").Null?
         && Member(Member(j, "payload"), "body").Null?
         && Member(Member(j, "payload"), "bytes").Null?
  }

  predicate DecisionChecks(r: DecisionRow) {
    && SqlNonBlank(r.decisionId) && SqlNonBlank(r.policyVersion) && SqlNonBlank(r.evaluatedAt)
    && SqlGate(r.decisionType, r.reasonsJson, r.requiredJson)
    && ArrayLength(r.matchedJson).Some?
  }

  predicate EffectChecks(id: string, r: EffectRow) {
    && SqlNonBlank(id) && SqlNonBlank(r.idempotencyKey) && SqlNonBlank(r.createdAt)
    && r.effectType == CREATE_SAFETY_REVIEW && r.status == "PENDING" && r.attempts >= 0
    && (match Parse(r.contextJson) case Done(Obj(_), _) => true case _ => false)
  }

  datatype Insertion = Inserted(tables: Tables) | Ignored | Rejected

  /** INSERT ... ON CONFLICT (runtime_id, request_id) DO NOTHING. */
  function InsertRequest(t: Tables, key: Key, r: RequestRow): Insertion {
    if !RequestChecks(key, r) then Rejected
    else if key in t.requests then Ignored
    else Inserted(t.(requests := t.requests[key := r]))
  }

  predicate DecisionIdTaken(t: Tables, id: string) {
    exists k :: k in t.decisions && t.decisions[k].decisionId == id
  }

  function InsertDecision(t: Tables, key: Key, r: DecisionRow): Insertion {
    if !DecisionChecks(r) || key in t.decisions || DecisionIdTaken(t, r.decisionId) || key !in t.requests then Rejected
    else Inserted(t.(decisions := t.decisions[key := r]))
  }

  predicate IdempotencyKeyTaken(t: Tables, idempotencyKey: string) {
    exists id :: id in t.effects && t.effects[id].idempotencyKey == idempotencyKey
  }

  function InsertEffect(t: Tables, id: string, r: EffectRow): Insertion {
    if !EffectChecks(id, r) || id in t.effects || IdempotencyKeyTaken(t, r.idempotencyKey)
       || !DecisionIdTaken(t, r.decisionId)
    then Rejected
    else Inserted(t.(effects := t.effects[id := r]))
  }

  // ---------------------------------------------------------------- the rows of a commit

  function RequestRowOf(c: EvaluationCommit, e: Encoded): RequestRow {
    RequestRow(c.digest, c.action.typ, 1, e.actionJson, LedgerTime(c.evaluatedAt))
  }

  function DecisionRowOf(c: EvaluationCommit, e: Encoded): DecisionRow {
    DecisionRow(c.decisionId, c.decision.typ, e.reasonsJson, e.requiredJson, c.policyVersion, e.matchedJson,
                LedgerTime(c.evaluatedAt))
  }

  function EffectRowOf(c: EvaluationCommit, f: EncodedEffect): EffectRow {
    EffectRow(c.decisionId, f.typ, f.contextJson, f.idempotencyKey, "PENDING", 0, LedgerTime(c.evaluatedAt))
  }

  // ---------------------------------------------------------------- reading

  /** What `GetEvaluationByRequestID` makes of the joined row: decode, re-hash, decode. */
  function ReadRow(sha: Hash, key: Key, r: RequestRow, d: DecisionRow): Result<StoredEvaluation> {
    match DecodeAction(r.actionJson)
    case Err(_) => Err(LedgerFailure)
    case Ok(action) =>
      if !ValidDigest(r.digest) || ComputeDigest(sha, action) != Ok(r.digest) then Err(LedgerFailure)
      else
        match DecodeDecision(d.decisionType, d.reasonsJson, d.requiredJson)
        case Err(_) => Err(LedgerFailure)
        case Ok(decision) =>
          match DecodeStrings(d.matchedJson)
          case Err(_) => Err(LedgerFailure)
          case Ok(matched) =>
            match ParseTime(d.evaluatedAt)
            case None => Err(LedgerFailure)
            case Some(at) =>
              Ok(StoredEvaluation(key, action,
                DecisionRecord(d.decisionId, decision, r.digest, d.policyVersion, matched, at)))
  }

  /** `GetEvaluationByRequestID`: the key is trimmed, then looked up in the join. */
  function Lookup(sha: Hash, t: Tables, key: Key): Result<StoredEvaluation> {
    var trimmed := Key(Trim(key.runtimeId), Trim(key.requestId));
    if trimmed.runtimeId == "" || trimmed.requestId == "" then Err(InvalidInput)
    else if trimmed !in t.requests || trimmed !in t.decisions then Err(EvaluationNotFound)
    else ReadRow(sha, trimmed, t.requests[trimmed], t.decisions[trimmed])
  }

  /** `resolveExisting`. */
  function ResolveExisting(existing: StoredEvaluation, digest: string): Result<DecisionRecord> {
    if existing.decision.digest != digest then Err(RequestIdConflict) else Ok(existing.decision)
  }

  // ---------------------------------------------------------------- read-back

  /** A commit as the service builds it, constructed from a normal action and a well-formed
      decision, with the encoding the encoder accepts it with. */
  ghost predicate Accepted(sha: Hash, c: EvaluationCommit, e: Encoded) {
    forall k: nat {:trigger Opened(OfCommits, k)} :: Opened(OfCommits, k) ==>
      && NormalAction(c.action) && WellFormed(c.decision) && Encode(sha, c) == Ok(e)
      && Trimmed(c.key.runtimeId) && Trimmed(c.key.requestId)
  }

  ghost predicate Committable(sha: Hash, c: EvaluationCommit) { exists e :: Accepted(sha, c, e) }

  lemma AcceptedParts(sha: Hash, c: EvaluationCommit, e: Encoded)
    requires Accepted(sha, c, e)
    ensures NormalAction(c.action) && WellFormed(c.decision) && Encode(sha, c) == Ok(e)
    ensures Trimmed(c.key.runtimeId) && Trimmed(c.key.requestId)
  {
    hide NormalAction, WellFormed, Encode, Trimmed;
    assert Opened(OfCommits, 0);
  }

  lemma EncodedIsAccepted(sha: Hash, c: EvaluationCommit)
    requires NormalAction(c.action) && WellFormed(c.decision) && Encode(sha, c).Ok?
    requires Trimmed(c.key.runtimeId) && Trimmed(c.key.requestId)
    ensures Accepted(sha, c, Encode(sha, c).value) && Committable(sha, c)
  {
    hide NormalAction, WellFormed, Encode, Trimmed;
    assert Accepted(sha, c, Encode(sha, c).value);
  }

  lemma CommittableEncodes(sha: Hash, c: EvaluationCommit)
    requires Committable(sha, c)
    ensures Encode(sha, c).Ok? && Accepted(sha, c, Encode(sha, c).value)
  {
    hide Encode, Accepted;
    var e :| Accepted(sha, c, e);
    AcceptedParts(sha, c, e);
  }

  function StoredOf(c: EvaluationCommit): StoredEvaluation { StoredEvaluation(c.key, c.action, RecordOf(c)) }

  /** Both stored instants have a year that their text can carry. */
  predicate Readable(c: EvaluationCommit) { FourDigitYear(c.action.requestedAt) && FourDigitYear(c.evaluatedAt) }

  /** The tables without the request and the decision under one key. */
  function WithoutKey(t: Tables, key: Key): Tables {
    t.(requests := t.requests - {key}, decisions := t.decisions - {key})
  }

  /** The lookup trims its key and the insert does not: the rows under a key might as well not
      be there, as far as any lookup can tell, exactly when the key has outer spaces. */
  lemma UntrimmedKeyIsLost(sha: Hash, t: Tables, key: Key)
    requires key in t.requests && key in t.decisions
    requires Trim(key.runtimeId) != "" && Trim(key.requestId) != ""
    ensures (forall k :: Lookup(sha, t, k) == Lookup(sha, WithoutKey(t, key), k)) <==>
              !(Trimmed(key.runtimeId) && Trimmed(key.requestId))
  {
    hide Trim, Trimmed, ReadRow;
    if Trimmed(key.runtimeId) && Trimmed(key.requestId) {
      ReadRowFound(sha, key, t.requests[key], t.decisions[key]);
      assert Lookup(sha, t, key) != Lookup(sha, WithoutKey(t, key), key);
    } else {
      forall k ensures Lookup(sha, t, k) == Lookup(sha, WithoutKey(t, key), k) {
        assert Key(Trim(k.runtimeId), Trim(k.requestId)) != key;
      }
    }
  }

  lemma ReadRowFound(sha: Hash, key: Key, r: RequestRow, d: DecisionRow)
    ensures ReadRow(sha, key, r, d) != Err(EvaluationNotFound)
  {
    hide ComputeDigest, ValidDigest, DecodeAction, DecodeDecision, DecodeStrings, ParseTime;
  }

  /** Whatever the tables hold, an evaluation that a lookup returns is the one in the two rows
      under its trimmed key, and its action was hashed again to the digest of the row. */
  lemma LookupRehashes(sha: Hash, t: Tables, key: Key)
    ensures Lookup(sha, t, key).Ok? ==>
              var s := Lookup(sha, t, key).value;
              && s.key == Key(Trim(key.runtimeId), Trim(key.requestId)) && s.key in t.requests && s.key in t.decisions
              && var r, d := t.requests[s.key], t.decisions[s.key];
              && DecodeAction(r.actionJson) == Ok(s.action) && ValidDigest(r.digest)
              && ComputeDigest(sha, s.action) == Ok(r.digest) && s.decision.digest == r.digest
              && s.decision.decisionId == d.decisionId && s.decision.policyVersion == d.policyVersion
              && DecodeDecision(d.decisionType, d.reasonsJson, d.requiredJson) == Ok(s.decision.decision)
              && DecodeStrings(d.matchedJson) == Ok(s.decision.matchedRuleIds)
              && ParseTime(d.evaluatedAt) == Some(s.decision.evaluatedAt)
  {
    hide ComputeDigest, ValidDigest, DecodeAction, DecodeDecision, DecodeStrings, ParseTime, Trim;
  }

  /** A stored action that was exchanged is never returned: a row that holds the text of
      action b beside the digest of another action a is a ledger failure, absent a collision. */
  lemma ExchangedActionRefused(sha: Hash, t: Tables, key: Key, a: Action, b: Action)
    requires NormalAction(a) && NormalAction(b) && a != b && Separates(sha, a, b)
    requires Trimmed(key.runtimeId) && Trimmed(key.requestId) && key.runtimeId != "" && key.requestId != ""
    requires key in t.requests && key in t.decisions
    requires Ok(t.requests[key].actionJson) == CanonicalText(b) && Ok(t.requests[key].digest) == ComputeDigest(sha, a)
    ensures Lookup(sha, t, key) == Err(LedgerFailure)
  {
    hide ComputeDigest, ValidDigest, DecodeAction, DecodeDecision, DecodeStrings, ParseTime, Trim, Trimmed;
    hide NormalAction, CanonicalText, Separates, Render, ActionTree;
    CanonicalRoundTrip(b);
    DigestBinds(sha, a, b);
  }

  lemma EncodeErrors(sha: Hash, c: EvaluationCommit)
    requires Encode(sha, c).Err?
    ensures Encode(sha, c).error == InvalidInput
  {
    hide CanonicalText, ReasonsText, ActionsText, EncoderGate, Render, Trimmed, AllNonBlank, Trim;
    hide Strings, EncodeEffect;
    hide EffectsAccepted, ValidDigest;
  }

  lemma EncodeParts(sha: Hash, c: EvaluationCommit)
    requires Encode(sha, c).Ok?
    ensures var e := Encode(sha, c).value;
            && ComputeDigest(sha, c.action) == Ok(c.digest) && ValidDigest(c.digest)
            && CanonicalText(c.action) == Ok(e.actionJson)
            && e.reasonsJson == ReasonsText(c.decision) && e.requiredJson == ActionsText(c.decision)
            && e.matchedJson == Render(Strings(c.matchedRuleIds))
            && EncodedEffects(sha, c.key, c.effects) == Ok(e.effects)
            && Trim(c.key.runtimeId) != "" && Trim(c.key.requestId) != "" && c.action.actor.runtimeId == c.key.runtimeId
            && Trim(c.decisionId) != "" && Trim(c.policyVersion) != "" && c.evaluatedAt != ZERO
            && EncoderGate(c.decision)
  {
    hide ComputeDigest, ValidDigest, CanonicalText, ReasonsText, ActionsText, EncodedEffects;
    hide EncoderGate, Render, Trimmed;
    hide AllNonBlank, Trim, Strings, EncodeEffect;
  }

  lemma ReadRowSucceeds(
      sha: Hash, key: Key, r: RequestRow, d: DecisionRow, a: Action, decision: Decision, matched: seq<string>, at: Time)
    requires DecodeAction(r.actionJson) == Ok(a) && ValidDigest(r.digest) && ComputeDigest(sha, a) == Ok(r.digest)
    requires DecodeDecision(d.decisionType, d.reasonsJson, d.requiredJson) == Ok(decision)
    requires DecodeStrings(d.matchedJson) == Ok(matched) && ParseTime(d.evaluatedAt) == Some(at)
    ensures ReadRow(sha, key, r, d)
              == Ok(StoredEvaluation(key, a,
                      DecisionRecord(d.decisionId, decision, r.digest, d.policyVersion, matched, at)))
  {
    hide ComputeDigest, ValidDigest, DecodeAction, DecodeDecision, DecodeStrings, ParseTime;
  }

  lemma ReadRowFails(sha: Hash, key: Key, r: RequestRow, d: DecisionRow)
    requires DecodeAction(r.actionJson).Err? || ParseTime(d.evaluatedAt).None?
    ensures ReadRow(sha, key, r, d) == Err(LedgerFailure)
  {
    hide ComputeDigest, ValidDigest, DecodeAction, DecodeDecision, DecodeStrings, ParseTime;
  }

  /** Reading back what was written: the stored rows of a commit give exactly its record
      when both years fit, and a ledger failure otherwise; the re-hash never rejects a row
      that decodes. */
  lemma RowsReadBack(sha: Hash, c: EvaluationCommit, e: Encoded)
    requires Accepted(sha, c, e)
    ensures ReadRow(sha, c.key, RequestRowOf(c, e), DecisionRowOf(c, e))
              == if Readable(c) then Ok(StoredOf(c)) else Err(LedgerFailure)
  {
    hide Encode, ComputeDigest, ValidDigest, CanonicalText, DecodeAction, DecodeDecision;
    hide DecodeStrings, ParseTime, LedgerTime;
    hide NormalAction, WellFormed, Render, ReasonsText, ActionsText, Trimmed, Trim, EncodedEffects;
    hide EncoderGate, Strings, ReadRow;
    AcceptedParts(sha, c, e);
    hide Accepted;
    EncodeParts(sha, c);
    CanonicalRoundTrip(c.action);
    TimeRoundTrip(c.evaluatedAt);
    if Readable(c) {
      ReadBackDecision(c.decision);
      DecodeStringsText(c.matchedRuleIds);
      ReadRowSucceeds(sha, c.key, RequestRowOf(c, e), DecisionRowOf(c, e), c.action, c.decision,
                      c.matchedRuleIds, c.evaluatedAt);
    } else {
      ReadRowFails(sha, c.key, RequestRowOf(c, e), DecisionRowOf(c, e));
    }
  }

  /** The first instant after the year 9999, such as 9999-12-31T23:00:00-01:00 in UTC. */
  const YEAR_10000: Time := Instant(10000, 1, 1, 0, 0, 0, 0)

  /** The same request, made at that instant. */
  function Late(sha: Hash, c: EvaluationCommit): EvaluationCommit
    requires ComputeDigest(sha, c.action.(requestedAt := YEAR_10000)).Ok?
  {
    var a := c.action.(requestedAt := YEAR_10000);
    c.(action := a, digest := ComputeDigest(sha, a).value)
  }

  /** Why the years matter: whatever the ledger accepts, it also accepts as a request made in
      the year 10000, and that row can never be read again. */
  lemma LateRequestIsLost(sha: Hash, c: EvaluationCommit)
    requires Committable(sha, c)
    ensures ComputeDigest(sha, c.action.(requestedAt := YEAR_10000)).Ok?
    ensures exists e :: Accepted(sha, Late(sha, c), e)
              && ReadRow(sha, c.key, RequestRowOf(Late(sha, c), e), DecisionRowOf(Late(sha, c), e))
                   == Err(LedgerFailure)
  {
    hide Encode, ReadRow, NormalAction, WellFormed, Trimmed, RequestRowOf, DecisionRowOf, Accepted, CanonicalText;
    CommittableEncodes(sha, c);
    AcceptedParts(sha, c, Encode(sha, c).value);
    var a := c.action.(requestedAt := YEAR_10000);
    Retimed(c.action, YEAR_10000);
    CanonicalRoundTrip(a);
    LateEncodes(sha, c);
    EncodedIsAccepted(sha, Late(sha, c));
    RowsReadBack(sha, Late(sha, c), Encode(sha, Late(sha, c)).value);
  }

  lemma LateEncodes(sha: Hash, c: EvaluationCommit)
    requires Encode(sha, c).Ok? && ComputeDigest(sha, c.action.(requestedAt := YEAR_10000)).Ok?
    requires CanonicalText(c.action.(requestedAt := YEAR_10000)).Ok?
    ensures Encode(sha, Late(sha, c)).Ok?
  {
    hide CanonicalText, ValidDigest, EncoderGate, AllNonBlank, Trim, EncodedEffects, ReasonsText;
    hide ActionsText, Render, Strings, ComputeDigest;
  }

  lemma ReadBackDecision(d: Decision)
    requires WellFormed(d)
    ensures DecodeDecision(d.typ, ReasonsText(d), ActionsText(d)) == Ok(d)
  {
    hide DecodeDecision, ReasonsText, ActionsText, WellFormed;
    WellFormedListed(d);
    FourGateAgreement(d);
  }

  /** Two requests with the same runtime, request and effect type share the idempotency
      key; unless the hash collides, no others do. */
  lemma IdempotencyKeyBinds(sha: Hash, k1: Key, typ1: string, k2: Key, typ2: string)
    requires NoCollision(sha, Render(Strings([k1.runtimeId, k1.requestId, typ1])),
                         Render(Strings([k2.runtimeId, k2.requestId, typ2])))
    ensures IdempotencyKey(sha, k1, typ1) == IdempotencyKey(sha, k2, typ2) <==> k1 == k2 && typ1 == typ2
  {
    hide Render, DigestText;
    var xs, ys := [k1.runtimeId, k1.requestId, typ1], [k2.runtimeId, k2.requestId, typ2];
    if IdempotencyKey(sha, k1, typ1) == IdempotencyKey(sha, k2, typ2) {
      DigestTextInjective(sha(Render(Strings(xs))), sha(Render(Strings(ys))));
      RenderInjective(Strings(xs), Strings(ys));
      StringsRoundTrip(xs);
      StringsRoundTrip(ys);
      assert xs == ys && xs[0] == ys[0] && xs[1] == ys[1] && xs[2] == ys[2];
    }
  }
}
