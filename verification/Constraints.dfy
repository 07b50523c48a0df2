/** When the SQL constraints accept the rows of a commit: one whole transaction on its own. */
module Constraints {
  import opened Actions
  import opened Canonical
  import opened Clock
  import opened Decisions
  import opened Digits
  import opened Gates
  import opened Journal
  import opened Json
  import opened Ledger
  import opened Parameters
  import opened Policy
  import opened Results
  import opened Service
  import opened Text

  lemma TrimmedNonBlank(s: string)
    requires Trimmed(s) && s != ""
    ensures SqlNonBlank(s) <==> s[0] != NUL
  {
  }

  lemma TimeTextNonBlank(t: Time)
    ensures SqlNonBlank(LedgerTime(t))
  {
    hide DateTimeText, FractionText;
    var y := YearText(t.year);
    assert y != "" && (y[0] == '-' || IsDigit(y[0]));
    assert LedgerTime(t)[0] == y[0];
  }

  lemma DigestNonBlank(s: string)
    requires ValidDigest(s)
    ensures SqlNonBlank(s)
  {
    assert s[0] == DIGEST_PREFIX[0] == 's';
  }

  /** The members the request constraint extracts from the stored action. */
  lemma ExtractedMembers(a: Action)
    ensures var j := ActionTree(a);
            && Member(j, "type") == Str(a.typ)
            && Member(Member(j, "actor"), "runtimeId") == Str(a.actor.runtimeId)
            && Member(Member(j, "payload"), "digest") == Str(a.payload.digest)
            && Member(Member(j, "payload"), "content").Null?
            && Member(Member(j, "payload"), "body").Null?
            && Member(Member(j, "payload"), "bytes").Null?
  {
    hide DelegationTree, TargetTree, ParametersTree, EvidenceTree, CanonicalTime, ArrayOf, Get;
    ActionFieldValues(a);
    ActorFieldValues(a.actor);
    PayloadFields(a.payload);
  }

  lemma PayloadFields(p: Payload)
    ensures var fields := PayloadTree(p).fields;
            && Get(fields, "digest") == Str(p.digest)
            && Get(fields, "content").Null? && Get(fields, "body").Null? && Get(fields, "bytes").Null?
  {
    hide SizeTree, Strings;
    var fields := PayloadTree(p).fields;
    GetField(fields, 0);
    GetAbsent(fields, "content");
    GetAbsent(fields, "body");
    GetAbsent(fields, "bytes");
  }

  lemma {:induction false} GetAbsent(fields: seq<Field>, name: string)
    requires forall i :: 0 <= i < |fields| ==> fields[i].name != name
    ensures Get(fields, name).Null?
  {
    if fields != [] { GetAbsent(fields[..|fields| - 1], name); }
  }

  /** Requests: only an identifier that starts with NUL is refused. */
  lemma RequestRowAccepted(sha: Hash, c: EvaluationCommit, e: Encoded)
    requires Accepted(sha, c, e)
    ensures RequestChecks(c.key, RequestRowOf(c, e)) <==>
              SqlNonBlank(c.key.runtimeId) && SqlNonBlank(c.key.requestId)
  {
    hide Encode, NormalAction, WellFormed, Trimmed, SqlNonBlank, ValidDigest, ComputeDigest;
    hide CanonicalText, Parse, Render, ActionTree;
    hide Member, LedgerTime, Trim, DecodeAction, EncodedEffects, EncoderGate, ReasonsText;
    hide ActionsText, Strings, ValidActionType;
    AcceptedParts(sha, c, e);
    EncodeParts(sha, c);
    CanonicalRoundTrip(c.action);
    RoundTrip(ActionTree(c.action));
    ExtractedMembers(c.action);
    TimeTextNonBlank(c.evaluatedAt);
    NormalActionType(c.action);
  }

  lemma NormalActionType(a: Action)
    requires NormalAction(a)
    ensures ValidActionType(a.typ) && ActionTree(a).Obj?
  {
    hide ValidActionType, NormalActor, NormalParameters, NormalPayload, NormalAction;
    ActionParts(a);
  }

  lemma DecisionRowAccepted(sha: Hash, c: EvaluationCommit, e: Encoded)
    requires Accepted(sha, c, e)
    ensures DecisionChecks(DecisionRowOf(c, e)) <==>
              SqlNonBlank(c.decisionId) && SqlNonBlank(c.policyVersion)
  {
    hide Encode, NormalAction, WellFormed, Trimmed, SqlNonBlank, ValidDigest, ComputeDigest;
    hide CanonicalText, Parse, Render;
    hide LedgerTime, Trim, DecodeAction, EncodedEffects, EncoderGate, ReasonsText, ActionsText;
    hide Strings, SqlGate, Listed;
    AcceptedParts(sha, c, e);
    EncodeParts(sha, c);
    WellFormedListed(c.decision);
    FourGateAgreement(c.decision);
    TimeTextNonBlank(c.evaluatedAt);
    MatchedAreArray(c.matchedRuleIds);
  }

  lemma MatchedAreArray(xs: seq<string>)
    ensures ArrayLength(Render(Strings(xs))) == Some(|xs|)
  {
    hide Parse, Render;
    RoundTrip(Strings(xs));
  }

  lemma EffectRowAccepted(sha: Hash, c: EvaluationCommit, e: EffectCommit)
    requires e.effect.SafetyReview?
    ensures var f := EncodeEffect(sha, c.key, e);
            EffectChecks(f.effectId, EffectRowOf(c, f)) <==> SqlNonBlank(f.effectId)
  {
    hide Parse, Render, SqlNonBlank, LedgerTime, Trim, Strings, ContextText, IdempotencyKey;
    TimeTextNonBlank(c.evaluatedAt);
    ContextIsObject(e.effect);
    IdempotencyKeyNonBlank(sha, c.key, EffectType(e.effect));
  }

  lemma IdempotencyKeyNonBlank(sha: Hash, key: Key, typ: string)
    ensures SqlNonBlank(IdempotencyKey(sha, key, typ))
  {
    hide SqlNonBlank, ValidDigest, Render;
    DigestNonBlank(IdempotencyKey(sha, key, typ));
  }

  lemma ContextIsObject(e: PolicyEffect)
    requires e.SafetyReview?
    ensures Parse(ContextText(e)).Done? && Parse(ContextText(e)).value.Obj?
  {
    hide Parse, Render, Strings;
    RoundTrip(Obj([Field("priority", Str(e.priority)),
                   Field("evidenceRefs", if e.evidenceRefs == [] then Null else Strings(e.evidenceRefs))]));
  }

  // ---------------------------------------------------------------- an undisturbed transaction

  /** The texts SQL demands to be nonblank. */
  predicate Storable(c: EvaluationCommit) {
    && SqlNonBlank(c.key.runtimeId) && SqlNonBlank(c.key.requestId)
    && SqlNonBlank(c.decisionId) && SqlNonBlank(c.policyVersion)
    && forall i :: 0 <= i < |c.effects| ==> SqlNonBlank(Trim(c.effects[i].effectId))
  }

  /** The generated identifiers and the idempotency key are not in use. */
  ghost predicate Unused(sha: Hash, t: Tables, c: EvaluationCommit) {
    && !DecisionIdTaken(t, c.decisionId)
    && forall i :: 0 <= i < |c.effects| ==>
         && Trim(c.effects[i].effectId) !in t.effects
         && !IdempotencyKeyTaken(t, IdempotencyKey(sha, c.key, CREATE_SAFETY_REVIEW))
  }

  predicate StartsWithNul(s: string) { s != "" && s[0] == NUL }

  /** A commit the service built is storable unless one of its texts starts with NUL. */
  lemma StorableMeaning(sha: Hash, p: Prepared, a: Answers)
    requires PreparedOk(sha, p) && BuildCommit(p, a).Ok?
    ensures var c := BuildCommit(p, a).value;
            Storable(c) <==>
              && !StartsWithNul(c.key.runtimeId) && !StartsWithNul(c.key.requestId)
              && !StartsWithNul(c.decisionId) && !StartsWithNul(c.policyVersion)
              && forall i :: 0 <= i < |c.effects| ==> !StartsWithNul(c.effects[i].effectId)
  {
    hide NormalAction, ComputeDigest, ValidDigest, Trim, Trimmed, SqlNonBlank, PreparedEffects;
    hide Composed, AllNonBlank, StartsWithNul;
    var c := BuildCommit(p, a).value;
    RequestParts(sha, p);
    PreparedEffectsElements(a.policy.value.effects, a.ids);
    PlainText(c.key.runtimeId);
    PlainText(c.key.requestId);
    PlainText(c.decisionId);
    PlainText(c.policyVersion);
    forall i | 0 <= i < |c.effects|
      ensures SqlNonBlank(Trim(c.effects[i].effectId)) <==> !StartsWithNul(c.effects[i].effectId)
    {
      PlainText(c.effects[i].effectId);
    }
  }

  lemma PlainText(s: string)
    requires Trimmed(s) && s != ""
    ensures Trim(s) == s && (SqlNonBlank(s) <==> !StartsWithNul(s))
  {
    hide Trim;
    TrimmedNonBlank(s);
  }

  lemma InsertNoEffect(t: Tables, c: EvaluationCommit)
    ensures InsertAllEffects(t, c, []) == Inserted(t)
  {
  }

  lemma InsertOneEffect(t: Tables, c: EvaluationCommit, f: EncodedEffect)
    ensures InsertAllEffects(t, c, [f]) == InsertEffect(t, f.effectId, EffectRowOf(c, f))
  {
    hide InsertEffect, EffectRowOf;
    assert [f][..0] == [];
    InsertNoEffect(t, c);
  }

  lemma EffectsInsert(sha: Hash, t: Tables, c: EvaluationCommit)
    requires EncodedEffects(sha, c.key, c.effects).Ok? && DecisionIdTaken(t, c.decisionId)
    ensures !InsertAllEffects(t, c, EncodedEffects(sha, c.key, c.effects).value).Ignored?
    ensures InsertAllEffects(t, c, EncodedEffects(sha, c.key, c.effects).value).Inserted? <==>
              forall i :: 0 <= i < |c.effects| ==>
                && SqlNonBlank(Trim(c.effects[i].effectId)) && Trim(c.effects[i].effectId) !in t.effects
                && !IdempotencyKeyTaken(t, IdempotencyKey(sha, c.key, CREATE_SAFETY_REVIEW))
  {
    hide InsertAllEffects, EffectsAccepted, EffectChecks, SqlNonBlank, Trim, IdempotencyKey;
    hide ContextText, IdempotencyKeyTaken, DecisionIdTaken;
    hide LedgerTime;
    AtMostOneEffect(c.effects);
    var fs := EncodedEffects(sha, c.key, c.effects).value;
    if |c.effects| == 0 {
      assert fs == [];
      InsertNoEffect(t, c);
    } else {
      var f := EncodeEffect(sha, c.key, c.effects[0]);
      assert fs == [f];
      InsertOneEffect(t, c, f);
      EffectRowAccepted(sha, c, c.effects[0]);
    }
  }

  function AfterRequest(t: Tables, c: EvaluationCommit, e: Encoded): Tables {
    t.(requests := t.requests[c.key := RequestRowOf(c, e)])
  }

  function AfterDecision(t: Tables, c: EvaluationCommit, e: Encoded): Tables {
    AfterRequest(t, c, e).(decisions := t.decisions[c.key := DecisionRowOf(c, e)])
  }

  lemma RequestInserts(sha: Hash, t: Tables, c: EvaluationCommit, e: Encoded)
    requires Accepted(sha, c, e) && c.key !in t.requests
    ensures InsertRequest(t, c.key, RequestRowOf(c, e))
              == if SqlNonBlank(c.key.runtimeId) && SqlNonBlank(c.key.requestId)
                 then Inserted(AfterRequest(t, c, e)) else Rejected
  {
    hide Encode, Accepted, RequestChecks, SqlNonBlank, RequestRowOf;
    RequestRowAccepted(sha, c, e);
  }

  lemma DecisionInserts(sha: Hash, t: Tables, c: EvaluationCommit, e: Encoded)
    requires Accepted(sha, c, e) && c.key !in t.decisions
    ensures InsertDecision(AfterRequest(t, c, e), c.key, DecisionRowOf(c, e))
              == if SqlNonBlank(c.decisionId) && SqlNonBlank(c.policyVersion) && !DecisionIdTaken(t, c.decisionId)
                 then Inserted(AfterDecision(t, c, e)) else Rejected
  {
    hide Encode, Accepted, DecisionChecks, SqlNonBlank, RequestRowOf;
    DecisionRowAccepted(sha, c, e);
  }

  lemma OwnDecision(t: Tables, c: EvaluationCommit, e: Encoded)
    ensures DecisionIdTaken(AfterDecision(t, c, e), c.decisionId) && AfterDecision(t, c, e).effects == t.effects
  {
    assert AfterDecision(t, c, e).decisions[c.key].decisionId == c.decisionId;
  }

  /** Left alone, the transaction of a commit under a free key goes through exactly when its
      texts are storable and its identifiers unused. */
  lemma UncontendedCommit(sha: Hash, t: Tables, log: Log, c: EvaluationCommit, e: Encoded)
    requires Recorded(sha, t, log) && Accepted(sha, c, e) && c.key !in log
    ensures Transact(t, c, e).Inserted? <==> Storable(c) && Unused(sha, t, c)
    ensures !Transact(t, c, e).Ignored?
  {
    hide Encode, NormalAction, WellFormed, Trimmed, InsertRequest, InsertDecision, InsertAllEffects;
    hide SqlNonBlank, Trim, EncodedEffects, IdempotencyKey;
    hide RequestRowOf, DecisionRowOf, Stored, Owned, DistinctDecisions, DistinctIdempotencyKeys;
    hide LogOk, IdempotencyKeyTaken;
    hide AfterRequest, AfterDecision, DecisionIdTaken, ComputeDigest, CanonicalText, ValidDigest;
    hide EncoderGate, ReasonsText, ActionsText;
    AcceptedParts(sha, c, e);
    RequestInserts(sha, t, c, e);
    DecisionInserts(sha, t, c, e);
    EncodeParts(sha, c);
    var v := AfterDecision(t, c, e);
    OwnDecision(t, c, e);
    EffectsInsert(sha, v, c);
    SameEffectsSameKeys(t, v, IdempotencyKey(sha, c.key, CREATE_SAFETY_REVIEW));
  }

  lemma SameEffectsSameKeys(t: Tables, u: Tables, key: string)
    requires t.effects == u.effects
    ensures IdempotencyKeyTaken(t, key) <==> IdempotencyKeyTaken(u, key)
  {
  }

  /** The text hashed into the idempotency key of a request's only effect type. */
  function KeyText(key: Key): string { Render(Strings([key.runtimeId, key.requestId, CREATE_SAFETY_REVIEW])) }

  lemma EffectKeys(sha: Hash, c: EvaluationCommit, id: string)
    requires id in EffectsOf(sha, c)
    ensures EffectsOf(sha, c)[id].idempotencyKey == IdempotencyKey(sha, c.key, CREATE_SAFETY_REVIEW)
  {
    hide Encode, EffectMap, IdempotencyKey, EncodedEffects, ContextText, ComputeDigest;
    hide CanonicalText, ValidDigest, EncoderGate, Trim;
    var e := Encode(sha, c).value;
    EncodeParts(sha, c);
    EffectMapRows(c, e.effects);
    EncodedKeys(sha, c.key, c.effects);
  }

  lemma EncodedKeys(sha: Hash, key: Key, effects: seq<EffectCommit>)
    requires EncodedEffects(sha, key, effects).Ok?
    ensures var fs := EncodedEffects(sha, key, effects).value;
            forall i :: 0 <= i < |fs| ==> fs[i].idempotencyKey == IdempotencyKey(sha, key, CREATE_SAFETY_REVIEW)
  {
    hide IdempotencyKey, ContextText, Trim;
  }

  /** Unless the hash collides with a logged request, a free request finds its idempotency
      key free. */
  lemma IdempotencyKeyFree(sha: Hash, t: Tables, log: Log, key: Key)
    requires Recorded(sha, t, log) && key !in log
    requires forall k :: k in log ==> NoCollision(sha, KeyText(k), KeyText(key))
    ensures !IdempotencyKeyTaken(t, IdempotencyKey(sha, key, CREATE_SAFETY_REVIEW))
  {
    hide Stored, LogOk, EffectsOf, DistinctDecisions, DistinctIdempotencyKeys, IdempotencyKey, NoCollision;
    RecordedParts(sha, t, log);
    var taken := IdempotencyKey(sha, key, CREATE_SAFETY_REVIEW);
    forall id | id in t.effects ensures t.effects[id].idempotencyKey != taken {
      assert Owned(sha, log, id, t.effects[id]);
      var k :| k in log && id in EffectsOf(sha, log[k]) && EffectsOf(sha, log[k])[id] == t.effects[id];
      EffectKeys(sha, log[k], id);
      LoggedKey(sha, log, k);
      IdempotencyKeyBinds(sha, k, CREATE_SAFETY_REVIEW, key, CREATE_SAFETY_REVIEW);
    }
  }

  lemma LoggedKey(sha: Hash, log: Log, k: Key)
    requires LogOk(sha, log) && k in log
    ensures log[k].key == k
  {
    hide Committable;
  }
}
