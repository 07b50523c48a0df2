/** The tables as the exact image of the commits applied so far, and what one transaction
    adds to them. */
module Journal {
  import opened Actions
  import opened Canonical
  import opened Clock
  import opened Decisions
  import opened Guards
  import opened Ledger
  import opened Results
  import opened Text

  /** History variable: the commit that was applied under each key. */
  type Log = map<Key, EvaluationCommit>

  function EffectMap(c: EvaluationCommit, effects: seq<EncodedEffect>): map<string, EffectRow> {
    if effects == [] then map[]
    else
      var last := effects[|effects| - 1];
      EffectMap(c, effects[..|effects| - 1])[last.effectId := EffectRowOf(c, last)]
  }

  lemma EffectsOfRows(sha: Hash, c: EvaluationCommit)
    ensures forall id :: id in EffectsOf(sha, c) ==> EffectsOf(sha, c)[id].decisionId == c.decisionId
  {
    hide Encode, EffectMap;
    if Encode(sha, c).Ok? { EffectMapRows(c, Encode(sha, c).value.effects); }
  }

  lemma {:induction false} EffectMapRows(c: EvaluationCommit, effects: seq<EncodedEffect>)
    ensures forall id :: id in EffectMap(c, effects) ==> EffectMap(c, effects)[id].decisionId == c.decisionId
    ensures forall id :: id in EffectMap(c, effects) ==>
              exists i :: 0 <= i < |effects| && effects[i].effectId == id
                && EffectMap(c, effects)[id] == EffectRowOf(c, effects[i])
  {
    if effects != [] {
      var front := effects[..|effects| - 1];
      EffectMapRows(c, front);
      assert forall i :: 0 <= i < |front| ==> front[i] == effects[i];
    }
  }

  /** The effect rows of a commit, none if the encoder refuses it. */
  function EffectsOf(sha: Hash, c: EvaluationCommit): map<string, EffectRow> {
    match Encode(sha, c) case Ok(e) => EffectMap(c, e.effects) case Err(_) => map[]
  }

  ghost predicate Subtable<K, V>(m: map<K, V>, m': map<K, V>) {
    forall k :: k in m ==> k in m' && m'[k] == m[k]
  }

  /** No row is altered or removed. */
  ghost predicate Grows(t: Tables, t': Tables) {
    Subtable(t.requests, t'.requests) && Subtable(t.decisions, t'.decisions) && Subtable(t.effects, t'.effects)
  }

  lemma GrowsTransitive(t: Tables, u: Tables, v: Tables)
    requires Grows(t, u) && Grows(u, v)
    ensures Grows(t, v)
  {
  }

  /** The commit's rows are all present, exactly as encoded. */
  ghost predicate Stored(sha: Hash, t: Tables, c: EvaluationCommit) {
    exists e :: StoredAs(sha, t, c, e)
  }

  ghost predicate StoredAs(sha: Hash, t: Tables, c: EvaluationCommit, e: Encoded) {
    forall k: nat {:trigger Opened(OfTables, k)} :: Opened(OfTables, k) ==>
      && Encode(sha, c) == Ok(e)
      && c.key in t.requests && t.requests[c.key] == RequestRowOf(c, e)
      && c.key in t.decisions && t.decisions[c.key] == DecisionRowOf(c, e)
      && Subtable(EffectsOf(sha, c), t.effects)
  }

  lemma StoredParts(sha: Hash, t: Tables, c: EvaluationCommit)
    requires Stored(sha, t, c)
    ensures Encode(sha, c).Ok?
    ensures c.key in t.requests && t.requests[c.key] == RequestRowOf(c, Encode(sha, c).value)
    ensures c.key in t.decisions && t.decisions[c.key] == DecisionRowOf(c, Encode(sha, c).value)
    ensures Subtable(EffectsOf(sha, c), t.effects)
  {
    hide Encode, RequestRowOf, DecisionRowOf, EffectsOf, Subtable;
    assert Opened(OfTables, 0);
    var e :| StoredAs(sha, t, c, e);
  }

  ghost predicate LogOk(sha: Hash, log: Log) {
    forall k :: k in log ==> log[k].key == k && Committable(sha, log[k])
  }

  ghost predicate DistinctDecisions(log: Log) {
    forall j, k :: j in log && k in log && log[j].decisionId == log[k].decisionId ==> j == k
  }

  ghost predicate DistinctIdempotencyKeys(t: Tables) {
    forall x, y :: x in t.effects && y in t.effects && t.effects[x].idempotencyKey == t.effects[y].idempotencyKey ==>
        x == y
  }

  /** An effect row comes from the commit under some key. */
  ghost predicate Owned(sha: Hash, log: Log, id: string, row: EffectRow) {
    exists k :: k in log && id in EffectsOf(sha, log[k]) && EffectsOf(sha, log[k])[id] == row
  }

  /** The ledger invariant: the tables hold the rows of the logged commits and nothing else. */
  ghost predicate Recorded(sha: Hash, t: Tables, log: Log) {
    && t.requests.Keys == log.Keys && t.decisions.Keys == log.Keys
    && forall k: nat {:trigger Opened(OfTables, k)} :: Opened(OfTables, k) ==>
         && LogOk(sha, log)
         && (forall key :: key in log ==> Stored(sha, t, log[key]))
         && (forall id :: id in t.effects ==> Owned(sha, log, id, t.effects[id]))
         && DistinctDecisions(log) && DistinctIdempotencyKeys(t)
  }

  lemma RecordedParts(sha: Hash, t: Tables, log: Log)
    requires Recorded(sha, t, log)
    ensures LogOk(sha, log)
    ensures forall key :: key in log ==> Stored(sha, t, log[key])
    ensures forall id :: id in t.effects ==> Owned(sha, log, id, t.effects[id])
    ensures DistinctDecisions(log) && DistinctIdempotencyKeys(t)
  {
    hide LogOk, Stored, Owned, DistinctDecisions, DistinctIdempotencyKeys;
    assert Opened(OfTables, 0);
  }

  lemma RecordedKeys(sha: Hash, t: Tables, log: Log)
    requires Recorded(sha, t, log)
    ensures t.requests.Keys == log.Keys == t.decisions.Keys && DistinctIdempotencyKeys(t)
  {
    hide Stored, Owned, LogOk, DistinctDecisions, DistinctIdempotencyKeys;
    RecordedParts(sha, t, log);
  }

  lemma EmptyRecorded(sha: Hash)
    ensures Recorded(sha, EMPTY, map[])
  {
  }

  // ---------------------------------------------------------------- one transaction

  /** The pending tables of a transaction that has inserted the request, perhaps the
      decision, and the first n effects of a commit on top of the tables t. */
  ghost predicate Staged(t: Tables, pending: Tables, c: EvaluationCommit, e: Encoded, decided: bool, n: nat) {
    && n <= |e.effects| && (n > 0 ==> decided)
    && c.key !in t.requests && pending.requests == t.requests[c.key := RequestRowOf(c, e)]
    && (decided ==> c.key !in t.decisions && !DecisionIdTaken(t, c.decisionId))
    && pending.decisions == (if decided then t.decisions[c.key := DecisionRowOf(c, e)] else t.decisions)
    && EffectMap(c, e.effects[..n]).Keys !! t.effects.Keys
    && pending.effects == t.effects + EffectMap(c, e.effects[..n])
    && DistinctIdempotencyKeys(pending)
  }

  lemma StageRequest(t: Tables, c: EvaluationCommit, e: Encoded)
    requires DistinctIdempotencyKeys(t) && InsertRequest(t, c.key, RequestRowOf(c, e)).Inserted?
    ensures Staged(t, InsertRequest(t, c.key, RequestRowOf(c, e)).tables, c, e, false, 0)
  {
    hide RequestChecks, RequestRowOf;
  }

  lemma StageDecision(t: Tables, pending: Tables, c: EvaluationCommit, e: Encoded)
    requires Staged(t, pending, c, e, false, 0) && InsertDecision(pending, c.key, DecisionRowOf(c, e)).Inserted?
    ensures Staged(t, InsertDecision(pending, c.key, DecisionRowOf(c, e)).tables, c, e, true, 0)
  {
    hide DecisionChecks, RequestRowOf;
  }

  lemma StageEffect(t: Tables, pending: Tables, c: EvaluationCommit, e: Encoded, n: nat)
    requires n < |e.effects| && Staged(t, pending, c, e, true, n)
    requires InsertEffect(pending, e.effects[n].effectId, EffectRowOf(c, e.effects[n])).Inserted?
    ensures var next := InsertEffect(pending, e.effects[n].effectId, EffectRowOf(c, e.effects[n])).tables;
            Staged(t, next, c, e, true, n + 1)
  {
    hide EffectChecks, RequestRowOf, DecisionRowOf, DecisionIdTaken, EffectRowOf, EffectMap, DistinctIdempotencyKeys;
    EffectMapStep(c, e.effects, n);
    DistinctAfter(pending, e.effects[n].effectId, EffectRowOf(c, e.effects[n]));
  }

  lemma EffectMapStep(c: EvaluationCommit, effects: seq<EncodedEffect>, n: nat)
    requires n < |effects|
    ensures EffectMap(c, effects[..n + 1])
              == EffectMap(c, effects[..n])[effects[n].effectId := EffectRowOf(c, effects[n])]
  {
    hide EffectRowOf;
    assert effects[..n + 1][..n] == effects[..n];
  }

  lemma DistinctAfter(t: Tables, id: string, row: EffectRow)
    requires DistinctIdempotencyKeys(t) && InsertEffect(t, id, row).Inserted?
    ensures DistinctIdempotencyKeys(InsertEffect(t, id, row).tables)
  {
    hide EffectChecks, DecisionIdTaken;
  }

  /** `insertPolicyEffects`: in order, up to the first refusal. */
  function InsertAllEffects(t: Tables, c: EvaluationCommit, effects: seq<EncodedEffect>): Insertion {
    if effects == [] then Inserted(t)
    else
      var last := effects[|effects| - 1];
      match InsertAllEffects(t, c, effects[..|effects| - 1])
      case Inserted(u) => InsertEffect(u, last.effectId, EffectRowOf(c, last))
      case _ => Rejected
  }

  /** The inserts that follow the request row. */
  function Completed(t: Tables, c: EvaluationCommit, e: Encoded): Insertion {
    match InsertDecision(t, c.key, DecisionRowOf(c, e))
    case Inserted(u) => InsertAllEffects(u, c, e.effects)
    case _ => Rejected
  }

  /** The whole transaction of a commit, undisturbed. */
  function Transact(t: Tables, c: EvaluationCommit, e: Encoded): Insertion {
    match InsertRequest(t, c.key, RequestRowOf(c, e))
    case Inserted(u) => Completed(u, c, e)
    case refused => refused
  }

  lemma {:induction false} StageAllEffects(t: Tables, pending: Tables, c: EvaluationCommit, e: Encoded, n: nat)
    requires n <= |e.effects| && Staged(t, pending, c, e, true, 0)
    requires InsertAllEffects(pending, c, e.effects[..n]).Inserted?
    ensures Staged(t, InsertAllEffects(pending, c, e.effects[..n]).tables, c, e, true, n)
  {
    hide Staged, InsertEffect, EffectRowOf;
    if n > 0 {
      assert e.effects[..n][..n - 1] == e.effects[..n - 1];
      StageAllEffects(t, pending, c, e, n - 1);
      StageEffect(t, InsertAllEffects(pending, c, e.effects[..n - 1]).tables, c, e, n - 1);
    }
  }

  lemma TransactStages(t: Tables, c: EvaluationCommit, e: Encoded)
    requires DistinctIdempotencyKeys(t) && Transact(t, c, e).Inserted?
    ensures Staged(t, Transact(t, c, e).tables, c, e, true, |e.effects|)
  {
    hide Staged, InsertRequest, InsertDecision, InsertAllEffects, RequestRowOf, DecisionRowOf, DistinctIdempotencyKeys;
    StageRequest(t, c, e);
    var u := InsertRequest(t, c.key, RequestRowOf(c, e)).tables;
    StageDecision(t, u, c, e);
    assert e.effects[..|e.effects|] == e.effects;
    StageAllEffects(t, InsertDecision(u, c.key, DecisionRowOf(c, e)).tables, c, e, |e.effects|);
  }

  /** The three kinds of insert, all made: the tables a commit adds up to. */
  lemma StagedAll(sha: Hash, t: Tables, pending: Tables, c: EvaluationCommit, e: Encoded)
    requires Encode(sha, c) == Ok(e) && Staged(t, pending, c, e, true, |e.effects|)
    ensures Grows(t, pending) && Stored(sha, pending, c)
    ensures pending.effects == t.effects + EffectsOf(sha, c) && EffectsOf(sha, c).Keys !! t.effects.Keys
  {
    hide Encode, RequestRowOf, DecisionRowOf, EffectMap, DecisionIdTaken;
    assert e.effects[..|e.effects|] == e.effects;
    assert StoredAs(sha, pending, c, e);
  }

  lemma StoredStays(sha: Hash, t: Tables, t': Tables, c: EvaluationCommit)
    requires Stored(sha, t, c) && Grows(t, t')
    ensures Stored(sha, t', c)
  {
    hide Encode, RequestRowOf, DecisionRowOf, EffectsOf;
    var e :| StoredAs(sha, t, c, e);
    assert StoredAs(sha, t', c, e);
  }

  lemma OwnedStays(sha: Hash, log: Log, log': Log, id: string, row: EffectRow)
    requires Owned(sha, log, id, row) && Subtable(log, log')
    ensures Owned(sha, log', id, row)
  {
    hide Encode, EffectsOf;
  }

  /** Applying the commit of a fully staged transaction extends the log by that commit. */
  lemma Seal(sha: Hash, t: Tables, log: Log, pending: Tables, c: EvaluationCommit, e: Encoded)
    requires Recorded(sha, t, log) && Accepted(sha, c, e)
    requires Staged(t, pending, c, e, true, |e.effects|)
    ensures c.key !in log && Recorded(sha, pending, log[c.key := c]) && Grows(t, pending)
  {
    hide Encode, Accepted, RequestRowOf, DecisionRowOf, EffectMap, Stored, EffectsOf, Owned, DistinctDecisions;
    hide DistinctIdempotencyKeys, DecisionIdTaken, Grows;
    var log' := log[c.key := c];
    RecordedParts(sha, t, log);
    AcceptedParts(sha, c, e);
    assert Committable(sha, c);
    StagedAll(sha, t, pending, c, e);
    forall k | k in log' ensures Stored(sha, pending, log'[k]) {
      if k != c.key { StoredStays(sha, t, pending, log[k]); }
    }
    FreshDecision(sha, t, log, c);
    forall id | id in pending.effects ensures Owned(sha, log', id, pending.effects[id]) {
      if id in t.effects {
        OwnedStays(sha, log, log', id, t.effects[id]);
      } else {
        OwnedBy(sha, log', c.key, id);
      }
    }
  }

  lemma OwnedBy(sha: Hash, log: Log, k: Key, id: string)
    requires k in log && id in EffectsOf(sha, log[k])
    ensures Owned(sha, log, id, EffectsOf(sha, log[k])[id])
  {
    hide Encode, EffectsOf;
  }

  lemma FreshDecision(sha: Hash, t: Tables, log: Log, c: EvaluationCommit)
    requires Recorded(sha, t, log) && !DecisionIdTaken(t, c.decisionId)
    ensures DistinctDecisions(log[c.key := c])
  {
    hide Stored, Owned, LogOk, DistinctIdempotencyKeys;
    RecordedParts(sha, t, log);
    forall k | k in log ensures log[k].decisionId != c.decisionId {
      LoggedDecision(sha, t, log, k);
    }
  }

  lemma LoggedDecision(sha: Hash, t: Tables, log: Log, k: Key)
    requires Recorded(sha, t, log) && k in log
    ensures k in t.decisions && t.decisions[k].decisionId == log[k].decisionId
  {
    hide Encode, Committable, EffectsOf, Owned, RequestRowOf, DistinctIdempotencyKeys, DistinctDecisions, Subtable;
    hide Stored;
    RecordedParts(sha, t, log);
    StoredParts(sha, t, log[k]);
  }

  // ---------------------------------------------------------------- reading

  /** What a lookup finds, said of the log alone. */
  function FoundIn(log: Log, key: Key): Result<StoredEvaluation> {
    if key !in log then Err(EvaluationNotFound)
    else if Readable(log[key]) then Ok(StoredOf(log[key]))
    else Err(LedgerFailure)
  }

  lemma LookupReadsLog(sha: Hash, t: Tables, log: Log, key: Key)
    requires Recorded(sha, t, log) && TrimmedKey(key)
    ensures Lookup(sha, t, key) == FoundIn(log, key)
  {
    hide Committable, Encode, ReadRow, Trimmed, Trim, RequestRowOf, DecisionRowOf, EffectsOf, Owned, DistinctDecisions;
    hide DistinctIdempotencyKeys, Stored;
    RecordedParts(sha, t, log);
    assert Key(Trim(key.runtimeId), Trim(key.requestId)) == key;
    if key in log {
      StoredParts(sha, t, log[key]);
      CommittableEncodes(sha, log[key]);
      RowsReadBack(sha, log[key], Encode(sha, log[key]).value);
    }
  }

  // ---------------------------------------------------------------- what the invariant means

  /** Per request: the stored digest is that of the stored action, whose runtime is the
      key's, and the decision row carries the decision of the same commit. */
  lemma RowsMeaning(sha: Hash, t: Tables, log: Log, key: Key)
    requires Recorded(sha, t, log) && key in t.requests
    ensures key in t.decisions && key in log
    ensures ComputeDigest(sha, log[key].action) == Ok(t.requests[key].digest)
    ensures CanonicalText(log[key].action) == Ok(t.requests[key].actionJson)
    ensures log[key].action.actor.runtimeId == key.runtimeId && NormalAction(log[key].action)
    ensures FourDigitYear(log[key].action.requestedAt) ==>
        DecodeAction(t.requests[key].actionJson) == Ok(log[key].action)
    ensures t.decisions[key].decisionId == log[key].decisionId && WellFormed(log[key].decision)
  {
    hide Encode, ComputeDigest, CanonicalText, NormalAction, DecodeAction, WellFormed, Trimmed, EffectsOf, Owned;
    hide DistinctDecisions, DistinctIdempotencyKeys, LedgerTime, ValidDigest, EncodedEffects;
    hide Stored, Accepted, Recorded;
    RecordedKeys(sha, t, log);
    RecordedParts(sha, t, log);
    StoredParts(sha, t, log[key]);
    CommittableEncodes(sha, log[key]);
    AcceptedParts(sha, log[key], Encode(sha, log[key]).value);
    EncodeParts(sha, log[key]);
    CanonicalRoundTrip(log[key].action);
  }

  /** Losers leave no trace: the effects that point to a decision are exactly the effects of
      the commit that won its key. */
  lemma EffectsMeaning(sha: Hash, t: Tables, log: Log, key: Key, id: string)
    requires Recorded(sha, t, log) && key in log
    ensures id in t.effects && t.effects[id].decisionId == t.decisions[key].decisionId <==>
        id in EffectsOf(sha, log[key])
    ensures id in EffectsOf(sha, log[key]) ==> id in t.effects && t.effects[id] == EffectsOf(sha, log[key])[id]
  {
    hide Encode, Committable, RequestRowOf, EffectsOf, DistinctIdempotencyKeys;
    hide Stored;
    RecordedParts(sha, t, log);
    StoredParts(sha, t, log[key]);
    EffectsOfRows(sha, log[key]);
    if id in t.effects && t.effects[id].decisionId == t.decisions[key].decisionId {
      assert Owned(sha, log, id, t.effects[id]);
      var k :| k in log && id in EffectsOf(sha, log[k]) && EffectsOf(sha, log[k])[id] == t.effects[id];
      EffectsOfRows(sha, log[k]);
      assert log[k].decisionId == log[key].decisionId;
    }
  }

  /** Every effect row points to a committed decision, and a decision has at most one. */
  lemma EffectsPointToDecisions(sha: Hash, t: Tables, log: Log, id: string)
    requires Recorded(sha, t, log) && id in t.effects
    ensures DecisionIdTaken(t, t.effects[id].decisionId)
  {
    hide Encode, Committable, RequestRowOf, EffectsOf, DistinctIdempotencyKeys;
    hide Stored;
    RecordedParts(sha, t, log);
    assert Owned(sha, log, id, t.effects[id]);
    var k :| k in log && id in EffectsOf(sha, log[k]) && EffectsOf(sha, log[k])[id] == t.effects[id];
    EffectsOfRows(sha, log[k]);
    StoredParts(sha, t, log[k]);
    assert k in t.decisions && t.decisions[k].decisionId == t.effects[id].decisionId;
  }

  lemma OneEffectPerDecision(sha: Hash, t: Tables, log: Log, x: string, y: string)
    requires Recorded(sha, t, log) && x in t.effects && y in t.effects
    requires t.effects[x].decisionId == t.effects[y].decisionId
    ensures x == y
  {
    hide Encode, Committable, RequestRowOf, DecisionRowOf, EffectMap, DistinctIdempotencyKeys, EffectsOf, Subtable;
    EffectsPointToDecisions(sha, t, log, x);
    var k :| k in t.decisions && t.decisions[k].decisionId == t.effects[x].decisionId;
    EffectsMeaning(sha, t, log, k, x);
    EffectsMeaning(sha, t, log, k, y);
    OneEffectEach(sha, log[k]);
  }

  lemma OneEffectEach(sha: Hash, c: EvaluationCommit)
    ensures forall x, y :: x in EffectsOf(sha, c) && y in EffectsOf(sha, c) ==> x == y
  {
    hide Encode, EffectMap, ComputeDigest, ValidDigest, CanonicalText, EncodedEffects, Trim, EncodeAll, EffectRowOf;
    if Encode(sha, c).Ok? {
      EncodeParts(sha, c);
      AtMostOneEncoded(sha, c.key, c.effects);
      EffectMapRows(c, Encode(sha, c).value.effects);
    }
  }

  /** A request row holds the canonical text and the digest of some normalised action of the
      key's own runtime. */
  ghost predicate ActionRow(sha: Hash, key: Key, row: RequestRow) {
    exists a :: NormalAction(a) && CanonicalText(a) == Ok(row.actionJson) && ComputeDigest(sha, a) == Ok(row.digest)
                && a.actor.runtimeId == key.runtimeId && a.typ == row.actionType
  }

  /** What holds of the tables alone, without the history variable. */
  ghost predicate Consistent(sha: Hash, t: Tables) {
    && t.requests.Keys == t.decisions.Keys
    && (forall k :: k in t.requests ==> ActionRow(sha, k, t.requests[k]))
    && (forall j, k ::
          j in t.decisions && k in t.decisions && t.decisions[j].decisionId == t.decisions[k].decisionId ==> j == k)
    && (forall id :: id in t.effects ==> DecisionIdTaken(t, t.effects[id].decisionId))
    && (forall x, y :: x in t.effects && y in t.effects && t.effects[x].decisionId == t.effects[y].decisionId ==>
        x == y)
    && DistinctIdempotencyKeys(t)
  }

  lemma RecordedConsistent(sha: Hash, t: Tables, log: Log)
    requires Recorded(sha, t, log)
    ensures Consistent(sha, t)
  {
    hide LogOk, Stored, Owned, ActionRow, DistinctIdempotencyKeys, DecisionIdTaken;
    RecordedParts(sha, t, log);
    forall k | k in t.requests ensures ActionRow(sha, k, t.requests[k]) { RowIsActionRow(sha, t, log, k); }
    forall k | k in log ensures t.decisions[k].decisionId == log[k].decisionId { LoggedDecision(sha, t, log, k); }
    forall id | id in t.effects
      ensures DecisionIdTaken(t, t.effects[id].decisionId)
    {
      EffectsPointToDecisions(sha, t, log, id);
    }
    forall x, y | x in t.effects && y in t.effects && t.effects[x].decisionId == t.effects[y].decisionId
      ensures x == y
    {
      OneEffectPerDecision(sha, t, log, x, y);
    }
  }

  lemma RowIsActionRow(sha: Hash, t: Tables, log: Log, k: Key)
    requires Recorded(sha, t, log) && k in t.requests
    ensures ActionRow(sha, k, t.requests[k])
  {
    hide Encode, ComputeDigest, CanonicalText, NormalAction, WellFormed, Trimmed, Owned;
    hide DecodeAction, LedgerTime, EffectsOf;
    hide DistinctDecisions, DistinctIdempotencyKeys;
    hide Stored;
    RecordedParts(sha, t, log);
    RowsMeaning(sha, t, log, k);
    StoredParts(sha, t, log[k]);
  }
}
