/** The ledger and the service as the objects the source makes them, one call at a time, with
    failing operations and other callers' commits in between. */
module Storage {
  import opened Actions
  import opened Canonical
  import opened Constraints
  import opened Journal
  import opened Ledger
  import opened Normalizer
  import opened Protocol
  import opened Results
  import opened Service
  import opened Text

  /** What happens around one `CommitEvaluation`: which operations fail, and the commits
      other callers make before the first insert and before the re-read of a lost race. */
  datatype World = World(
    readFault: bool, beginFault: bool, requestFault: bool, decisionFault: bool, effectFault: nat -> bool,
    commitFault: bool, commitApplied: bool, rereadFault: bool,
    beforeInsert: seq<EvaluationCommit>, beforeReread: seq<EvaluationCommit>)

  ghost predicate Fair(sha: Hash, others: seq<EvaluationCommit>) {
    forall i :: 0 <= i < |others| ==> Committable(sha, others[i])
  }

  predicate Alone(x: World) { x.beforeInsert == [] && x.beforeReread == [] }

  ghost predicate Calm(x: World) {
    && !x.readFault && !x.beginFault && !x.requestFault && !x.decisionFault && (forall n: nat :: !x.effectFault(n))
    && !x.commitFault && !x.rereadFault && Alone(x)
  }

  /** What a commit does when nothing fails and nobody interferes. */
  function CommitOutcome(sha: Hash, t: Tables, log: Log, c: EvaluationCommit): (Result<DecisionRecord>, Tables) {
    match Encode(sha, c)
    case Err(e) => (Err(e), t)
    case Ok(e) =>
      if c.key in log then (Verdict(log[c.key], c.digest), t)
      else
        match Transact(t, c, e)
        case Inserted(u) => (Ok(RecordOf(c)), u)
        case _ => (Err(LedgerFailure), t)
  }

  class DecisionLedger {
    const sha: Hash
    var tables: Tables
    /** The commits applied so far. */
    ghost var log: Log

    constructor (sha: Hash)
      ensures Valid() && this.sha == sha && tables == EMPTY && log == map[]
    {
      this.sha := sha;
      tables, log := EMPTY, map[];
      new;
      EmptyRecorded(sha);
    }

    ghost predicate Valid()
      reads this
    {
      Recorded(sha, tables, log)
    }

    /** Other callers run whole transactions. */
    method OtherCallers(others: seq<EvaluationCommit>)
      requires Valid() && Fair(sha, others)
      modifies this
      ensures Valid() && Grows(old(tables), tables) && Subtable(old(log), log)
      ensures others == [] ==> tables == old(tables) && log == old(log)
    {
      hide Recorded, Committable, Accepted, Encode, Transact;
      for i := 0 to |others|
        invariant Valid() && Grows(old(tables), tables) && Subtable(old(log), log)
        invariant i == 0 ==> tables == old(tables) && log == old(log)
      {
        var c := others[i];
        var encoded := EncodeEvaluation(sha, c);
        if encoded.Ok? {
          var outcome := Transact(tables, c, encoded.value);
          if outcome.Inserted? {
            CommittableEncodes(sha, c);
            SealTransaction(sha, tables, log, c, encoded.value);
            tables, log := outcome.tables, log[c.key := c];
          }
        }
      }
    }

    /** `insertPolicyEffects`. */
    method InsertPolicyEffects(
        pending: Tables, c: EvaluationCommit, effects: seq<EncodedEffect>, fault: nat -> bool) returns (r: Insertion)
      ensures r.Inserted? ==> r == InsertAllEffects(pending, c, effects)
      ensures (forall n: nat :: !fault(n)) ==> (r.Inserted? <==> InsertAllEffects(pending, c, effects).Inserted?)
    {
      hide InsertEffect, EffectRowOf;
      var current := pending;
      for n := 0 to |effects|
        invariant InsertAllEffects(pending, c, effects[..n]) == Inserted(current)
      {
        assert effects[..n + 1][..n] == effects[..n];
        var outcome := InsertEffect(current, effects[n].effectId, EffectRowOf(c, effects[n]));
        if fault(n) || !outcome.Inserted? {
          if !outcome.Inserted? { RefusalStops(pending, c, effects, n); }
          return Rejected;
        }
        current := outcome.tables;
      }
      assert effects[..|effects|] == effects;
      r := Inserted(current);
    }

    /** `resolveCommitRace`, after whatever others committed meanwhile. */
    method ResolveCommitRace(c: EvaluationCommit, x: World) returns (r: Result<DecisionRecord>)
      requires Valid() && TrimmedKey(c.key) && Fair(sha, x.beforeReread)
      modifies this
      ensures Valid() && Grows(old(tables), tables) && Subtable(old(log), log)
      ensures x.beforeReread == [] ==> tables == old(tables) && log == old(log)
      ensures r == if x.rereadFault then Err(LedgerFailure)
                   else if c.key in log then Verdict(log[c.key], c.digest)
                   else Err(EvaluationNotFound)
    {
      hide Recorded, Lookup, TrimmedKey;
      OtherCallers(x.beforeReread);
      if x.rereadFault {
        return Err(LedgerFailure);
      }
      LookupReadsLog(sha, tables, log, c.key);
      var existing := Lookup(sha, tables, c.key);
      if existing.Err? {
        return Err(existing.error);
      }
      r := ResolveExisting(existing.value, c.digest);
    }

    /** The later inserts of a transaction that has inserted its request row. */
    method InsertDecisionAndEffects(pending: Tables, c: EvaluationCommit, e: Encoded, x: World) returns (r: Insertion)
      ensures r.Inserted? ==> r == Completed(pending, c, e)
      ensures !x.decisionFault && (forall n: nat :: !x.effectFault(n)) ==> (r.Inserted? <==>
          Completed(pending, c, e).Inserted?)
    {
      hide InsertDecision, InsertAllEffects, DecisionRowOf;
      var decision := InsertDecision(pending, c.key, DecisionRowOf(c, e));
      if x.decisionFault || !decision.Inserted? {
        return Rejected;
      }
      r := InsertPolicyEffects(decision.tables, c, e.effects, x.effectFault);
    }

    /** The re-read after a failed insert or commit: only a success is passed on. */
    method ResolveAfterError(c: EvaluationCommit, x: World) returns (r: Result<DecisionRecord>)
      requires Valid() && TrimmedKey(c.key) && Fair(sha, x.beforeReread)
      modifies this
      ensures Valid() && Grows(old(tables), tables) && Subtable(old(log), log)
      ensures x.beforeReread == [] ==> tables == old(tables) && log == old(log)
      ensures r.Err? ==> r == Err(LedgerFailure)
      ensures r.Ok? ==> c.key in log && log[c.key].digest == c.digest && r.value == RecordOf(log[c.key])
    {
      hide Recorded, TrimmedKey, Subtable, Grows;
      r := ResolveCommitRace(c, x);
      if r.Err? {
        r := Err(LedgerFailure);
      }
    }

    /** The transaction of `CommitEvaluation`, after its own lookup found nothing. */
    method InsertAndCommit(
        c: EvaluationCommit, e: Encoded, x: World, ghost p: Prepared) returns (r: Result<DecisionRecord>)
      requires Valid() && Accepted(sha, c, e) && TrimmedKey(c.key)
      requires c.key == p.key && c.digest == p.digest && Fair(sha, x.beforeInsert) && Fair(sha, x.beforeReread)
      modifies this
      ensures Valid() && Grows(old(tables), tables) && Subtable(old(log), log)
      ensures Justified(log, p, r)
      ensures Alone(x) && tables != old(tables) ==> Applied(sha, old(tables), old(log), c, tables, log)
      ensures Alone(x) && r.Err? && !(x.commitFault && x.commitApplied) ==> tables == old(tables)
      ensures Calm(x) && c.key !in old(log) ==>
                (r, tables) ==
                  match Transact(old(tables), c, e)
                  case Inserted(u) => (Ok(RecordOf(c)), u)
                  case _ => (Err(LedgerFailure), old(tables))
    {
      hide Recorded, Encode, Accepted, TrimmedKey, InsertRequest, RequestRowOf, Completed, Fair;
      hide Transact, Grows, Subtable;
      hide Applied;
      OtherCallers(x.beforeInsert);
      RecordedKeys(sha, tables, log);
      RequestOutcome(tables, c, e);
      Unchanged(tables, log);
      var request := InsertRequest(tables, c.key, RequestRowOf(c, e));
      if x.requestFault || !request.Inserted? {
        ghost var before, logged := tables, log;
        if x.requestFault || request.Rejected? {
          r := ResolveAfterError(c, x);
        } else {
          r := ResolveCommitRace(c, x);
          StillLogged(logged, log, c.key);
        }
        GrowsTransitive(old(tables), before, tables);
        SubtableTransitive(old(log), logged, log);
        return;
      }
      var pending := InsertDecisionAndEffects(request.tables, c, e, x);
      if !pending.Inserted? {
        return Err(LedgerFailure);
      }
      AcceptedParts(sha, c, e);
      SealTransaction(sha, tables, log, c, e);
      ghost var before, logged := tables, log;
      if !x.commitFault || x.commitApplied {
        tables, log := pending.tables, log[c.key := c];
        GrowsTransitive(old(tables), before, tables);
        LogGrows(old(log), logged, c);
        ThisApplied(sha, before, logged, c, e, tables);
      }
      ghost var after, relogged := tables, log;
      if x.commitFault {
        r := ResolveAfterError(c, x);
        GrowsTransitive(old(tables), after, tables);
        SubtableTransitive(old(log), relogged, log);
        return;
      }
      r := Ok(RecordOf(c));
    }

    /** `CommitEvaluation`. Whatever fails and whoever interferes, the answer is justified by
        the commit that owns the key; without interference the commit's rows appear all
        together or not at all; and in calm weather the outcome is exactly the specified one. */
    method CommitEvaluation(c: EvaluationCommit, x: World, ghost p: Prepared) returns (r: Result<DecisionRecord>)
      requires Valid() && BuiltFor(sha, p, c) && Fair(sha, x.beforeInsert) && Fair(sha, x.beforeReread)
      modifies this
      ensures Valid() && Grows(old(tables), tables) && Subtable(old(log), log)
      ensures Justified(log, p, r)
      ensures Alone(x) && tables != old(tables) ==> Applied(sha, old(tables), old(log), c, tables, log)
      ensures Alone(x) && r.Err? && !(x.commitFault && x.commitApplied) ==> tables == old(tables)
      ensures Calm(x) ==> (r, tables) == CommitOutcome(sha, old(tables), old(log), c)
    {
      hide Recorded, Lookup, Encode, Committable, BuiltFor, TrimmedKey, Transact, Applied, Fair;
      BuiltKey(sha, p, c);
      BuiltCommitEncodes(sha, p, c);
      var encoded := EncodeEvaluation(sha, c);
      if encoded.Err? {
        EncodeErrors(sha, c);
        return Err(encoded.error);
      }
      if x.readFault {
        return Err(LedgerFailure);
      }
      LookupReadsLog(sha, tables, log, c.key);
      var existing := Lookup(sha, tables, c.key);
      if existing.Ok? {
        return ResolveExisting(existing.value, c.digest);
      }
      if existing.error != EvaluationNotFound {
        return Err(existing.error);
      }
      if x.beginFault {
        return Err(LedgerFailure);
      }
      r := InsertAndCommit(c, encoded.value, x, p);
    }
  }

  /** The tables and the log grew by this one whole commit. */
  ghost predicate Applied(sha: Hash, t: Tables, log: Log, c: EvaluationCommit, t': Tables, log': Log) {
    && c.key !in log && log' == log[c.key := c]
    && Encode(sha, c).Ok? && Transact(t, c, Encode(sha, c).value) == Inserted(t')
  }

  lemma ThisApplied(sha: Hash, t: Tables, log: Log, c: EvaluationCommit, e: Encoded, t': Tables)
    requires c.key !in log && Encode(sha, c) == Ok(e) && Transact(t, c, e) == Inserted(t')
    ensures Applied(sha, t, log, c, t', log[c.key := c])
  {
    hide Encode, Transact;
  }

  lemma RequestOutcome(t: Tables, c: EvaluationCommit, e: Encoded)
    ensures var request := InsertRequest(t, c.key, RequestRowOf(c, e));
            && (request.Ignored? ==> c.key in t.requests)
            && (request.Inserted? ==> Transact(t, c, e) == Completed(request.tables, c, e))
            && (!request.Inserted? ==> !Transact(t, c, e).Inserted?)
            && (c.key !in t.requests ==> !request.Ignored?)
  {
    hide RequestChecks, Completed, RequestRowOf;
  }

  lemma Unchanged(t: Tables, log: Log)
    ensures Grows(t, t) && Subtable(log, log)
  {
  }

  lemma SubtableTransitive(a: Log, b: Log, c: Log)
    requires Subtable(a, b) && Subtable(b, c)
    ensures Subtable(a, c)
  {
  }

  lemma StillLogged(log: Log, log': Log, key: Key)
    requires Subtable(log, log') && key in log
    ensures key in log' && log'[key] == log[key]
  {
  }

  lemma LogGrows(log: Log, log': Log, c: EvaluationCommit)
    requires Subtable(log, log') && c.key !in log'
    ensures Subtable(log, log'[c.key := c])
  {
  }

  lemma SealTransaction(sha: Hash, t: Tables, log: Log, c: EvaluationCommit, e: Encoded)
    requires Recorded(sha, t, log) && Accepted(sha, c, e) && Transact(t, c, e).Inserted?
    ensures c.key !in log && Recorded(sha, Transact(t, c, e).tables, log[c.key := c])
    ensures Grows(t, Transact(t, c, e).tables)
  {
    hide Recorded, Committable, Encode, Transact, Staged, Grows;
    RecordedKeys(sha, t, log);
    TransactStages(t, c, e);
    Seal(sha, t, log, Transact(t, c, e).tables, c, e);
  }

  lemma {:induction false} RefusalStops(t: Tables, c: EvaluationCommit, effects: seq<EncodedEffect>, n: nat)
    requires n < |effects| && InsertAllEffects(t, c, effects[..n]).Inserted?
    requires var u := InsertAllEffects(t, c, effects[..n]).tables;
             !InsertEffect(u, effects[n].effectId, EffectRowOf(c, effects[n])).Inserted?
    ensures !InsertAllEffects(t, c, effects).Inserted?
    decreases |effects|
  {
    hide InsertEffect, EffectRowOf;
    var front := effects[..|effects| - 1];
    if n == |effects| - 1 {
      assert front == effects[..n];
    } else {
      assert front[..n] == effects[..n];
      RefusalStops(t, c, front, n);
    }
  }

  // ---------------------------------------------------------------- the service

  /** A call whose key is free, when nothing fails and nobody interferes. */
  function NewOutcome(sha: Hash, t: Tables, log: Log, p: Prepared, answers: Answers): (Result<DecisionRecord>, Tables) {
    match BuildCommit(p, answers)
    case Err(e) => (Err(e), t)
    case Ok(c) =>
      var (r, t') := CommitOutcome(sha, t, log, c);
      (Conclude(r, p.digest), t')
  }

  /** What a call does when nothing fails and nobody interferes: an existing record answers
      before the policy is asked; otherwise the policy's answer is committed. */
  function EvaluateOutcome(
      sha: Hash, t: Tables, log: Log, call: Call, answers: Answers): (Result<DecisionRecord>, Tables) {
    match Prepare(sha, call)
    case Err(e) => (Err(e), t)
    case Ok(p) =>
      if p.key in log then (Verdict(log[p.key], p.digest), t) else NewOutcome(sha, t, log, p, answers)
  }

  class DecisionService {
    const ledger: DecisionLedger

    constructor (ledger: DecisionLedger)
      ensures this.ledger == ledger
    {
      this.ledger := ledger;
    }

    /** The part of `Evaluate` after a lookup that found nothing. */
    method EvaluateNew(
        p: Prepared, answers: Answers, beforeCommit: seq<EvaluationCommit>,
        x: World) returns (r: Result<DecisionRecord>)
      requires ledger.Valid() && Fair(ledger.sha, beforeCommit) && Fair(ledger.sha, x.beforeInsert)
      requires Fair(ledger.sha, x.beforeReread)
      requires PreparedOk(ledger.sha, p)
      modifies ledger
      ensures ledger.Valid() && Grows(old(ledger.tables), ledger.tables) && Subtable(old(ledger.log), ledger.log)
      ensures Justified(ledger.log, p, r)
      ensures beforeCommit == [] && Calm(x) ==>
                (r, ledger.tables) == NewOutcome(ledger.sha, old(ledger.tables), old(ledger.log), p, answers)
    {
      hide Recorded, BuiltFor, PreparedOk, Fair, BuildCommit, CommitOutcome, Conclude, Applied;
      hide Grows, Subtable, Calm, Justified;
      Unchanged(ledger.tables, ledger.log);
      DecideOutcome(ledger.sha, ledger.log, p, answers);
      var commit := BuildEvaluationCommit(p, answers);
      if commit.Err? {
        return Err(commit.error);
      }
      ledger.OtherCallers(beforeCommit);
      ghost var between, logged := ledger.tables, ledger.log;
      var answer := ledger.CommitEvaluation(commit.value, x, p);
      GrowsTransitive(old(ledger.tables), between, ledger.tables);
      SubtableTransitive(old(ledger.log), logged, ledger.log);
      ConcludeKeeps(ledger.log, p, answer);
      r := Conclude(answer, p.digest);
    }

    /** `Evaluate`. Its answer is justified by the ledger in any weather and exactly the
        specified outcome in calm weather. */
    method Evaluate(call: Call, answers: Answers, lookFault: bool, beforeCommit: seq<EvaluationCommit>, x: World)
        returns (r: Result<DecisionRecord>)
      requires ledger.Valid() && Fair(ledger.sha, beforeCommit) && Fair(ledger.sha, x.beforeInsert)
      requires Fair(ledger.sha, x.beforeReread)
      modifies ledger
      ensures ledger.Valid() && Grows(old(ledger.tables), ledger.tables) && Subtable(old(ledger.log), ledger.log)
      ensures Prepare(ledger.sha, call).Ok? ==> Justified(ledger.log, Prepare(ledger.sha, call).value, r)
      ensures Prepare(ledger.sha, call).Err? ==> r == Err(InvalidInput) && ledger.tables == old(ledger.tables)
      ensures !lookFault && beforeCommit == [] && Calm(x) ==>
                (r, ledger.tables) == EvaluateOutcome(ledger.sha, old(ledger.tables), old(ledger.log), call, answers)
    {
      hide Recorded, Lookup, PreparedOk, Fair, Prepare, Grows, Subtable, Calm, ResolveStored, NewOutcome, Verdict;
      hide NewAuthenticatedRuntime, NormalRequestId, Normalize, Trim;
      Unchanged(ledger.tables, ledger.log);
      PrepareSound(ledger.sha, call);
      var prepared := Prepare(ledger.sha, call);
      if prepared.Err? {
        PrepareErrors(ledger.sha, call);
        return Err(prepared.error);
      }
      var p := prepared.value;
      if lookFault {
        return Err(LedgerFailure);
      }
      LookOutcome(ledger.sha, ledger.tables, ledger.log, p);
      var existing := Lookup(ledger.sha, ledger.tables, p.key);
      if existing.Ok? {
        return ResolveStored(existing.value, p.key, p.digest);
      }
      if existing.error != EvaluationNotFound {
        return Err(LedgerFailure);
      }
      r := EvaluateNew(p, answers, beforeCommit, x);
    }
  }

  /** The first lookup answers from the log, and goes on exactly when the key is free. */
  lemma LookOutcome(sha: Hash, t: Tables, log: Log, p: Prepared)
    requires Recorded(sha, t, log) && PreparedOk(sha, p)
    ensures AfterLook(sha, t, p, false) == if p.key in log then Done(Verdict(log[p.key], p.digest)) else Deciding
    ensures p.key in log ==> Justified(log, p, Verdict(log[p.key], p.digest))
  {
    hide Recorded, AfterLook, PreparedOk, Verdict;
    LookKeeps(sha, t, log, p, false);
  }

  lemma DecideOutcome(sha: Hash, log: Log, p: Prepared, answers: Answers)
    requires PreparedOk(sha, p)
    ensures var commit := BuildCommit(p, answers);
            && (commit.Ok? ==> BuiltFor(sha, p, commit.value))
            && (commit.Err? ==> Justified(log, p, Err(commit.error)))
  {
    hide PreparedOk, BuildCommit, BuiltFor;
    DecideKeeps(sha, log, p, answers);
  }

  lemma PrepareErrors(sha: Hash, call: Call)
    requires Prepare(sha, call).Err?
    ensures Prepare(sha, call).error == InvalidInput
  {
    hide NormalizeAction, Trim, ByteLen, ComputeDigest;
  }

  lemma BuildFields(p: Prepared, a: Answers)
    ensures BuildCommit(p, a).Ok? ==> BuildCommit(p, a).value.key == p.key && BuildCommit(p, a).value.digest == p.digest
  {
    hide Trim;
  }

  /** In calm weather a call under a free key succeeds exactly when its commit can be built
      with at most one effect, its texts are storable and its identifiers unused. */
  lemma CalmCallSucceeds(sha: Hash, t: Tables, log: Log, call: Call, answers: Answers)
    requires Recorded(sha, t, log) && Prepare(sha, call).Ok? && Prepare(sha, call).value.key !in log
    ensures var commit := BuildCommit(Prepare(sha, call).value, answers);
            EvaluateOutcome(sha, t, log, call, answers).0.Ok? <==>
              commit.Ok? && |commit.value.effects| <= 1 && Storable(commit.value) && Unused(sha, t, commit.value)
  {
    hide Recorded, Prepare, BuildCommit, PreparedOk, BuiltFor, Storable, Unused, CommitOutcome, Conclude;
    PrepareSound(sha, call);
    var p := Prepare(sha, call).value;
    if BuildCommit(p, answers).Ok? {
      BuildFields(p, answers);
      BuildCommitSound(sha, p, answers);
      CalmCommitSucceeds(sha, t, log, p, BuildCommit(p, answers).value);
    }
  }

  lemma CalmCommitSucceeds(sha: Hash, t: Tables, log: Log, p: Prepared, c: EvaluationCommit)
    requires Recorded(sha, t, log) && BuiltFor(sha, p, c) && c.key !in log
    ensures Conclude(CommitOutcome(sha, t, log, c).0, c.digest).Ok? <==>
        |c.effects| <= 1 && Storable(c) && Unused(sha, t, c)
  {
    hide Recorded, Encode, Transact, Committable, BuiltFor, Storable, Unused, Authoritative;
    BuiltCommitEncodes(sha, p, c);
    if Encode(sha, c).Ok? {
      AcceptedIsAuthoritative(sha, c);
      UncontendedCommit(sha, t, log, c, Encode(sha, c).value);
    }
  }
}
