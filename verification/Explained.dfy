/** No error without a reason: what a call that meets no fault of its own is told is true, of
    the ledger or of the answers it was given, whatever happens to other callers in between
    and whenever it looks. */
module Explained {
  import opened Actions
  import opened Canonical
  import opened Constraints
  import opened Guards
  import opened Journal
  import opened Ledger
  import opened Protocol
  import opened Results
  import opened Service
  import opened Text
  import Policy

  /** No operation of this caller reports a failure. */
  ghost predicate FaultFree(events: seq<Event>, w: nat) {
    forall k: nat {:trigger Opened(OfRuns, k)} :: Opened(OfRuns, k) ==>
      forall i :: 0 <= i < |events| && Mine(events[i], w) ==> !events[i].weather.fault
  }

  predicate Mine(ev: Event, w: nat) { ev.Work? && ev.w == w }

  /** At this moment of the run the caller asks the policy about its request. */
  predicate Asks(sha: Hash, events: seq<Event>, i: nat, w: nat, p: Prepared)
    requires i <= |events|
  {
    var s := Run(sha, events[..i]);
    w in s.workers && s.workers[w].request == p && s.workers[w].pc == Deciding
  }

  /** A step of the caller that asked the policy brought answers from which this commit, or
      error, is built. */
  ghost predicate Answered(sha: Hash, events: seq<Event>, w: nat, p: Prepared, r: Result<EvaluationCommit>) {
    exists i :: 0 <= i < |events| && Mine(events[i], w) && Asks(sha, events, i, w, p)
                && BuildCommit(p, events[i].weather.answers) == r
  }

  /** What the ledger has against a commit: too many effects, a text SQL takes for blank, or an
      identifier in use. */
  ghost predicate Unacceptable(sha: Hash, t: Tables, c: EvaluationCommit) {
    |c.effects| > 1 || !Storable(c) || !Unused(sha, t, c)
  }

  /** The only reasons for a ledger failure: the key's commit cannot be read back, or the
      caller's own commit is unacceptable. */
  ghost predicate Reason(sha: Hash, events: seq<Event>, w: nat, p: Prepared, d: Shared) {
    || (p.key in d.log && !Readable(d.log[p.key]))
    || exists c :: Answered(sha, events, w, p, Ok(c)) && Unacceptable(sha, d.committed, c)
  }

  ghost predicate PcExplained(sha: Hash, events: seq<Event>, w: nat, p: Prepared, d: Shared, pc: Pc) {
    match pc
    case Looking => true
    case Deciding => true
    case Rechecking(c) => Answered(sha, events, w, p, Ok(c))
    case Beginning(c, _) => Answered(sha, events, w, p, Ok(c))
    case InsertingRequest(c, _) => Answered(sha, events, w, p, Ok(c))
    case InsertingDecision(c, _) => Answered(sha, events, w, p, Ok(c))
    case InsertingEffects(c, _, _) => Answered(sha, events, w, p, Ok(c))
    case Committing(c, _) => Answered(sha, events, w, p, Ok(c))
    case Resolving(c, afterError) =>
      Answered(sha, events, w, p, Ok(c)) && (afterError ==> Unacceptable(sha, d.committed, c))
    case Returned(r) => r.Err? && r != Err(RequestIdConflict) ==> Reason(sha, events, w, p, d)
    case Done(r) =>
      r.Err? && r != Err(RequestIdConflict) ==>
        if r == Err(LedgerFailure) then Reason(sha, events, w, p, d) else Answered(sha, events, w, p, Err(r.error))
  }

  // ---------------------------------------------------------------- reasons stay reasons

  lemma AnsweredStays(
      sha: Hash, events: seq<Event>, ev: Event, w: nat, p: Prepared, r: Result<EvaluationCommit>)
    requires Answered(sha, events, w, p, r)
    ensures Answered(sha, events + [ev], w, p, r)
  {
    hide BuildCommit, Run;
    var i :| 0 <= i < |events| && Mine(events[i], w) && Asks(sha, events, i, w, p)
      && BuildCommit(p, events[i].weather.answers) == r;
    assert (events + [ev])[i] == events[i] && (events + [ev])[..i] == events[..i];
  }

  lemma AnsweredNow(sha: Hash, events: seq<Event>, w: nat, x: Weather, p: Prepared)
    requires Asks(sha, events, |events|, w, p)
    ensures Answered(sha, events + [Work(w, x)], w, p, BuildCommit(p, x.answers))
  {
    hide BuildCommit, Run;
    var now := events + [Work(w, x)];
    assert now[|events|] == Work(w, x) && now[..|events|] == events[..|events|];
    assert Asks(sha, now, |events|, w, p);
  }

  lemma UnacceptableStays(sha: Hash, t: Tables, t': Tables, c: EvaluationCommit)
    requires Unacceptable(sha, t, c) && Grows(t, t')
    ensures Unacceptable(sha, t', c)
  {
    hide Storable, IdempotencyKey;
  }

  lemma ReasonStays(sha: Hash, events: seq<Event>, ev: Event, w: nat, p: Prepared, d: Shared, d': Shared)
    requires Reason(sha, events, w, p, d) && Grows(d.committed, d'.committed) && Subtable(d.log, d'.log)
    ensures Reason(sha, events + [ev], w, p, d')
  {
    hide Answered, Unacceptable, Grows, Readable;
    if !(p.key in d.log && !Readable(d.log[p.key])) {
      var c :| Answered(sha, events, w, p, Ok(c)) && Unacceptable(sha, d.committed, c);
      AnsweredStays(sha, events, ev, w, p, Ok(c));
      UnacceptableStays(sha, d.committed, d'.committed, c);
    }
  }

  lemma ExplainedStays(sha: Hash, events: seq<Event>, ev: Event, w: nat, p: Prepared, d: Shared, d': Shared, pc: Pc)
    requires PcExplained(sha, events, w, p, d, pc) && Grows(d.committed, d'.committed) && Subtable(d.log, d'.log)
    ensures PcExplained(sha, events + [ev], w, p, d', pc)
  {
    hide Answered, Unacceptable, Grows, Subtable, Reason;
    if Reason(sha, events, w, p, d) { ReasonStays(sha, events, ev, w, p, d, d'); }
    forall r | Answered(sha, events, w, p, r)
      ensures Answered(sha, events + [ev], w, p, r)
    {
      AnsweredStays(sha, events, ev, w, p, r);
    }
    if pc.Resolving? && pc.afterError { UnacceptableStays(sha, d.committed, d'.committed, pc.commit); }
  }

  // ---------------------------------------------------------------- refused inserts

  lemma RefusedRequest(sha: Hash, t: Tables, c: EvaluationCommit, e: Encoded)
    requires Accepted(sha, c, e)
    requires InsertRequest(t, c.key, RequestRowOf(c, e)).Rejected?
    ensures Unacceptable(sha, t, c)
  {
    hide Encode, Accepted, RequestChecks, SqlNonBlank, RequestRowOf, Unused;
    RequestRowAccepted(sha, c, e);
  }

  lemma RefusedDecision(sha: Hash, t: Tables, pending: Tables, c: EvaluationCommit, e: Encoded)
    requires Accepted(sha, c, e) && Staged(t, pending, c, e, false, 0)
    requires c.key !in t.decisions
    requires !InsertDecision(pending, c.key, DecisionRowOf(c, e)).Inserted?
    ensures Unacceptable(sha, t, c)
  {
    hide Encode, Accepted, InsertDecision, SqlNonBlank, RequestRowOf, DecisionRowOf;
    hide DistinctIdempotencyKeys, DecisionIdTaken;
    hide IdempotencyKey, IdempotencyKeyTaken;
    PendingIs(t, pending, c, e, false);
    DecisionInserts(sha, t, c, e);
  }

  lemma PendingIs(t: Tables, pending: Tables, c: EvaluationCommit, e: Encoded, decided: bool)
    requires Staged(t, pending, c, e, decided, 0)
    ensures pending == if decided then AfterDecision(t, c, e) else AfterRequest(t, c, e)
  {
    hide RequestRowOf, DecisionRowOf, DistinctIdempotencyKeys, DecisionIdTaken;
    assert e.effects[..0] == [];
    assert pending.effects == t.effects;
  }

  lemma RefusedEffect(sha: Hash, t: Tables, pending: Tables, c: EvaluationCommit, e: Encoded, n: nat)
    requires Encode(sha, c) == Ok(e) && n < |e.effects| && Staged(t, pending, c, e, true, n)
    requires !InsertEffect(pending, e.effects[n].effectId, EffectRowOf(c, e.effects[n])).Inserted?
    ensures Unacceptable(sha, t, c)
  {
    hide Encode, InsertEffect, EffectRowOf, Staged, Unacceptable;
    SingleEffect(sha, c, e);
    assert n == 0;
    RefusedFirst(sha, t, pending, c, e);
  }

  lemma RefusedFirst(sha: Hash, t: Tables, pending: Tables, c: EvaluationCommit, e: Encoded)
    requires Encode(sha, c) == Ok(e) && |e.effects| == 1 && Staged(t, pending, c, e, true, 0)
    requires !InsertEffect(pending, e.effects[0].effectId, EffectRowOf(c, e.effects[0])).Inserted?
    ensures Unacceptable(sha, t, c)
  {
    hide Encode, InsertEffect, EffectRowOf, Staged, AfterDecision, Unacceptable;
    PendingIs(t, pending, c, e, true);
    OnlyEffectRefused(sha, t, c, e);
  }

  lemma SingleEffect(sha: Hash, c: EvaluationCommit, e: Encoded)
    requires Encode(sha, c) == Ok(e)
    ensures |e.effects| == |c.effects| <= 1 && EncodedEffects(sha, c.key, c.effects) == Ok(e.effects)
  {
    hide Encode, EncodedEffects, ComputeDigest, ValidDigest, CanonicalText, Trim;
    EncodeParts(sha, c);
    AtMostOneEncoded(sha, c.key, c.effects);
  }

  lemma OnlyEffectRefused(sha: Hash, t: Tables, c: EvaluationCommit, e: Encoded)
    requires Encode(sha, c) == Ok(e) && |e.effects| == 1
    requires !InsertEffect(AfterDecision(t, c, e), e.effects[0].effectId, EffectRowOf(c, e.effects[0])).Inserted?
    ensures Unacceptable(sha, t, c)
  {
    hide Encode, InsertEffect, SqlNonBlank, EffectRowOf, DecisionIdTaken, IdempotencyKey;
    hide IdempotencyKeyTaken, AfterDecision;
    hide EncodedEffects, InsertAllEffects, Trim;
    SingleEffect(sha, c, e);
    OwnDecision(t, c, e);
    EffectsInsert(sha, AfterDecision(t, c, e), c);
    assert e.effects == [e.effects[0]];
    InsertOneEffect(AfterDecision(t, c, e), c, e.effects[0]);
    SameEffectsSameKeys(t, AfterDecision(t, c, e), IdempotencyKey(sha, c.key, Policy.CREATE_SAFETY_REVIEW));
  }

  // ---------------------------------------------------------------- steps

  lemma VerdictExplained(sha: Hash, events: seq<Event>, w: nat, p: Prepared, d: Shared)
    ensures p.key in d.log ==> PcExplained(sha, events, w, p, d, Done(Verdict(d.log[p.key], p.digest)))
  {
    hide Readable, Answered, Unacceptable;
  }

  lemma DecideExplained(sha: Hash, events: seq<Event>, w: nat, p: Prepared, d: Shared, x: Weather)
    requires PreparedOk(sha, p) && Asks(sha, events, |events|, w, p)
    ensures PcExplained(sha, events + [Work(w, x)], w, p, d, AfterDecide(p, x.answers))
  {
    hide PreparedOk, BuildCommit, Answered, Reason, Asks;
    AnsweredNow(sha, events, w, x, p);
    if BuildCommit(p, x.answers).Err? { BuildCommitErrors(p, x.answers); }
  }

  lemma RecheckExplained(sha: Hash, events: seq<Event>, w: nat, p: Prepared, d: Shared, c: EvaluationCommit)
    requires Recorded(sha, d.committed, d.log) && BuiltFor(sha, p, c) && Answered(sha, events, w, p, Ok(c))
    ensures PcExplained(sha, events, w, p, d, AfterRecheck(sha, d.committed, c, false))
  {
    hide Recorded, BuiltFor, Encode, Lookup, TrimmedKey, Committable, Readable, Answered, Storable, Unused;
    BuiltKey(sha, p, c);
    BuiltCommitEncodes(sha, p, c);
    LookupReadsLog(sha, d.committed, d.log, c.key);
    if Encode(sha, c).Err? { assert Unacceptable(sha, d.committed, c); }
  }

  lemma ResolveExplained(
      sha: Hash, events: seq<Event>, w: nat, p: Prepared, d: Shared, c: EvaluationCommit, afterError: bool)
    requires Recorded(sha, d.committed, d.log) && TrimmedKey(p.key) && PcOk(sha, d.log, p, Resolving(c, afterError))
    requires PcExplained(sha, events, w, p, d, Resolving(c, afterError))
    ensures PcExplained(sha, events, w, p, d, AfterResolve(sha, d.committed, c, afterError, false))
  {
    hide Recorded, TrimmedKey, ResolveRace, Readable, Answered, Unacceptable;
    RaceReadsLog(sha, d.committed, d.log, c);
  }

  lemma ConcludeExplained(
      sha: Hash, events: seq<Event>, w: nat, p: Prepared, d: Shared, r: Result<DecisionRecord>)
    requires r.Ok? ==> Authoritative(r.value, p.digest)
    requires PcExplained(sha, events, w, p, d, Returned(r))
    ensures PcExplained(sha, events, w, p, d, Done(Conclude(r, p.digest)))
  {
    hide Reason, Answered, Authoritative;
  }

  lemma InsertRequestExplained(
      sha: Hash, events: seq<Event>, w: nat, p: Prepared, d: Shared, c: EvaluationCommit, e: Encoded)
    requires CommitOf(sha, p, c, e) && Answered(sha, events, w, p, Ok(c)) && !Holds(d, w)
    ensures var (d', pc) := InsertRequestStep(d, w, c, e, false);
            d'.committed == d.committed && d'.log == d.log && PcExplained(sha, events, w, p, d', pc)
  {
    hide InsertRequest, RequestRowOf, Answered, Unacceptable, Accepted, Encode;
    if InsertRequest(d.committed, c.key, RequestRowOf(c, e)).Rejected? { RefusedRequest(sha, d.committed, c, e); }
  }

  lemma InsertDecisionExplained(
      sha: Hash, events: seq<Event>, w: nat, p: Prepared, d: Shared, c: EvaluationCommit, e: Encoded)
    requires CommitOf(sha, p, c, e) && Answered(sha, events, w, p, Ok(c)) && c.key !in d.committed.decisions
    requires Holds(d, w) && Staged(d.committed, d.writer.value.pending, c, e, false, 0)
    ensures var (d', pc) := InsertDecisionStep(d, w, c, e, false);
            d'.committed == d.committed && d'.log == d.log && PcExplained(sha, events, w, p, d', pc)
  {
    hide InsertDecision, DecisionRowOf, Answered, Unacceptable, Accepted, Encode, Staged;
    var pending := d.writer.value.pending;
    if !InsertDecision(pending, c.key, DecisionRowOf(c, e)).Inserted? {
      RefusedDecision(sha, d.committed, pending, c, e);
    }
  }

  lemma InsertEffectExplained(
      sha: Hash, events: seq<Event>, w: nat, p: Prepared, d: Shared, c: EvaluationCommit, e: Encoded, n: nat)
    requires CommitOf(sha, p, c, e) && Answered(sha, events, w, p, Ok(c)) && n <= |e.effects|
    requires Holds(d, w) && Staged(d.committed, d.writer.value.pending, c, e, true, n)
    ensures var (d', pc) := InsertEffectStep(d, w, c, e, n, false);
            d'.committed == d.committed && d'.log == d.log && PcExplained(sha, events, w, p, d', pc)
  {
    hide InsertEffect, EffectRowOf, Answered, Unacceptable, Accepted, Encode, Staged;
    var pending := d.writer.value.pending;
    AcceptedParts(sha, c, e);
    if n < |e.effects| && !InsertEffect(pending, e.effects[n].effectId, EffectRowOf(c, e.effects[n])).Inserted? {
      RefusedEffect(sha, d.committed, pending, c, e, n);
    }
  }

  /** A fault-free step of the caller itself. */
  lemma AdvanceExplained(sha: Hash, events: seq<Event>, s: State, w: nat, x: Weather)
    requires Inv(sha, s) && s == Run(sha, events) && w in s.workers && !x.fault
    requires PcExplained(sha, events, w, s.workers[w].request, s.shared, s.workers[w].pc)
    ensures var (d, pc) := Advance(sha, s.shared, w, s.workers[w], x);
            PcExplained(sha, events + [Work(w, x)], w, s.workers[w].request, d, pc)
  {
    hide Recorded, PreparedOk, Prepare, Staged, CommitOf, BuiltFor, AfterLook, AfterDecide;
    hide AfterRecheck, AfterResolve, Justified;
    hide InsertRequestStep, InsertDecisionStep, InsertEffectStep, Conclude, Answered, Reason, Unacceptable, TrimmedKey;
    hide NormalAction, Run;
    var d, p, pc, now := s.shared, s.workers[w].request, s.workers[w].pc, events + [Work(w, x)];
    assert WorkerOk(sha, d.log, s.workers[w]);
    SameTables(d);
    ExplainedStays(sha, events, Work(w, x), w, p, d, d, pc);
    match pc
    case Looking =>
      LookKeeps(sha, d.committed, d.log, p, false);
      VerdictExplained(sha, now, w, p, d);
    case Deciding =>
      assert events[..|events|] == events;
      DecideExplained(sha, events, w, p, d, x);
    case Rechecking(c) => RecheckExplained(sha, now, w, p, d, c);
    case Beginning(c, e) =>
    case InsertingRequest(c, e) => InsertRequestExplained(sha, now, w, p, d, c, e);
    case InsertingDecision(c, e) =>
      FreeDecision(sha, d.committed, d.log, d.writer.value.pending, c, e);
      InsertDecisionExplained(sha, now, w, p, d, c, e);
    case InsertingEffects(c, e, n) => InsertEffectExplained(sha, now, w, p, d, c, e, n);
    case Committing(c, e) =>
    case Resolving(c, afterError) =>
      RequestParts(sha, p);
      ResolveExplained(sha, now, w, p, d, c, afterError);
    case Returned(r) =>
      if r.Ok? { RecordAuthoritative(sha, d, p, r.value); }
      ConcludeExplained(sha, now, w, p, d, r);
    case Done(r) =>
  }

  lemma RecordAuthoritative(sha: Hash, d: Shared, p: Prepared, record: DecisionRecord)
    requires Recorded(sha, d.committed, d.log) && Justified(d.log, p, Ok(record))
    ensures Authoritative(record, p.digest)
  {
    hide Recorded, Authoritative;
    AuthoritativeInLog(sha, d.committed, d.log, p.key);
  }

  lemma SameTables(d: Shared)
    ensures Grows(d.committed, d.committed) && Subtable(d.log, d.log)
  {
  }

  lemma FreeDecision(sha: Hash, t: Tables, log: Log, pending: Tables, c: EvaluationCommit, e: Encoded)
    requires Recorded(sha, t, log) && Staged(t, pending, c, e, false, 0)
    ensures c.key !in t.decisions
  {
    hide Recorded, DistinctIdempotencyKeys, RequestRowOf, EffectMap;
    RecordedKeys(sha, t, log);
  }

  // ---------------------------------------------------------------- whole runs

  ghost predicate CallExplained(sha: Hash, events: seq<Event>, w: nat, s: State) {
    w in s.workers ==> PcExplained(sha, events, w, s.workers[w].request, s.shared, s.workers[w].pc)
  }

  lemma NextExplained(sha: Hash, events: seq<Event>, s: State, ev: Event, w: nat)
    requires Inv(sha, s) && s == Run(sha, events)
    requires CallExplained(sha, events, w, s) && (Mine(ev, w) ==> !ev.weather.fault)
    ensures CallExplained(sha, events + [ev], w, Next(sha, s, ev))
  {
    hide Inv, Advance, Prepare, PcExplained, Grows, Subtable, Run;
    NextKeeps(sha, s, ev);
    var s' := Next(sha, s, ev);
    if w in s'.workers {
      if Mine(ev, w) {
        AdvanceExplained(sha, events, s, w, ev.weather);
      } else if w in s.workers {
        assert s'.workers[w] == s.workers[w];
        ExplainedStays(sha, events, ev, w, s.workers[w].request, s.shared, s'.shared, s.workers[w].pc);
      } else {
        NewcomerExplained(sha, events + [ev], w, s');
      }
    }
  }

  lemma NewcomerExplained(sha: Hash, events: seq<Event>, w: nat, s: State)
    requires w in s.workers && s.workers[w].pc == Looking
    ensures PcExplained(sha, events, w, s.workers[w].request, s.shared, s.workers[w].pc)
  {
  }

  lemma {:induction false} RunExplained(sha: Hash, events: seq<Event>, w: nat)
    requires FaultFree(events, w)
    ensures CallExplained(sha, events, w, Run(sha, events))
  {
    hide Inv, Next, PcExplained, Mine;
    if events != [] {
      var n := |events| - 1;
      var front := events[..n];
      assert events == front + [events[n]];
      assert FaultFree(front, w) by {
        hide Run;
        assert forall i :: 0 <= i < n ==> front[i] == events[i];
      }
      assert Opened(OfRuns, 0);
      RunInvariant(sha, front);
      RunExplained(sha, front, w);
      NextExplained(sha, front, Run(sha, front), events[n], w);
    }
  }

  /** No error without a reason: a caller none of whose operations failed is told its key's
      record; of a conflict, with a commit of another digest there; of a ledger failure, when
      that commit cannot be read or its own is unacceptable to the ledger; or of the policy,
      identifier or clock error in its own answers. Other callers' faults never reach it. */
  lemma ErrorsAreExplained(sha: Hash, events: seq<Event>, w: nat)
    requires FaultFree(events, w)
    ensures var s := Run(sha, events);
            w in s.workers && s.workers[w].pc.Done? ==>
              var p, d := s.workers[w].request, s.shared;
              match s.workers[w].pc.result
              case Ok(record) => p.key in d.log && record == RecordOf(d.log[p.key]) && record.digest == p.digest
              case Err(RequestIdConflict) => p.key in d.log && d.log[p.key].digest != p.digest
              case Err(LedgerFailure) => Reason(sha, events, w, p, d)
              case Err(e) => Answered(sha, events, w, p, Err(e))
  {
    hide Run, Recorded, Prepare, PreparedOk, WriterOk, Holds, Reason, Answered;
    RunExplained(sha, events, w);
    RunInvariant(sha, events);
    var s := Run(sha, events);
    if w in s.workers { assert WorkerOk(sha, s.shared.log, s.workers[w]); }
  }
}
