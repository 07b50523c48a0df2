/** What a caller is told who finds a commit under its key: a retry is told the recorded
    decision and changes nothing, another action is told of a conflict, and after a failed
    insert or commit a conflict is reported as something else. Each is stated for the three
    points at which a call reads. */
module Idempotence {
  import opened Actions
  import opened Guards
  import opened Journal
  import opened Ledger
  import opened Normalizer
  import opened Protocol
  import opened Results
  import opened Service
  import opened Text

  /** The same request again: the identifiers up to outer spaces, the facts up to order and
      repetition. */
  ghost predicate SameRequest(call: Call, again: Call) {
    forall k: nat {:trigger Opened(OfRequests, k)} :: Opened(OfRequests, k) ==>
      && Trim(call.runtimeId) == Trim(again.runtimeId) && Trim(call.requestId) == Trim(again.requestId)
      && SameFacts(call.input, again.input)
  }

  /** A lookup step that works is answered from the log: it changes nothing shared, and the
      call ends with the verdict of the commit under its key, if there is one. */
  lemma LookStep(sha: Hash, s: State, w: nat, x: Weather)
    requires Inv(sha, s) && w in s.workers && s.workers[w].pc == Looking && !x.fault
    ensures var s', p := Next(sha, s, Work(w, x)), s.workers[w].request;
            && s'.shared == s.shared && w in s'.workers && s'.workers[w].request == p
            && s'.workers[w].pc ==
                 if p.key in s.shared.log then Done(Verdict(s.shared.log[p.key], p.digest)) else Deciding
  {
    hide Recorded, Prepare, PreparedOk, AfterLook, WriterOk, Holds, Verdict, AfterDecide;
    hide AfterRecheck, AfterResolve, Conclude;
    hide InsertRequestStep, InsertDecisionStep, InsertEffectStep, CommitStep;
    assert WorkerOk(sha, s.shared.log, s.workers[w]);
    LookKeeps(sha, s.shared.committed, s.shared.log, s.workers[w].request, false);
  }

  lemma WorkersPrepared(sha: Hash, s: State, w: nat)
    requires Inv(sha, s) && w in s.workers
    ensures Prepare(sha, s.workers[w].call) == Ok(s.workers[w].request) && PreparedOk(sha, s.workers[w].request)
  {
    hide Recorded, Prepare, PreparedOk, PcOk, WriterOk, Holds;
    assert WorkerOk(sha, s.shared.log, s.workers[w]);
  }

  /** Idempotence end to end: once one call has returned a record, a call with the same facts
      that looks at any later moment of any run is told that very record, whatever the policy,
      the identifiers and the clock would now say, and changes nothing; unless the record's
      years cannot be read back, and then it is told of a ledger failure. */
  lemma RetryReturnsTheRecord(
      sha: Hash, events: seq<Event>, more: seq<Event>, v: nat, w: nat, record: DecisionRecord, x: Weather)
    requires v in Run(sha, events).workers && Run(sha, events).workers[v].pc == Done(Ok(record))
    requires w in Run(sha, events + more).workers && Run(sha, events + more).workers[w].pc == Looking && !x.fault
    requires SameRequest(Run(sha, events).workers[v].call, Run(sha, events + more).workers[w].call)
    ensures var s, s' := Run(sha, events + more), Run(sha, events + more + [Work(w, x)]);
            var key := s.workers[w].request.key;
            && s'.shared == s.shared && key in s.shared.log && w in s'.workers
            && s'.workers[w].pc == Done(if Readable(s.shared.log[key]) then Ok(record) else Err(LedgerFailure))
  {
    hide Run, Next, Prepare, PreparedOk, Inv, SameFacts, Trim, Readable, RecordOf;
    var first, s := Run(sha, events), Run(sha, events + more);
    RunInvariant(sha, events);
    RunInvariant(sha, events + more);
    WorkersPrepared(sha, first, v);
    WorkersPrepared(sha, s, w);
    assert Opened(OfRequests, 0);
    RetryIsTheSameRequest(sha, first.workers[v].call, s.workers[w].call);
    SuccessIsLogged(sha, events, v, first.workers[v].request.key, record);
    RowsAreFinal(sha, events, more);
    LookStep(sha, s, w, x);
    StepTo(sha, events + more, Work(w, x));
    RecordDigest(s.shared.log[s.workers[w].request.key], record);
  }

  lemma RecordDigest(c: EvaluationCommit, record: DecisionRecord)
    requires record == RecordOf(c)
    ensures c.digest == record.digest
  {
  }

  // ---------------------------------------------------------------- conflicts

  /** A commit under the caller's key that can be read and carries another digest. */
  predicate Conflicting(log: Log, key: Key, digest: string) {
    key in log && Readable(log[key]) && log[key].digest != digest
  }

  /** Where the worker's next step takes it. */
  function PcAfter(sha: Hash, s: State, w: nat, x: Weather): Pc
    requires w in s.workers
  {
    Advance(sha, s.shared, w, s.workers[w], x).1
  }

  lemma PcAfterNext(sha: Hash, s: State, w: nat, x: Weather)
    requires w in s.workers
    ensures w in Next(sha, s, Work(w, x)).workers && Next(sha, s, Work(w, x)).workers[w].pc == PcAfter(sha, s, w, x)
  {
    hide Advance, Prepare;
  }

  /** Exactly when a working read leads to the conflict error: at each of the three reads, a
      readable commit with another digest, and after the insert or the commit no failure. The
      last condition is the one that turns conflicts into ledger failures. */
  lemma ConflictExactly(sha: Hash, s: State, w: nat, x: Weather)
    requires Inv(sha, s) && w in s.workers && !x.fault
    ensures var pc, p := s.workers[w].pc, s.workers[w].request;
            var pc' := PcAfter(sha, s, w, x);
            && (pc.Looking? ==>
                  (pc' == Done(Err(RequestIdConflict)) <==> Conflicting(s.shared.log, p.key, p.digest)))
            && (pc.Rechecking? ==>
                  (pc' == Returned(Err(RequestIdConflict)) <==>
                     Encode(sha, pc.commit).Ok? && Conflicting(s.shared.log, p.key, p.digest)))
            && (pc.Resolving? ==>
                  (pc' == Returned(Err(RequestIdConflict)) <==>
                     !pc.afterError && Conflicting(s.shared.log, p.key, p.digest)))
            && (pc.Resolving? && pc.afterError && Conflicting(s.shared.log, p.key, p.digest) ==>
                  pc' == Returned(Err(LedgerFailure)))
  {
    hide Recorded, Prepare, PreparedOk, WriterOk, Holds, PcAfter, Next, Readable, Encode;
    var pc := s.workers[w].pc;
    WorkersPrepared(sha, s, w);
    match pc
    case Looking =>
      LookStep(sha, s, w, x);
      PcAfterNext(sha, s, w, x);
    case Rechecking(c) => RecheckConflict(sha, s, w, c, x);
    case Resolving(c, afterError) => ResolveConflict(sha, s, w, c, afterError, x);
    case _ =>
  }

  lemma RecheckConflict(sha: Hash, s: State, w: nat, c: EvaluationCommit, x: Weather)
    requires Inv(sha, s) && w in s.workers && s.workers[w].pc == Rechecking(c) && !x.fault
    ensures var p := s.workers[w].request;
            PcAfter(sha, s, w, x) == Returned(Err(RequestIdConflict)) <==>
              Encode(sha, c).Ok? && Conflicting(s.shared.log, p.key, p.digest)
  {
    hide Recorded, Prepare, PreparedOk, WriterOk, Holds, Lookup, Readable, Encode, TrimmedKey;
    hide BuiltFor, AfterLook, AfterDecide;
    hide AfterResolve, Conclude, InsertRequestStep, InsertDecisionStep, InsertEffectStep, CommitStep;
    assert WorkerOk(sha, s.shared.log, s.workers[w]);
    BuiltKey(sha, s.workers[w].request, c);
    LookupReadsLog(sha, s.shared.committed, s.shared.log, c.key);
    if Encode(sha, c).Err? { EncodeErrors(sha, c); }
  }

  lemma ResolveConflict(sha: Hash, s: State, w: nat, c: EvaluationCommit, afterError: bool, x: Weather)
    requires Inv(sha, s) && w in s.workers && s.workers[w].pc == Resolving(c, afterError) && !x.fault
    ensures var p := s.workers[w].request;
            var pc' := PcAfter(sha, s, w, x);
            && (pc' == Returned(Err(RequestIdConflict)) <==> !afterError && Conflicting(s.shared.log, p.key, p.digest))
            && (afterError && Conflicting(s.shared.log, p.key, p.digest) ==> pc' == Returned(Err(LedgerFailure)))
  {
    hide Recorded, Prepare, WriterOk, Holds, Readable, TrimmedKey, ResolveRace, NormalAction;
    hide PreparedOk, AfterLook, AfterDecide;
    hide AfterRecheck, Conclude, InsertRequestStep, InsertDecisionStep, InsertEffectStep, CommitStep;
    assert WorkerOk(sha, s.shared.log, s.workers[w]);
    RequestParts(sha, s.workers[w].request);
    RaceReadsLog(sha, s.shared.committed, s.shared.log, c);
  }
}
