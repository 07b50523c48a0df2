/** The specification the protocol implements: a write-once map from (runtime, request) to
    the authoritative record, with operations that put if absent, then read. */
module WriteOnce {
  import opened Actions
  import opened Journal
  import opened Ledger
  import opened Protocol
  import opened Results
  import opened Service

  datatype Operation = Operation(key: Key, digest: string, answer: Option<Result<DecisionRecord>>)

  datatype Abstract = Abstract(store: map<Key, DecisionRecord>, operations: map<nat, Operation>)

  /** A success is the stored record with the caller's digest; a conflict means a stored
      record with another digest; any other error except not-found is allowed. */
  ghost predicate Allowed(store: map<Key, DecisionRecord>, op: Operation, r: Result<DecisionRecord>) {
    match r
    case Ok(record) => op.key in store && store[op.key] == record && record.digest == op.digest
    case Err(RequestIdConflict) => op.key in store && store[op.key].digest != op.digest
    case Err(e) => e != EvaluationNotFound
  }

  datatype Move =
    | Stutter
    | Invoke(w: nat, key: Key, digest: string)
    | Put(w: nat, record: DecisionRecord)
    | Respond(w: nat, result: Result<DecisionRecord>)
    | Forget(w: nat)

  ghost predicate Moves(a: Abstract, move: Move, a': Abstract) {
    match move
    case Stutter => a' == a
    case Invoke(w, key, digest) =>
      w !in a.operations && a' == a.(operations := a.operations[w := Operation(key, digest, None)])
    case Put(w, record) =>
      && w in a.operations && a.operations[w].answer.None?
      && a.operations[w].key !in a.store && record.digest == a.operations[w].digest
      && a' == a.(store := a.store[a.operations[w].key := record])
    case Respond(w, r) =>
      && w in a.operations && a.operations[w].answer.None? && Allowed(a.store, a.operations[w], r)
      && a' == a.(operations := a.operations[w := a.operations[w].(answer := Some(r))])
    case Forget(w) => a' == a.(operations := a.operations - {w})
  }

  ghost predicate AbstractStep(a: Abstract, a': Abstract) { exists move :: Moves(a, move, a') }

  /** The write-once law of the specification itself. */
  lemma StoreIsWriteOnce(a: Abstract, a': Abstract)
    requires AbstractStep(a, a')
    ensures Subtable(a.store, a'.store)
  {
  }

  // ---------------------------------------------------------------- the refinement mapping

  function StoreOf(log: Log): map<Key, DecisionRecord> { map k | k in log :: RecordOf(log[k]) }

  function OperationOf(worker: Worker): Operation {
    Operation(worker.request.key, worker.request.digest, if worker.pc.Done? then Some(worker.pc.result) else None)
  }

  function OperationsOf(workers: map<nat, Worker>): map<nat, Operation> {
    map w | w in workers :: OperationOf(workers[w])
  }

  function Abstraction(s: State): Abstract { Abstract(StoreOf(s.shared.log), OperationsOf(s.workers)) }

  /** The abstract move an event stands for: an applied commit is the put, reaching `Done`
      is the response. */
  function MoveOf(sha: Hash, s: State, ev: Event): Move {
    match ev
    case Arrive(w, call) =>
      if w in s.workers || Prepare(sha, call).Err? then Stutter
      else Invoke(w, Prepare(sha, call).value.key, Prepare(sha, call).value.digest)
    case Crash(w) => Forget(w)
    case Work(w, x) =>
      if w !in s.workers || s.workers[w].pc.Done? then Stutter
      else
        var (d, pc) := Advance(sha, s.shared, w, s.workers[w], x);
        if pc.Done? then Respond(w, pc.result)
        else if s.workers[w].pc.Committing? && d.log != s.shared.log then Put(w, RecordOf(s.workers[w].pc.commit))
        else Stutter
  }

  /** Only a commit touches the log, and then it adds the caller's own key; an answer is final. */
  lemma AdvanceLog(sha: Hash, d: Shared, w: nat, worker: Worker, x: Weather)
    ensures var (d', pc) := Advance(sha, d, w, worker, x);
            && (!worker.pc.Committing? ==> d'.log == d.log)
            && (worker.pc.Committing? ==> d'.log == d.log || d'.log == d.log[worker.pc.commit.key := worker.pc.commit])
            && (worker.pc.Committing? ==> !pc.Done?)
            && (worker.pc.Done? ==> pc == worker.pc)
  {
    hide AfterLook, AfterDecide, AfterRecheck, AfterResolve, Conclude, InsertRequest, InsertDecision, InsertEffect;
    hide RequestRowOf, DecisionRowOf, EffectRowOf;
  }

  lemma OperationsUpdate(workers: map<nat, Worker>, w: nat, worker: Worker)
    ensures OperationsOf(workers[w := worker]) == OperationsOf(workers)[w := OperationOf(worker)]
  {
  }

  lemma StoreUpdate(log: Log, c: EvaluationCommit)
    ensures StoreOf(log[c.key := c]) == StoreOf(log)[c.key := RecordOf(c)]
  {
  }

  lemma JustifiedAllowed(log: Log, worker: Worker, r: Result<DecisionRecord>)
    requires Justified(log, worker.request, r)
    ensures Allowed(StoreOf(log), OperationOf(worker), r)
  {
  }

  lemma WorkRefines(sha: Hash, s: State, w: nat, x: Weather)
    requires Inv(sha, s) && w in s.workers
    ensures Moves(Abstraction(s), MoveOf(sha, s, Work(w, x)), Abstraction(Next(sha, s, Work(w, x))))
  {
    hide Recorded, Advance, OperationsOf, StoreOf, Prepare, PreparedOk, BuiltFor, Allowed, Subtable;
    hide Grows, StagedFor, Committable, Encode;
    var worker := s.workers[w];
    var (d, pc) := Advance(sha, s.shared, w, worker, x);
    AdvanceKeeps(sha, s, w, x);
    AdvanceLog(sha, s.shared, w, worker, x);
    OperationsUpdate(s.workers, w, worker.(pc := pc));
    OperationsUpdate(s.workers, w, worker);
    assert s.workers[w := worker] == s.workers;
    Running(s.workers, w);
    if pc.Done? && !worker.pc.Done? {
      JustifiedAllowed(s.shared.log, worker, pc.result);
    } else if worker.pc.Committing? && d.log != s.shared.log {
      assert WorkerOk(sha, s.shared.log, worker);
      StoreUpdate(s.shared.log, worker.pc.commit);
      FreshPut(sha, s, w);
    }
  }

  lemma Running(workers: map<nat, Worker>, w: nat)
    requires w in workers
    ensures w in OperationsOf(workers) && OperationsOf(workers)[w] == OperationOf(workers[w])
  {
  }

  lemma FreshPut(sha: Hash, s: State, w: nat)
    requires Inv(sha, s) && w in s.workers && s.workers[w].pc.Committing?
    ensures s.workers[w].pc.commit.key !in StoreOf(s.shared.log)
  {
    hide Stored, Owned, LogOk, DistinctDecisions, DistinctIdempotencyKeys, Prepare, PreparedOk;
    hide PcOk, RequestRowOf, EffectMap;
  }

  /** Refinement: every event of every run is one move of the write-once map. */
  lemma EventRefines(sha: Hash, s: State, ev: Event)
    requires Inv(sha, s)
    ensures AbstractStep(Abstraction(s), Abstraction(Next(sha, s, ev)))
  {
    hide Recorded, Advance, StoreOf, Prepare, WorkerOk, Moves;
    var a, a' := Abstraction(s), Abstraction(Next(sha, s, ev));
    match ev
    case Arrive(w, call) => ArriveRefines(sha, s, w, call);
    case Work(w, x) =>
      if w in s.workers {
        WorkRefines(sha, s, w, x);
      } else {
        StutterMoves(a);
      }
    case Crash(w) => CrashRefines(sha, s, w);
    assert Moves(a, MoveOf(sha, s, ev), a');
  }

  lemma StutterMoves(a: Abstract)
    ensures Moves(a, Stutter, a)
  {
  }

  lemma ArriveRefines(sha: Hash, s: State, w: nat, call: Call)
    ensures Moves(Abstraction(s), MoveOf(sha, s, Arrive(w, call)), Abstraction(Next(sha, s, Arrive(w, call))))
  {
    hide Prepare, Advance;
  }

  lemma CrashRefines(sha: Hash, s: State, w: nat)
    ensures Moves(Abstraction(s), Forget(w), Abstraction(Next(sha, s, Crash(w))))
  {
    hide Prepare, Advance;
    assert OperationsOf(s.workers - {w}) == OperationsOf(s.workers) - {w};
  }

  /** The history of a run, seen through the mapping: it starts empty, each step is a move and
      no move rebinds a key. */
  lemma RunRefines(sha: Hash, events: seq<Event>, n: nat)
    requires n < |events|
    ensures Abstraction(Run(sha, [])) == Abstract(map[], map[])
    ensures AbstractStep(Abstraction(Run(sha, events[..n])), Abstraction(Run(sha, events[..n + 1])))
    ensures Subtable(Abstraction(Run(sha, events[..n])).store, Abstraction(Run(sha, events[..n + 1])).store)
  {
    hide Inv, Next, AbstractStep, Run, Abstraction;
    RunInvariant(sha, events[..n]);
    StartsAbstract(sha);
    assert events[..n + 1] == events[..n] + [events[n]];
    StepTo(sha, events[..n], events[n]);
    EventRefines(sha, Run(sha, events[..n]), events[n]);
    StoreIsWriteOnce(Abstraction(Run(sha, events[..n])), Abstraction(Run(sha, events[..n + 1])));
  }

  lemma StartsAbstract(sha: Hash)
    ensures Abstraction(Run(sha, [])) == Abstract(map[], map[])
  {
    hide Next;
  }
}
