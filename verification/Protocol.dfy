/** The idempotent commit protocol: any number of `Evaluate` calls interleave over one
    ledger. Every database operation is one step and may fail; a failing commit may have been
    applied; a caller may vanish at any point. An invariant that every event keeps gives
    agreement between callers, finality of rows and the meaning of each error. */
module Protocol {
  import opened Actions
  import opened Canonical
  import opened Journal
  import opened Ledger
  import opened Results
  import opened Service

  /** Where a call stands. From `Rechecking` to `Resolving` it is inside `CommitEvaluation`. */
  datatype Pc =
    | Looking
    | Deciding
    | Rechecking(commit: EvaluationCommit)
    | Beginning(commit: EvaluationCommit, encoded: Encoded)
    | InsertingRequest(commit: EvaluationCommit, encoded: Encoded)
    | InsertingDecision(commit: EvaluationCommit, encoded: Encoded)
    | InsertingEffects(commit: EvaluationCommit, encoded: Encoded, n: nat)
    | Committing(commit: EvaluationCommit, encoded: Encoded)
    | Resolving(commit: EvaluationCommit, afterError: bool)
    | Returned(answer: Result<DecisionRecord>)
    | Done(result: Result<DecisionRecord>)

  datatype Worker = Worker(call: Call, request: Prepared, pc: Pc)

  /** The single writer slot: its holder and the tables only the holder sees. */
  datatype Transaction = Transaction(owner: nat, pending: Tables)

  /** What all callers share. Readers see the committed tables; the log is a history variable. */
  datatype Shared = Shared(committed: Tables, writer: Option<Transaction>, log: Log)

  datatype State = State(shared: Shared, workers: map<nat, Worker>)

  /** What the outside decides about one step: whether the operation reports a failure,
      whether a failing commit took effect anyway, and the answers of the service's ports. */
  datatype Weather = Weather(fault: bool, applied: bool, answers: Answers)

  datatype Event =
    | Arrive(w: nat, call: Call)
    | Work(w: nat, weather: Weather)
    | Crash(w: nat)

  // ---------------------------------------------------------------- steps

  function AfterLook(sha: Hash, t: Tables, p: Prepared, fault: bool): Pc {
    if fault then Done(Err(LedgerFailure))
    else
      match Lookup(sha, t, p.key)
      case Ok(stored) => Done(ResolveStored(stored, p.key, p.digest))
      case Err(EvaluationNotFound) => Deciding
      case Err(_) => Done(Err(LedgerFailure))
  }

  function AfterDecide(p: Prepared, answers: Answers): Pc {
    match BuildCommit(p, answers) case Ok(c) => Rechecking(c) case Err(e) => Done(Err(e))
  }

  function AfterRecheck(sha: Hash, t: Tables, c: EvaluationCommit, fault: bool): Pc {
    match Encode(sha, c)
    case Err(e) => Returned(Err(e))
    case Ok(encoded) =>
      if fault then Returned(Err(LedgerFailure))
      else
        match Lookup(sha, t, c.key)
        case Ok(existing) => Returned(ResolveExisting(existing, c.digest))
        case Err(EvaluationNotFound) => Beginning(c, encoded)
        case Err(e) => Returned(Err(e))
  }

  /** `resolveCommitRace`, and what its caller does with a failure to resolve. */
  function ResolveRace(sha: Hash, t: Tables, c: EvaluationCommit, fault: bool): Result<DecisionRecord> {
    if fault then Err(LedgerFailure)
    else
      match Lookup(sha, t, c.key)
      case Ok(existing) => ResolveExisting(existing, c.digest)
      case Err(e) => Err(e)
  }

  function AfterResolve(sha: Hash, t: Tables, c: EvaluationCommit, afterError: bool, fault: bool): Pc {
    var r := ResolveRace(sha, t, c, fault);
    Returned(if afterError && r.Err? then Err(LedgerFailure) else r)
  }

  predicate Holds(d: Shared, w: nat) { d.writer.Some? && d.writer.value.owner == w }

  /** The first insert takes the writer slot, waiting while another transaction has it. */
  function InsertRequestStep(d: Shared, w: nat, c: EvaluationCommit, e: Encoded, fault: bool): (Shared, Pc) {
    if fault then (d, Resolving(c, true))
    else if d.writer.Some? then (d, InsertingRequest(c, e))
    else
      match InsertRequest(d.committed, c.key, RequestRowOf(c, e))
      case Inserted(t) => (d.(writer := Some(Transaction(w, t))), InsertingDecision(c, e))
      case Ignored => (d, Resolving(c, false))
      case Rejected => (d, Resolving(c, true))
  }

  /** Later statements run inside the transaction; a failure rolls it back. */
  function Statement(d: Shared, w: nat, outcome: Insertion, next: Pc): (Shared, Pc) {
    match outcome
    case Inserted(t) => (d.(writer := Some(Transaction(w, t))), next)
    case _ => (d.(writer := None), Returned(Err(LedgerFailure)))
  }

  function InsertDecisionStep(d: Shared, w: nat, c: EvaluationCommit, e: Encoded, fault: bool): (Shared, Pc) {
    if !Holds(d, w) then (d, InsertingDecision(c, e))
    else
      var outcome := if fault then Rejected else InsertDecision(d.writer.value.pending, c.key, DecisionRowOf(c, e));
      Statement(d, w, outcome, InsertingEffects(c, e, 0))
  }

  function InsertEffectStep(d: Shared, w: nat, c: EvaluationCommit, e: Encoded, n: nat, fault: bool): (Shared, Pc) {
    if n >= |e.effects| then (d, Committing(c, e))
    else if !Holds(d, w) then (d, InsertingEffects(c, e, n))
    else
      var f := e.effects[n];
      var outcome := if fault then Rejected else InsertEffect(d.writer.value.pending, f.effectId, EffectRowOf(c, f));
      Statement(d, w, outcome, InsertingEffects(c, e, n + 1))
  }

  /** The commit's three outcomes: applied, applied but reported failed, not applied. */
  function CommitStep(d: Shared, w: nat, c: EvaluationCommit, e: Encoded, x: Weather): (Shared, Pc) {
    if !Holds(d, w) then (d, Committing(c, e))
    else if x.fault && !x.applied then (d.(writer := None), Resolving(c, true))
    else
      (Shared(d.writer.value.pending, None, d.log[c.key := c]),
       if x.fault then Resolving(c, true) else Returned(Ok(RecordOf(c))))
  }

  function Advance(sha: Hash, d: Shared, w: nat, worker: Worker, x: Weather): (Shared, Pc) {
    match worker.pc
    case Looking => (d, AfterLook(sha, d.committed, worker.request, x.fault))
    case Deciding => (d, AfterDecide(worker.request, x.answers))
    case Rechecking(c) => (d, AfterRecheck(sha, d.committed, c, x.fault))
    case Beginning(c, e) => (d, if x.fault then Returned(Err(LedgerFailure)) else InsertingRequest(c, e))
    case InsertingRequest(c, e) => InsertRequestStep(d, w, c, e, x.fault)
    case InsertingDecision(c, e) => InsertDecisionStep(d, w, c, e, x.fault)
    case InsertingEffects(c, e, n) => InsertEffectStep(d, w, c, e, n, x.fault)
    case Committing(c, e) => CommitStep(d, w, c, e, x)
    case Resolving(c, afterError) => (d, AfterResolve(sha, d.committed, c, afterError, x.fault))
    case Returned(answer) => (d, Done(Conclude(answer, worker.request.digest)))
    case Done(r) => (d, Done(r))
  }

  /** One event. A call that cannot be prepared returns without touching the ledger. */
  function Next(sha: Hash, s: State, ev: Event): State {
    match ev
    case Arrive(w, call) =>
      if w in s.workers || Prepare(sha, call).Err? then s
      else s.(workers := s.workers[w := Worker(call, Prepare(sha, call).value, Looking)])
    case Work(w, x) =>
      if w !in s.workers then s
      else
        var (d, pc) := Advance(sha, s.shared, w, s.workers[w], x);
        State(d, s.workers[w := s.workers[w].(pc := pc)])
    case Crash(w) =>
      State(if Holds(s.shared, w) then s.shared.(writer := None) else s.shared, s.workers - {w})
  }

  const START := State(Shared(EMPTY, None, map[]), map[])

  function Run(sha: Hash, events: seq<Event>): State {
    if events == [] then START
    else Next(sha, Run(sha, events[..|events| - 1]), events[|events| - 1])
  }

  // ---------------------------------------------------------------- the invariant

  /** A result is justified by the commit logged under the caller's key. */
  ghost predicate Justified(log: Log, p: Prepared, r: Result<DecisionRecord>) {
    match r
    case Ok(record) => p.key in log && record == RecordOf(log[p.key]) && record.digest == p.digest
    case Err(RequestIdConflict) => p.key in log && log[p.key].digest != p.digest
    case Err(e) => e != EvaluationNotFound
  }

  ghost predicate CommitOf(sha: Hash, p: Prepared, c: EvaluationCommit, e: Encoded) {
    c.key == p.key && c.digest == p.digest && Accepted(sha, c, e)
  }

  ghost predicate PcOk(sha: Hash, log: Log, p: Prepared, pc: Pc) {
    match pc
    case Looking => true
    case Deciding => true
    case Rechecking(c) => BuiltFor(sha, p, c)
    case Beginning(c, e) => CommitOf(sha, p, c, e)
    case InsertingRequest(c, e) => CommitOf(sha, p, c, e)
    case InsertingDecision(c, e) => CommitOf(sha, p, c, e)
    case InsertingEffects(c, e, n) => CommitOf(sha, p, c, e) && n <= |e.effects|
    case Committing(c, e) => CommitOf(sha, p, c, e)
    case Resolving(c, afterError) => c.key == p.key && c.digest == p.digest && (!afterError ==> c.key in log)
    case Returned(answer) => Justified(log, p, answer)
    case Done(r) => Justified(log, p, r)
  }

  predicate Holding(pc: Pc) { pc.InsertingDecision? || pc.InsertingEffects? || pc.Committing? }

  /** What the transaction of the slot's holder has inserted so far. */
  ghost predicate StagedFor(t: Tables, pending: Tables, pc: Pc) {
    match pc
    case InsertingDecision(c, e) => Staged(t, pending, c, e, false, 0)
    case InsertingEffects(c, e, n) => Staged(t, pending, c, e, true, n)
    case Committing(c, e) => Staged(t, pending, c, e, true, |e.effects|)
    case _ => false
  }

  ghost predicate WorkerOk(sha: Hash, log: Log, worker: Worker) {
    && Prepare(sha, worker.call) == Ok(worker.request) && PreparedOk(sha, worker.request)
    && PcOk(sha, log, worker.request, worker.pc)
  }

  ghost predicate WriterOk(s: State) {
    s.shared.writer.Some? ==>
      var tx := s.shared.writer.value;
      tx.owner in s.workers && StagedFor(s.shared.committed, tx.pending, s.workers[tx.owner].pc)
  }

  ghost predicate Inv(sha: Hash, s: State) {
    && Recorded(sha, s.shared.committed, s.shared.log)
    && WriterOk(s)
    && (forall w :: w in s.workers ==> WorkerOk(sha, s.shared.log, s.workers[w]))
    && (forall w :: w in s.workers && Holding(s.workers[w].pc) ==> Holds(s.shared, w))
  }

  /** What one worker's step owes everybody else. */
  ghost predicate StepOk(sha: Hash, d: Shared, p: Prepared, w: nat, d': Shared, pc': Pc) {
    && Recorded(sha, d'.committed, d'.log)
    && Subtable(d.log, d'.log) && Grows(d.committed, d'.committed)
    && PcOk(sha, d'.log, p, pc')
    && (Holds(d', w) ==> StagedFor(d'.committed, d'.writer.value.pending, pc'))
    && (Holding(pc') ==> Holds(d', w))
    && (d.writer.Some? && !Holds(d, w) ==> d' == d)
    && (d'.writer.Some? && !Holds(d', w) ==> d' == d)
  }

  lemma PcOkStays(sha: Hash, log: Log, log': Log, p: Prepared, pc: Pc)
    requires PcOk(sha, log, p, pc) && Subtable(log, log')
    ensures PcOk(sha, log', p, pc)
  {
    hide BuiltFor, CommitOf;
  }

  // ---------------------------------------------------------------- steps keep the invariant

  lemma AuthoritativeInLog(sha: Hash, t: Tables, log: Log, key: Key)
    requires Recorded(sha, t, log) && key in log
    ensures log[key].key == key && Authoritative(RecordOf(log[key]), log[key].digest)
  {
    hide Encode, Stored, Owned, Authoritative, Recorded, Committable;
    RecordedParts(sha, t, log);
    CommittableEncodes(sha, log[key]);
    AcceptedIsAuthoritative(sha, log[key]);
  }

  /** What the log says a caller must be told, once a commit is there. */
  function Verdict(c: EvaluationCommit, digest: string): Result<DecisionRecord> {
    if !Readable(c) then Err(LedgerFailure)
    else if c.digest != digest then Err(RequestIdConflict)
    else Ok(RecordOf(c))
  }

  lemma LookKeeps(sha: Hash, t: Tables, log: Log, p: Prepared, fault: bool)
    requires Recorded(sha, t, log) && PreparedOk(sha, p)
    ensures var pc := AfterLook(sha, t, p, fault);
            && PcOk(sha, log, p, pc) && !Holding(pc)
            && (!fault ==> pc == if p.key in log then Done(Verdict(log[p.key], p.digest)) else Deciding)
  {
    hide Lookup, Recorded, Authoritative, PreparedOk, NormalAction, ComputeDigest, ValidDigest, TrimmedKey;
    RequestParts(sha, p);
    LookupReadsLog(sha, t, log, p.key);
    if p.key in log { AuthoritativeInLog(sha, t, log, p.key); }
  }

  lemma DecideKeeps(sha: Hash, log: Log, p: Prepared, answers: Answers)
    requires PreparedOk(sha, p)
    ensures var pc := AfterDecide(p, answers); PcOk(sha, log, p, pc) && !Holding(pc)
  {
    hide PreparedOk, BuildCommit, BuiltFor;
    if BuildCommit(p, answers).Ok? {
      BuildCommitSound(sha, p, answers);
    } else {
      BuildCommitErrors(p, answers);
    }
  }

  lemma RaceReadsLog(sha: Hash, t: Tables, log: Log, c: EvaluationCommit)
    requires Recorded(sha, t, log) && TrimmedKey(c.key)
    ensures ResolveRace(sha, t, c, false)
              == if c.key in log then Verdict(log[c.key], c.digest) else Err(EvaluationNotFound)
  {
    hide Lookup, Recorded, TrimmedKey;
    LookupReadsLog(sha, t, log, c.key);
  }

  lemma BuiltKey(sha: Hash, p: Prepared, c: EvaluationCommit)
    requires BuiltFor(sha, p, c)
    ensures TrimmedKey(c.key) && c.key == p.key && c.digest == p.digest
  {
    hide PreparedOk, NormalAction, ComputeDigest, ValidDigest, TrimmedKey;
    RequestParts(sha, p);
  }

  lemma RecheckKeeps(sha: Hash, t: Tables, log: Log, p: Prepared, c: EvaluationCommit, fault: bool)
    requires Recorded(sha, t, log) && BuiltFor(sha, p, c)
    ensures var pc := AfterRecheck(sha, t, c, fault);
            && PcOk(sha, log, p, pc) && !Holding(pc)
            && (pc.Beginning? ==> c.key !in log)
  {
    hide Lookup, Recorded, BuiltFor, Encode, Committable, TrimmedKey;
    BuiltKey(sha, p, c);
    LookupReadsLog(sha, t, log, c.key);
    BuiltCommitEncodes(sha, p, c);
    if Encode(sha, c).Err? { EncodeErrors(sha, c); }
  }

  lemma ResolveKeeps(sha: Hash, t: Tables, log: Log, p: Prepared, c: EvaluationCommit, afterError: bool, fault: bool)
    requires Recorded(sha, t, log) && PreparedOk(sha, p) && PcOk(sha, log, p, Resolving(c, afterError))
    ensures var pc := AfterResolve(sha, t, c, afterError, fault); PcOk(sha, log, p, pc) && !Holding(pc)
  {
    hide Recorded, PreparedOk, NormalAction, ComputeDigest, ValidDigest, TrimmedKey, ResolveRace;
    RequestParts(sha, p);
    RaceReadsLog(sha, t, log, c);
    assert ResolveRace(sha, t, c, true) == Err(LedgerFailure) by { RaceFault(sha, t, c); }
  }

  lemma RaceFault(sha: Hash, t: Tables, c: EvaluationCommit)
    ensures ResolveRace(sha, t, c, true) == Err(LedgerFailure)
  {
    hide Lookup;
  }

  lemma ConcludeKeeps(log: Log, p: Prepared, answer: Result<DecisionRecord>)
    requires Justified(log, p, answer)
    ensures Justified(log, p, Conclude(answer, p.digest))
  {
    hide Authoritative;
  }

  lemma InsertRequestKeeps(sha: Hash, d: Shared, p: Prepared, w: nat, c: EvaluationCommit, e: Encoded, fault: bool)
    requires Recorded(sha, d.committed, d.log) && CommitOf(sha, p, c, e) && !Holds(d, w)
    ensures var (d', pc) := InsertRequestStep(d, w, c, e, fault); StepOk(sha, d, p, w, d', pc)
  {
    hide Staged, Recorded, RequestRowOf, RequestChecks, CommitOf, DistinctIdempotencyKeys, Accepted, Encode;
    RecordedKeys(sha, d.committed, d.log);
    if d.writer.None? && InsertRequest(d.committed, c.key, RequestRowOf(c, e)).Inserted? {
      StageRequest(d.committed, c, e);
    }
    OwnCommit(sha, p, c, e);
  }

  lemma OwnCommit(sha: Hash, p: Prepared, c: EvaluationCommit, e: Encoded)
    requires CommitOf(sha, p, c, e)
    ensures c.key == p.key && c.digest == p.digest && Accepted(sha, c, e)
  {
    hide Accepted, Encode;
  }

  lemma InsertDecisionKeeps(sha: Hash, d: Shared, p: Prepared, w: nat, c: EvaluationCommit, e: Encoded, fault: bool)
    requires Recorded(sha, d.committed, d.log) && CommitOf(sha, p, c, e)
    requires Holds(d, w) && Staged(d.committed, d.writer.value.pending, c, e, false, 0)
    ensures var (d', pc) := InsertDecisionStep(d, w, c, e, fault); StepOk(sha, d, p, w, d', pc)
  {
    hide Staged, Recorded, DecisionRowOf, CommitOf, InsertDecision;
    var pending := d.writer.value.pending;
    if InsertDecision(pending, c.key, DecisionRowOf(c, e)).Inserted? {
      StageDecision(d.committed, pending, c, e);
    }
  }

  lemma InsertEffectKeeps(
      sha: Hash, d: Shared, p: Prepared, w: nat, c: EvaluationCommit, e: Encoded, n: nat, fault: bool)
    requires Recorded(sha, d.committed, d.log) && CommitOf(sha, p, c, e) && n <= |e.effects|
    requires Holds(d, w) && Staged(d.committed, d.writer.value.pending, c, e, true, n)
    ensures var (d', pc) := InsertEffectStep(d, w, c, e, n, fault); StepOk(sha, d, p, w, d', pc)
  {
    hide Staged, Recorded, EffectRowOf, CommitOf, InsertEffect;
    var pending := d.writer.value.pending;
    if n < |e.effects| && InsertEffect(pending, e.effects[n].effectId, EffectRowOf(c, e.effects[n])).Inserted? {
      StageEffect(d.committed, pending, c, e, n);
    }
  }

  lemma CommitKeeps(sha: Hash, d: Shared, p: Prepared, w: nat, c: EvaluationCommit, e: Encoded, x: Weather)
    requires Recorded(sha, d.committed, d.log) && CommitOf(sha, p, c, e)
    requires Holds(d, w) && Staged(d.committed, d.writer.value.pending, c, e, true, |e.effects|)
    ensures var (d', pc) := CommitStep(d, w, c, e, x); StepOk(sha, d, p, w, d', pc)
  {
    hide Staged, Recorded, CommitOf, Accepted, Encode;
    OwnCommit(sha, p, c, e);
    Seal(sha, d.committed, d.log, d.writer.value.pending, c, e);
  }

  lemma AdvanceKeeps(sha: Hash, s: State, w: nat, x: Weather)
    requires Inv(sha, s) && w in s.workers
    ensures var (d, pc) := Advance(sha, s.shared, w, s.workers[w], x);
            StepOk(sha, s.shared, s.workers[w].request, w, d, pc)
  {
    hide Recorded, PreparedOk, Prepare, Staged, CommitOf, BuiltFor, AfterLook, AfterDecide, AfterRecheck, AfterResolve;
    hide InsertRequestStep, InsertDecisionStep, InsertEffectStep, CommitStep, Conclude;
    var d, p := s.shared, s.workers[w].request;
    assert WorkerOk(sha, d.log, s.workers[w]);
    match s.workers[w].pc
    case Looking => LookKeeps(sha, d.committed, d.log, p, x.fault);
    case Deciding => DecideKeeps(sha, d.log, p, x.answers);
    case Rechecking(c) => RecheckKeeps(sha, d.committed, d.log, p, c, x.fault);
    case Beginning(c, e) =>
    case InsertingRequest(c, e) => InsertRequestKeeps(sha, d, p, w, c, e, x.fault);
    case InsertingDecision(c, e) => InsertDecisionKeeps(sha, d, p, w, c, e, x.fault);
    case InsertingEffects(c, e, n) => InsertEffectKeeps(sha, d, p, w, c, e, n, x.fault);
    case Committing(c, e) => CommitKeeps(sha, d, p, w, c, e, x);
    case Resolving(c, afterError) => ResolveKeeps(sha, d.committed, d.log, p, c, afterError, x.fault);
    case Returned(answer) => ConcludeKeeps(d.log, p, answer);
    case Done(r) =>
  }

  /** Every event keeps the invariant, loses no log entry and alters or removes no row. */
  lemma NextKeeps(sha: Hash, s: State, ev: Event)
    requires Inv(sha, s)
    ensures Inv(sha, Next(sha, s, ev))
    ensures Subtable(s.shared.log, Next(sha, s, ev).shared.log)
    ensures Grows(s.shared.committed, Next(sha, s, ev).shared.committed)
  {
    hide Recorded, PreparedOk, Prepare, StagedFor, PcOk, Advance;
    match ev
    case Arrive(w, call) => ArriveKeeps(sha, s, w, call);
    case Work(w, x) =>
      if w in s.workers {
        AdvanceKeeps(sha, s, w, x);
        var (d, pc) := Advance(sha, s.shared, w, s.workers[w], x);
        StepKeeps(sha, s, w, d, pc);
      }
    case Crash(w) =>
  }

  lemma ArriveKeeps(sha: Hash, s: State, w: nat, call: Call)
    requires Inv(sha, s)
    ensures Inv(sha, Next(sha, s, Arrive(w, call)))
  {
    hide Recorded, PreparedOk, Prepare, StagedFor, Advance, BuiltFor, CommitOf, Justified, WorkerOk;
    if Prepare(sha, call).Ok? { FreshWorker(sha, s.shared.log, call); }
  }

  lemma FreshWorker(sha: Hash, log: Log, call: Call)
    requires Prepare(sha, call).Ok?
    ensures WorkerOk(sha, log, Worker(call, Prepare(sha, call).value, Looking))
  {
    hide PreparedOk, Prepare;
    PrepareSound(sha, call);
  }

  /** The frame: one worker's step cannot disturb another. */
  lemma StepKeeps(sha: Hash, s: State, w: nat, d: Shared, pc: Pc)
    requires Inv(sha, s) && w in s.workers && StepOk(sha, s.shared, s.workers[w].request, w, d, pc)
    ensures Inv(sha, State(d, s.workers[w := s.workers[w].(pc := pc)]))
  {
    hide Recorded, PreparedOk, Prepare, StagedFor, PcOk, Subtable, Grows;
    forall v | v in s.workers && v != w ensures WorkerOk(sha, d.log, s.workers[v]) {
      assert WorkerOk(sha, s.shared.log, s.workers[v]);
      PcOkStays(sha, s.shared.log, d.log, s.workers[v].request, s.workers[v].pc);
    }
    assert WorkerOk(sha, s.shared.log, s.workers[w]);
  }

  // ---------------------------------------------------------------- whole runs

  lemma {:induction false} RunInvariant(sha: Hash, events: seq<Event>)
    ensures Inv(sha, Run(sha, events))
  {
    hide Inv, Next;
    if events == [] {
      StartInvariant(sha);
    } else {
      RunInvariant(sha, events[..|events| - 1]);
      NextKeeps(sha, Run(sha, events[..|events| - 1]), events[|events| - 1]);
    }
  }

  lemma RunIsRecorded(sha: Hash, events: seq<Event>)
    ensures Recorded(sha, Run(sha, events).shared.committed, Run(sha, events).shared.log)
  {
    hide Run, Recorded, WriterOk, WorkerOk, Holds;
    RunInvariant(sha, events);
  }

  lemma StartInvariant(sha: Hash)
    ensures Inv(sha, START)
  {
    hide Recorded;
    EmptyRecorded(sha);
  }

  /** Over any continuation of any run, no committed row is altered or removed and the commit
      behind a key never changes. */
  lemma {:induction false} RowsAreFinal(sha: Hash, events: seq<Event>, more: seq<Event>)
    ensures Grows(Run(sha, events).shared.committed, Run(sha, events + more).shared.committed)
    ensures Subtable(Run(sha, events).shared.log, Run(sha, events + more).shared.log)
    decreases |more|
  {
    hide Inv, Next;
    if more == [] {
      assert events + more == events;
    } else {
      var front := more[..|more| - 1];
      RowsAreFinal(sha, events, front);
      assert (events + more)[..|events + more| - 1] == events + front;
      RunInvariant(sha, events + front);
      NextKeeps(sha, Run(sha, events + front), more[|more| - 1]);
    }
  }

  /** The step invariant over whole runs, said of the committed tables alone: requests and
      decisions have the same keys, every stored digest is that of the stored action of the
      key's runtime, every effect points to a decision and no decision has two. */
  lemma ReachableTablesConsistent(sha: Hash, events: seq<Event>)
    ensures Consistent(sha, Run(sha, events).shared.committed)
  {
    hide Run, Recorded, WriterOk, WorkerOk, Holds, Consistent;
    RunInvariant(sha, events);
    RecordedConsistent(sha, Run(sha, events).shared.committed, Run(sha, events).shared.log);
  }

  /** A call has returned successfully with a record. */
  predicate Succeeded(s: State, w: nat, key: Key, record: DecisionRecord) {
    w in s.workers && s.workers[w].request.key == key && s.workers[w].pc == Done(Ok(record))
  }

  lemma SuccessIsLogged(sha: Hash, events: seq<Event>, w: nat, key: Key, record: DecisionRecord)
    requires Succeeded(Run(sha, events), w, key, record)
    ensures var s := Run(sha, events);
            && key in s.shared.log && record == RecordOf(s.shared.log[key])
            && Prepare(sha, s.workers[w].call) == Ok(s.workers[w].request)
            && record.digest == s.workers[w].request.digest
            && ComputeDigest(sha, s.workers[w].request.action) == Ok(record.digest)
  {
    hide Run, Recorded, Prepare, PreparedOk, NormalAction, ComputeDigest, ValidDigest, WriterOk, Holds;
    RunInvariant(sha, events);
    assert WorkerOk(sha, Run(sha, events).shared.log, Run(sha, events).workers[w]);
    RequestParts(sha, Run(sha, events).workers[w].request);
  }

  /** Agreement over whole runs: any two successful results for one runtime and request, at
      any two moments of any interleaving, are the same record, and its digest is that of
      each caller's own normalised action. */
  lemma Agreement(
      sha: Hash, events: seq<Event>, more: seq<Event>, v: nat, w: nat, key: Key, r1: DecisionRecord, r2: DecisionRecord)
    requires Succeeded(Run(sha, events), v, key, r1) && Succeeded(Run(sha, events + more), w, key, r2)
    ensures r1 == r2
    ensures ComputeDigest(sha, Run(sha, events).workers[v].request.action) == Ok(r1.digest)
    ensures ComputeDigest(sha, Run(sha, events + more).workers[w].request.action) == Ok(r1.digest)
  {
    hide Run, Recorded, Prepare, ComputeDigest;
    RowsAreFinal(sha, events, more);
    SuccessIsLogged(sha, events, v, key, r1);
    SuccessIsLogged(sha, events + more, w, key, r2);
  }

  /** Unless the hash collides on their two canonical texts, callers who succeed under one key
      asked for the same action. */
  lemma AgreementOnActions(
      sha: Hash, events: seq<Event>, more: seq<Event>, v: nat, w: nat, key: Key, r1: DecisionRecord, r2: DecisionRecord)
    requires Succeeded(Run(sha, events), v, key, r1) && Succeeded(Run(sha, events + more), w, key, r2)
    requires Separates(sha, Run(sha, events).workers[v].request.action,
                       Run(sha, events + more).workers[w].request.action)
    ensures Run(sha, events).workers[v].request.action == Run(sha, events + more).workers[w].request.action
  {
    hide Run, Prepare, ComputeDigest, NormalAction, Separates;
    Agreement(sha, events, more, v, w, key, r1, r2);
    PreparedAction(sha, events, v);
    PreparedAction(sha, events + more, w);
    DigestBinds(sha, Run(sha, events).workers[v].request.action, Run(sha, events + more).workers[w].request.action);
  }

  lemma PreparedAction(sha: Hash, events: seq<Event>, w: nat)
    requires w in Run(sha, events).workers
    ensures NormalAction(Run(sha, events).workers[w].request.action)
    ensures TrimmedKey(Run(sha, events).workers[w].request.key)
  {
    hide Run, Recorded, Prepare, PreparedOk, PcOk, NormalAction, ComputeDigest, ValidDigest;
    hide WriterOk, Holds, TrimmedKey;
    RunInvariant(sha, events);
    assert WorkerOk(sha, Run(sha, events).shared.log, Run(sha, events).workers[w]);
    RequestParts(sha, Run(sha, events).workers[w].request);
  }

  /** A conflict error always means a committed row that carries another digest. */
  lemma ConflictIsReal(sha: Hash, events: seq<Event>, w: nat)
    requires w in Run(sha, events).workers && Run(sha, events).workers[w].pc == Done(Err(RequestIdConflict))
    ensures var s := Run(sha, events);
            var p := s.workers[w].request;
            p.key in s.shared.committed.requests && s.shared.committed.requests[p.key].digest != p.digest
  {
    hide Run, Encode, Prepare, PreparedOk, WriterOk, Holds, Owned, EffectsOf, Committable, Stored, DistinctDecisions;
    hide Recorded, DistinctIdempotencyKeys;
    RunInvariant(sha, events);
    var s := Run(sha, events);
    assert WorkerOk(sha, s.shared.log, s.workers[w]);
    RecordedParts(sha, s.shared.committed, s.shared.log);
    StoredParts(sha, s.shared.committed, s.shared.log[s.workers[w].request.key]);
  }

  /** After a lost insert race the re-read, if it does not itself fail, never reports
      not-found: it yields what the winner's commit says. */
  lemma LostRaceResolves(sha: Hash, events: seq<Event>, w: nat)
    requires w in Run(sha, events).workers
    requires Run(sha, events).workers[w].pc.Resolving? && !Run(sha, events).workers[w].pc.afterError
    ensures var s := Run(sha, events);
            var c := s.workers[w].pc.commit;
            && c.key in s.shared.log
            && ResolveRace(sha, s.shared.committed, c, false) == Verdict(s.shared.log[c.key], c.digest)
            && Verdict(s.shared.log[c.key], c.digest) != Err(EvaluationNotFound)
  {
    hide Run, Recorded, Prepare, PreparedOk, WriterOk, Holds, TrimmedKey, ResolveRace;
    RunInvariant(sha, events);
    PreparedAction(sha, events, w);
    var s := Run(sha, events);
    assert WorkerOk(sha, s.shared.log, s.workers[w]);
    RaceReadsLog(sha, s.shared.committed, s.shared.log, s.workers[w].pc.commit);
  }

  predicate Concerns(ev: Event, w: nat) { ev.w == w }

  predicate OthersOnly(events: seq<Event>, w: nat) { forall i :: 0 <= i < |events| ==> !Concerns(events[i], w) }

  /** What the others do leaves a worker where it stands. */
  lemma {:induction false} OthersLeaveAlone(sha: Hash, events: seq<Event>, others: seq<Event>, w: nat)
    requires w in Run(sha, events).workers && OthersOnly(others, w)
    ensures w in Run(sha, events + others).workers
    ensures Run(sha, events + others).workers[w] == Run(sha, events).workers[w]
    decreases |others|
  {
    hide Advance, Prepare;
    if others == [] {
      assert events + others == events;
    } else {
      var front := others[..|others| - 1];
      OthersLeaveAlone(sha, events, front, w);
      assert (events + others)[..|events + others| - 1] == events + front;
      assert !Concerns(others[|others| - 1], w);
    }
  }

  lemma {:induction false} OthersAddNobody(sha: Hash, events: seq<Event>, others: seq<Event>, w: nat)
    requires w !in Run(sha, events).workers && OthersOnly(others, w)
    ensures w !in Run(sha, events + others).workers
    decreases |others|
  {
    hide Advance, Prepare;
    if others == [] {
      assert events + others == events;
    } else {
      var front := others[..|others| - 1];
      OthersAddNobody(sha, events, front, w);
      assert (events + others)[..|events + others| - 1] == events + front;
      assert !Concerns(others[|others| - 1], w);
    }
  }

  /** A commit that was applied but reported as failed is not lost: whatever the others do
      meanwhile, a re-read that works gives the caller its own record back. */
  lemma ReportedFailureRecovers(sha: Hash, events: seq<Event>, w: nat, x: Weather, others: seq<Event>, y: Weather)
    requires w in Run(sha, events).workers && Run(sha, events).workers[w].pc.Committing?
    requires x.fault && x.applied && OthersOnly(others, w) && !y.fault
    ensures var c := Run(sha, events).workers[w].pc.commit;
            var s := Run(sha, events + [Work(w, x)] + others + [Work(w, y)]);
            && w in s.workers
            && s.workers[w].pc == Returned(if Readable(c) then Ok(RecordOf(c)) else Err(LedgerFailure))
  {
    hide Run, Inv, TrimmedKey, ResolveRace, NormalAction, Grows, Prepare, AfterLook, AfterDecide, AfterRecheck;
    hide InsertRequestStep, InsertDecisionStep, InsertEffectStep, CommitStep, Conclude;
    var c := Run(sha, events).workers[w].pc.commit;
    var failed := events + [Work(w, x)];
    var later := failed + others;
    CommitApplies(sha, events, w, x);
    OthersLeaveAlone(sha, failed, others, w);
    RowsAreFinal(sha, failed, others);
    RunIsRecorded(sha, later);
    PreparedAction(sha, events, w);
    RaceReadsLog(sha, Run(sha, later).shared.committed, Run(sha, later).shared.log, c);
    StepTo(sha, later, Work(w, y));
  }

  lemma CommitApplies(sha: Hash, events: seq<Event>, w: nat, x: Weather)
    requires w in Run(sha, events).workers && Run(sha, events).workers[w].pc.Committing? && x.fault && x.applied
    ensures var c := Run(sha, events).workers[w].pc.commit;
            var s := Run(sha, events + [Work(w, x)]);
            && w in s.workers && s.workers[w].pc == Resolving(c, true)
            && c.key in s.shared.log && s.shared.log[c.key] == c && c.key == Run(sha, events).workers[w].request.key
  {
    hide Run, Recorded, Prepare, PreparedOk, Staged, Committable, Encode, AfterLook, AfterDecide;
    hide AfterRecheck, AfterResolve;
    hide InsertRequestStep, InsertDecisionStep, InsertEffectStep, Conclude;
    RunInvariant(sha, events);
    assert WorkerOk(sha, Run(sha, events).shared.log, Run(sha, events).workers[w]);
    StepTo(sha, events, Work(w, x));
  }

  lemma StepTo(sha: Hash, events: seq<Event>, ev: Event)
    ensures Run(sha, events + [ev]) == Next(sha, Run(sha, events), ev)
  {
    hide Next;
    assert (events + [ev])[..|events + [ev]| - 1] == events;
  }

  /** Only an applied commit changes the committed tables, and then by exactly the rows of
      that worker's commit under a key nobody had; every other event leaves no trace. */
  lemma OnlyAppliedCommitsWrite(sha: Hash, events: seq<Event>, ev: Event)
    ensures var s := Run(sha, events);
            var t, t' := s.shared.committed, Next(sha, s, ev).shared.committed;
            if !(ev.Work? && ev.w in s.workers && s.workers[ev.w].pc.Committing? && (ev.weather.fault ==>
                ev.weather.applied))
            then t' == t && Next(sha, s, ev).shared.log == s.shared.log
            else
              var c, e := s.workers[ev.w].pc.commit, s.workers[ev.w].pc.encoded;
              && c.key !in t.requests && c.key !in t.decisions && EffectsOf(sha, c).Keys !! t.effects.Keys
              && t' == Tables(t.requests[c.key := RequestRowOf(c, e)], t.decisions[c.key := DecisionRowOf(c, e)],
                              t.effects + EffectsOf(sha, c))
              && Next(sha, s, ev).shared.log == s.shared.log[c.key := c]
  {
    hide Run, Recorded, Prepare, PreparedOk, BuiltFor, Lookup, BuildCommit, Encode, EffectsOf;
    hide RequestRowOf, DecisionRowOf;
    hide InsertRequest, InsertDecision, InsertEffect, Conclude, ResolveStored, EffectRowOf, Committable;
    RunInvariant(sha, events);
    var s := Run(sha, events);
    if ev.Work? && ev.w in s.workers && s.workers[ev.w].pc.Committing? {
      var c, e := s.workers[ev.w].pc.commit, s.workers[ev.w].pc.encoded;
      assert WorkerOk(sha, s.shared.log, s.workers[ev.w]);
      AcceptedParts(sha, c, e);
      RecordedKeys(sha, s.shared.committed, s.shared.log);
      StagedAll(sha, s.shared.committed, s.shared.writer.value.pending, c, e);
    }
  }
}
