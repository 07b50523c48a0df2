/** What the step system achieves, not only what it avoids: a call that is left alone ends
    with its own record, in any reachable state whose writer slot is free, and commits exactly
    that. A concrete request shows that the hypotheses can be met; its parts serve as the
    sample of the witnesses. */
module Liveness {
  import opened Actions
  import opened Canonical
  import opened Clock
  import opened Constraints
  import opened Decisions
  import opened Journal
  import opened Ledger
  import opened Normalizer
  import opened Parameters
  import opened Policy
  import opened Principals
  import opened Protocol
  import opened Results
  import opened Service
  import opened Text

  /** The worker takes k steps in a row under the same weather. */
  function Works(w: nat, x: Weather, k: nat): seq<Event> {
    if k == 0 then [] else Works(w, x, k - 1) + [Work(w, x)]
  }

  function Drive(sha: Hash, s: State, w: nat, x: Weather, k: nat): State {
    if k == 0 then s else Next(sha, Drive(sha, s, w, x, k - 1), Work(w, x))
  }

  lemma {:induction false} DriveIsRun(sha: Hash, events: seq<Event>, w: nat, x: Weather, k: nat)
    ensures Run(sha, events + Works(w, x, k)) == Drive(sha, Run(sha, events), w, x, k)
  {
    hide Run, Next;
    if k == 0 {
      assert events + [] == events;
    } else {
      DriveIsRun(sha, events, w, x, k - 1);
      StepTo(sha, events + Works(w, x, k - 1), Work(w, x));
      assert events + Works(w, x, k) == events + Works(w, x, k - 1) + [Work(w, x)];
    }
  }

  /** Worker w stands at pc over the shared state d. */
  predicate At(s: State, d: Shared, w: nat, p: Prepared, pc: Pc) {
    s.shared == d && w in s.workers && s.workers[w].request == p && s.workers[w].pc == pc
  }

  lemma DriveStep(sha: Hash, s: State, w: nat, x: Weather, k: nat, d: Shared, p: Prepared, pc: Pc)
    requires At(Drive(sha, s, w, x, k), d, w, p, pc)
    ensures exists call :: At(Drive(sha, s, w, x, k + 1), Advance(sha, d, w, Worker(call, p, pc), x).0, w, p,
                              Advance(sha, d, w, Worker(call, p, pc), x).1)
  {
    hide Advance;
    var worker := Drive(sha, s, w, x, k).workers[w];
    assert worker == Worker(worker.call, p, pc);
  }

  lemma FirstSteps(sha: Hash, s: State, w: nat, x: Weather, p: Prepared, c: EvaluationCommit, e: Encoded)
    requires Recorded(sha, s.shared.committed, s.shared.log) && PreparedOk(sha, p) && At(s, s.shared, w, p, Looking)
    requires !x.fault && p.key !in s.shared.log && BuildCommit(p, x.answers) == Ok(c) && Encode(sha, c) == Ok(e)
    ensures At(Drive(sha, s, w, x, 4), s.shared, w, p, InsertingRequest(c, e))
  {
    hide Recorded, PreparedOk, BuildCommit, Encode, AfterLook, AfterRecheck, InsertRequestStep;
    hide InsertDecisionStep, InsertEffectStep;
    hide CommitStep, AfterResolve, Conclude, Drive;
    var d := s.shared;
    LookKeeps(sha, d.committed, d.log, p, false);
    RecheckPasses(sha, d.committed, d.log, p, x.answers, c, e);
    DriveZero(sha, s, w, x);
    DriveStep(sha, s, w, x, 0, d, p, Looking);
    DriveStep(sha, s, w, x, 1, d, p, Deciding);
    DriveStep(sha, s, w, x, 2, d, p, Rechecking(c));
    DriveStep(sha, s, w, x, 3, d, p, Beginning(c, e));
  }

  lemma DriveZero(sha: Hash, s: State, w: nat, x: Weather)
    ensures Drive(sha, s, w, x, 0) == s
  {
    hide Next;
  }

  lemma RecheckPasses(sha: Hash, t: Tables, log: Log, p: Prepared, answers: Answers, c: EvaluationCommit, e: Encoded)
    requires Recorded(sha, t, log) && PreparedOk(sha, p) && p.key !in log
    requires BuildCommit(p, answers) == Ok(c) && Encode(sha, c) == Ok(e)
    ensures AfterRecheck(sha, t, c, false) == Beginning(c, e) && c.key == p.key && c.digest == p.digest
    ensures Committable(sha, c)
  {
    hide Recorded, PreparedOk, BuildCommit, Encode, Lookup, BuiltFor, Committable, TrimmedKey;
    BuildCommitSound(sha, p, answers);
    BuiltKey(sha, p, c);
    BuiltCommitEncodes(sha, p, c);
    LookupReadsLog(sha, t, log, c.key);
  }

  /** The three kinds of insert, then the step to the commit. */
  lemma Inserts(
      sha: Hash, s: State, w: nat, x: Weather, k: nat, d: Shared, p: Prepared, c: EvaluationCommit, e: Encoded)
    requires At(Drive(sha, s, w, x, k), d, w, p, InsertingRequest(c, e)) && !x.fault && d.writer.None?
    requires |e.effects| <= 1
    requires Transact(d.committed, c, e).Inserted?
    ensures var written := d.(writer := Some(Transaction(w, Transact(d.committed, c, e).tables)));
            At(Drive(sha, s, w, x, k + 3 + |e.effects|), written, w, p, Committing(c, e))
  {
    hide Drive, AfterLook, AfterDecide, AfterRecheck, AfterResolve, CommitStep, Conclude;
    hide RequestRowOf, DecisionRowOf, InsertRequest;
    hide InsertDecision, InsertEffect, EffectRowOf, InsertAllEffects;
    DriveStep(sha, s, w, x, k, d, p, InsertingRequest(c, e));
    var u := InsertRequest(d.committed, c.key, RequestRowOf(c, e)).tables;
    var d1 := d.(writer := Some(Transaction(w, u)));
    DriveStep(sha, s, w, x, k + 1, d1, p, InsertingDecision(c, e));
    var v := InsertDecision(u, c.key, DecisionRowOf(c, e)).tables;
    var d2 := d.(writer := Some(Transaction(w, v)));
    if |e.effects| == 0 {
      InsertNoEffect(v, c);
      assert e.effects == [];
      DriveStep(sha, s, w, x, k + 2, d2, p, InsertingEffects(c, e, 0));
    } else {
      InsertOneEffect(v, c, e.effects[0]);
      assert e.effects == [e.effects[0]];
      DriveStep(sha, s, w, x, k + 2, d2, p, InsertingEffects(c, e, 0));
      var d3 := d.(writer := Some(Transaction(w, Transact(d.committed, c, e).tables)));
      DriveStep(sha, s, w, x, k + 3, d3, p, InsertingEffects(c, e, 1));
    }
  }

  /** Progress: from any reachable state with a free slot, a new call under a free key whose
      commit can be built, stored and has unused identifiers returns its own record after
      nine steps and one more per effect, and its rows are committed. */
  lemma UndisturbedCallSucceeds(sha: Hash, events: seq<Event>, w: nat, call: Call, x: Weather)
    requires w !in Run(sha, events).workers && Run(sha, events).shared.writer.None? && !x.fault
    requires Prepare(sha, call).Ok? && Prepare(sha, call).value.key !in Run(sha, events).shared.log
    requires BuildCommit(Prepare(sha, call).value, x.answers).Ok?
    requires var c := BuildCommit(Prepare(sha, call).value, x.answers).value;
             |c.effects| <= 1 && Storable(c) && Unused(sha, Run(sha, events).shared.committed, c)
    ensures var c := BuildCommit(Prepare(sha, call).value, x.answers).value;
            var s := Run(sha, events + [Arrive(w, call)] + Works(w, x, 9 + |c.effects|));
            && Succeeded(s, w, c.key, RecordOf(c))
            && s.shared.log == Run(sha, events).shared.log[c.key := c] && s.shared.writer.None?
  {
    hide Run, Recorded, Prepare, PreparedOk, BuildCommit, Storable, Unused, Encode, Transact, Works;
    hide Drive, Next, WriterOk, WorkerOk;
    hide Holds, BuiltFor, Committable;
    var p := Prepare(sha, call).value;
    var c := BuildCommit(p, x.answers).value;
    var t, log := Run(sha, events).shared.committed, Run(sha, events).shared.log;
    PrepareSound(sha, call);
    RunInvariant(sha, events);
    BuildCommitSound(sha, p, x.answers);
    BuiltCommitEncodes(sha, p, c);
    BuiltKey(sha, p, c);
    UncontendedCommit(sha, t, log, c, Encode(sha, c).value);
    var s := Run(sha, events + [Arrive(w, call)]);
    ArriveStep(sha, events, w, call);
    DriveIsRun(sha, events + [Arrive(w, call)], w, x, 9 + |c.effects|);
    DriveToEnd(sha, s, w, x, p, c);
  }

  lemma ArriveStep(sha: Hash, events: seq<Event>, w: nat, call: Call)
    requires w !in Run(sha, events).workers && Prepare(sha, call).Ok?
    ensures At(Run(sha, events + [Arrive(w, call)]), Run(sha, events).shared, w, Prepare(sha, call).value, Looking)
  {
    hide Run, Prepare, Advance;
    StepTo(sha, events, Arrive(w, call));
  }

  lemma DriveToEnd(sha: Hash, s: State, w: nat, x: Weather, p: Prepared, c: EvaluationCommit)
    requires Recorded(sha, s.shared.committed, s.shared.log) && PreparedOk(sha, p) && At(s, s.shared, w, p, Looking)
    requires !x.fault && p.key !in s.shared.log && s.shared.writer.None? && BuildCommit(p, x.answers) == Ok(c)
    requires Encode(sha, c).Ok?
    requires c.key == p.key && c.digest == p.digest
    requires Transact(s.shared.committed, c, Encode(sha, c).value).Inserted?
    ensures var s' := Drive(sha, s, w, x, 9 + |c.effects|);
            Succeeded(s', w, c.key, RecordOf(c)) && s'.shared.log == s.shared.log[c.key := c] && s'.shared.writer.None?
  {
    hide Recorded, PreparedOk, BuildCommit, Encode, Transact, Drive, Authoritative, AfterLook;
    hide AfterDecide, AfterRecheck, AfterResolve;
    hide InsertRequestStep, InsertDecisionStep, InsertEffectStep;
    var d, e := s.shared, Encode(sha, c).value;
    EffectCount(sha, c);
    var n := |c.effects|;
    FirstSteps(sha, s, w, x, p, c, e);
    Inserts(sha, s, w, x, 4, d, p, c, e);
    AcceptedIsAuthoritative(sha, c);
    var u := Transact(d.committed, c, e).tables;
    DriveStep(sha, s, w, x, 7 + n, d.(writer := Some(Transaction(w, u))), p, Committing(c, e));
    DriveStep(sha, s, w, x, 8 + n, Shared(u, None, d.log[c.key := c]), p, Returned(Ok(RecordOf(c))));
  }

  lemma EffectCount(sha: Hash, c: EvaluationCommit)
    requires Encode(sha, c).Ok?
    ensures |Encode(sha, c).value.effects| == |c.effects| <= 1
  {
    hide Encode, ComputeDigest, ValidDigest, CanonicalText, EncodedEffects, Trim;
    EncodeParts(sha, c);
    AtMostOneEncoded(sha, c.key, c.effects);
  }

  // ---------------------------------------------------------------- a first request

  /** Sixty-four zeros. */
  function ZeroDigest(): string { DigestText(seq(64, _ => 0)) }

  /** A recoverable delete. */
  const SAMPLE := Action(
    DELETE, Instant(2026, 8, 12, 10, 0, 0, 0), Actor("a", "r", ""), Delegation("d", Principal(USER, "u")),
    Target("t", "i"),
    Delete(SOFT, true), Payload(ZeroDigest(), [], None), [])

  const SAMPLE_CALL := Call("r", "q", InputOf(SAMPLE))

  /** A generator of one identifier. */
  function AlwaysX(n: nat): Option<string> { Some("x") }

  /** No reason, no effect, no matched rule. */
  const SAMPLE_WEATHER :=
    Weather(false, true, Answers(Ok(PolicyEvaluation([], [], [], "v")), AlwaysX, Instant(2026, 8, 12, 10, 0, 1, 0)))

  lemma ShortIdentifier(s: string)
    requires |s| == 1 && !IsSpace(s[0])
    ensures NormalIdentifier(s) && Trim(s) == s && ByteLen(s) <= 128
  {
    hide ByteLen, Trim;
  }

  lemma SampleIsNormal()
    ensures NormalAction(SAMPLE)
  {
    hide NormalIdentifier, ByteLen, Trim, DigestText, ValidDigest;
    ShortIdentifier("a");
    ShortIdentifier("r");
    ShortIdentifier("d");
    ShortIdentifier("u");
    ShortIdentifier("t");
    ShortIdentifier("i");
  }

  lemma SamplePrepares(sha: Hash)
    ensures Prepare(sha, SAMPLE_CALL).Ok? && Prepare(sha, SAMPLE_CALL).value.key == Key("r", "q")
  {
    hide Normalize, NormalAction, Prepare, ByteLen, Trim, InputOf;
    SampleIsNormal();
    ShortIdentifier("r");
    ShortIdentifier("q");
    assert SAMPLE.actor.runtimeId == "r";
    NormalizeIdempotent(SAMPLE);
    PrepareSound(sha, SAMPLE_CALL);
  }

  /** Whatever is prepared, the sample answers allow it without effects. */
  lemma SampleCommit(p: Prepared)
    ensures var r := BuildCommit(p, SAMPLE_WEATHER.answers);
            && r.Ok? && r.value.effects == [] && r.value.decision == ALLOW_DECISION
            && r.value.decisionId == "x" && r.value.policyVersion == "v"
            && r.value.key == p.key && r.value.digest == p.digest
            && r.value.action == p.action && r.value.evaluatedAt == SAMPLE_WEATHER.answers.now
  {
    hide ByteLen, Trim;
    ShortIdentifier("x");
    ShortIdentifier("v");
  }

  lemma SampleBuilds(p: Prepared)
    requires p.key == Key("r", "q")
    ensures BuildCommit(p, SAMPLE_WEATHER.answers).Ok? && Storable(BuildCommit(p, SAMPLE_WEATHER.answers).value)
  {
    hide BuildCommit;
    SampleCommit(p);
  }

  /** The step system is not vacuous: from the empty ledger this request is allowed. */
  lemma FirstRequestIsAllowed(sha: Hash)
    ensures var s := Run(sha, [Arrive(0, SAMPLE_CALL)] + Works(0, SAMPLE_WEATHER, 9));
            && 0 in s.workers && s.workers[0].pc.Done? && s.workers[0].pc.result.Ok?
            && s.workers[0].pc.result.value.decision == ALLOW_DECISION
            && Key("r", "q") in s.shared.log
  {
    hide Prepare, BuildCommit, Works, Next, Storable, Drive;
    SamplePrepares(sha);
    var p := Prepare(sha, SAMPLE_CALL).value;
    SampleBuilds(p);
    SampleCommit(p);
    StartsEmpty(sha);
    assert [] + [Arrive(0, SAMPLE_CALL)] == [Arrive(0, SAMPLE_CALL)];
    hide Run;
    UndisturbedCallSucceeds(sha, [], 0, SAMPLE_CALL, SAMPLE_WEATHER);
  }

  lemma StartsEmpty(sha: Hash)
    ensures Run(sha, []) == START
  {
    hide Next;
  }
}
