/** One concrete input for each promise the code does not keep. */
module Witnesses {
  import opened Actions
  import opened Ascending
  import opened Canonical
  import opened Clock
  import opened Constraints
  import opened Decisions
  import opened Evidence
  import opened Idempotence
  import opened Journal
  import opened Ledger
  import opened Liveness
  import opened Normalizer
  import opened Parameters
  import opened Principals
  import opened Protocol
  import opened Results
  import opened Service
  import opened Text
  import Embedded
  import Osprey
  import VerdictGrammar

  // ---------------------------------------------------------------- a deny verdict that is not terminal

  const NEGOTIABLE_DENY := "deny.external_destination"
  const APPROVAL_VERDICT := "require_delegator_approval.x"

  lemma ApprovalVerdictGiven()
    ensures VerdictGrammar.ApprovalVerdict(APPROVAL_VERDICT)
    ensures APPROVAL_VERDICT != Osprey.DENY_ACTOR && NEGOTIABLE_DENY != Osprey.DENY_ACTOR
  {
    assert APPROVAL_VERDICT[0] == 'r' && Osprey.DENY_ACTOR[0] == 'd';
    assert NEGOTIABLE_DENY[5] == 'e' && Osprey.DENY_ACTOR[5] == 'a';
    assert VerdictGrammar.KeyText("x") && APPROVAL_VERDICT == "require_delegator_approval." + "x";
  }

  /** A deny verdict that leaves the approval requirement standing beside it. */
  lemma DenyVerdictIsNegotiable(version: string, requestedAt: Time)
    requires FourDigitYear(requestedAt)
    ensures var r := Osprey.Evaluation(version, requestedAt, Some([NEGOTIABLE_DENY, APPROVAL_VERDICT]));
            && Osprey.Classify(NEGOTIABLE_DENY) == Osprey.Denies("EXTERNAL_DESTINATION")
            && r.Ok? && Composed(r.value.reasons).Ok?
            && Composed(r.value.reasons).value.actions == [REQUIRE_APPROVAL]
  {
    hide Osprey.Classify, Osprey.Evaluation, Composed;
    var verdicts := [NEGOTIABLE_DENY, APPROVAL_VERDICT];
    VerdictGrammar.DeniesExactly(NEGOTIABLE_DENY, "EXTERNAL_DESTINATION");
    ApprovalVerdictGiven();
    VerdictGrammar.PromptVerdicts(APPROVAL_VERDICT);
    assert Osprey.Classify(verdicts[0]).Denies? && Osprey.Classify(verdicts[1]) == Osprey.AsksApproval;
    Osprey.OspreyFailClosed(version, requestedAt, Some(verdicts));
  }

  // ---------------------------------------------------------------- a normal action that cannot be evaluated

  const SOFT_DELETES := Scope(DELETE, "", "", SOFT)

  /** The same evidence identifier under two types, on a SECRET payload. */
  const SHARED_ID_ACTION := Action(
    DELETE, SAMPLE.requestedAt, SAMPLE.actor, SAMPLE.delegation, SAMPLE.target, SAMPLE.parameters,
    Payload(ZeroDigest(), [Embedded.SECRET], None),
    [Evidence(DELEGATION_GRANT, "e", Principal(RUNTIME, "r"), SOFT_DELETES),
     Evidence(USER_INSTRUCTION, "e", Principal(RUNTIME, "r"), SOFT_DELETES)])

  lemma SharedIdIsNormal()
    ensures NormalAction(SHARED_ID_ACTION)
  {
    hide NormalIdentifier, ByteLen, Trim, DigestText, ValidDigest, EvidenceKey, NormalStringSet;
    SampleIsNormal();
    ShortIdentifier("e");
    ShortIdentifier("r");
    SecretLabel();
    SharedIdOrder();
  }

  lemma SecretLabel()
    ensures NormalStringSet([Embedded.SECRET], 32, 128)
  {
    hide ByteLen;
    assert |Embedded.SECRET| == 6;
  }

  lemma SharedIdOrder()
    ensures IsAscending(EvidenceKey, SHARED_ID_ACTION.evidence)
  {
    var first, second := SHARED_ID_ACTION.evidence[0], SHARED_ID_ACTION.evidence[1];
    assert EvidenceKey(first)[0] == 'D' && EvidenceKey(second)[0] == 'U';
  }

  /** The embedded engine gives no answer for this action. */
  lemma SharedIdentifierFails()
    ensures NormalAction(SHARED_ID_ACTION) && Embedded.Evaluation(SHARED_ID_ACTION).Err?
  {
    hide NormalAction, Embedded.Evaluation, EvidenceKey;
    SharedIdIsNormal();
    var items := SHARED_ID_ACTION.evidence;
    assert items[0].typ[0] == 'D' && items[1].typ[0] == 'U';
    assert items[0].id == items[1].id && items[0].typ != items[1].typ;
    assert SHARED_ID_ACTION.payload.classification[0] == Embedded.SECRET;
    Embedded.EmbeddedFails(SHARED_ID_ACTION);
  }

  // ---------------------------------------------------------------- an identifier the database refuses

  const NUL_CALL := Call("r", [NUL], SAMPLE_CALL.input)

  /** The service prepares this call and builds its commit, the encoder accepts the commit,
      and the empty database refuses its first row. */
  lemma NulRequestIsRefused(sha: Hash)
    ensures Prepare(sha, NUL_CALL).Ok?
    ensures var r := BuildCommit(Prepare(sha, NUL_CALL).value, SAMPLE_WEATHER.answers);
            && r.Ok? && Encode(sha, r.value).Ok?
            && InsertRequest(EMPTY, r.value.key, RequestRowOf(r.value, Encode(sha, r.value).value)) == Rejected
  {
    hide Prepare, BuildCommit, Encode, InsertRequest, RequestRowOf, Committable, BuiltFor;
    hide PreparedOk, ByteLen, Trim, NormalAction;
    NulPrepares(sha);
    PrepareSound(sha, NUL_CALL);
    var p := Prepare(sha, NUL_CALL).value;
    SampleCommit(p);
    var c := BuildCommit(p, SAMPLE_WEATHER.answers).value;
    BuildCommitSound(sha, p, SAMPLE_WEATHER.answers);
    BuiltCommitEncodes(sha, p, c);
    RequestInserts(sha, EMPTY, c, Encode(sha, c).value);
  }

  lemma NulPrepares(sha: Hash)
    ensures Prepare(sha, NUL_CALL).Ok? && Prepare(sha, NUL_CALL).value.key == Key("r", [NUL])
  {
    hide Normalize, NormalAction, Prepare, ByteLen, Trim, InputOf;
    SampleIsNormal();
    ShortIdentifier("r");
    ShortIdentifier([NUL]);
    assert SAMPLE.actor.runtimeId == "r";
    NormalizeIdempotent(SAMPLE);
    PrepareSound(sha, NUL_CALL);
  }

  // ---------------------------------------------------------------- a record that cannot be read back

  /** The sample request, made when the year 10000 has begun in UTC. */
  const LATE := Action(
    DELETE, YEAR_10000, SAMPLE.actor, SAMPLE.delegation, SAMPLE.target, SAMPLE.parameters, SAMPLE.payload, [])

  const LATE_CALL := Call("r", "q", InputOf(LATE))

  function LateRun(): seq<Event> { [Arrive(0, LATE_CALL)] + Works(0, SAMPLE_WEATHER, 9) }

  lemma LatePrepares(sha: Hash)
    ensures Prepare(sha, LATE_CALL).Ok? && Prepare(sha, LATE_CALL).value.key == Key("r", "q")
    ensures Prepare(sha, LATE_CALL).value.action == LATE
  {
    hide Normalize, NormalAction, Prepare, ByteLen, Trim, InputOf;
    SampleIsNormal();
    Retimed(SAMPLE, YEAR_10000);
    ShortIdentifier("r");
    ShortIdentifier("q");
    assert LATE.actor.runtimeId == "r";
    NormalizeIdempotent(LATE);
    PrepareSound(sha, LATE_CALL);
    PreparedParts(sha, LATE_CALL);
  }

  /** The first call is allowed and recorded. */
  lemma LateCallSucceeds(sha: Hash)
    ensures var s, p := Run(sha, LateRun()), Prepare(sha, LATE_CALL);
            && p.Ok? && 0 in s.workers && s.workers[0].pc.Done? && s.workers[0].pc.result.Ok? && 1 !in s.workers
            && p.value.key in s.shared.log && !Readable(s.shared.log[p.value.key])
  {
    hide Run, Next, Prepare, BuildCommit, Encode, Works, Storable, InputOf;
    StartsEmpty(sha);
    LatePrepares(sha);
    var p := Prepare(sha, LATE_CALL).value;
    SampleBuilds(p);
    SampleCommit(p);
    assert [] + [Arrive(0, LATE_CALL)] == [Arrive(0, LATE_CALL)];
    UndisturbedCallSucceeds(sha, [], 0, LATE_CALL, SAMPLE_WEATHER);
    WorksConcern(0, 1, SAMPLE_WEATHER, 9);
    OthersAddNobody(sha, [], LateRun(), 1);
    assert [] + LateRun() == LateRun();
  }

  /** The same call again is told of a ledger failure: the record is there and unreadable. */
  lemma LateRecordIsLost(sha: Hash)
    ensures var s := Run(sha, LateRun());
            var s' := Run(sha, LateRun() + [Arrive(1, LATE_CALL)] + [Work(1, SAMPLE_WEATHER)]);
            && 0 in s.workers && s.workers[0].pc.Done? && s.workers[0].pc.result.Ok?
            && 1 in s'.workers && s'.workers[1].pc == Done(Err(LedgerFailure))
  {
    hide Run, Next, Prepare, LateRun, Readable, Inv;
    LateCallSucceeds(sha);
    ArriveStep(sha, LateRun(), 1, LATE_CALL);
    var again := LateRun() + [Arrive(1, LATE_CALL)];
    RunInvariant(sha, again);
    LookStep(sha, Run(sha, again), 1, SAMPLE_WEATHER);
    StepTo(sha, again, Work(1, SAMPLE_WEATHER));
  }

  // ---------------------------------------------------------------- a conflict that is not reported as one

  /** The sample request under the same key, asked a second later. */
  const OTHER := Action(
    DELETE, Instant(2026, 8, 12, 10, 0, 1, 0), SAMPLE.actor, SAMPLE.delegation, SAMPLE.target, SAMPLE.parameters,
    SAMPLE.payload, [])

  const OTHER_CALL := Call("r", "q", InputOf(OTHER))

  const FAULTY := Weather(true, true, SAMPLE_WEATHER.answers)

  /** Caller 1 gets past its lookups, caller 0 commits under the same key, then caller 1's
      insert fails and its re-read works. */
  function OvertakenRun(): seq<Event> {
    CHASER + Works(1, SAMPLE_WEATHER, 4) + [Arrive(0, SAMPLE_CALL)] + Works(0, SAMPLE_WEATHER, 9)
  }

  function ConflictRun(): seq<Event> {
    OvertakenRun() + [Work(1, FAULTY)] + [Work(1, SAMPLE_WEATHER)] + [Work(1, SAMPLE_WEATHER)]
  }

  lemma OtherPrepares(sha: Hash)
    ensures Prepare(sha, OTHER_CALL).Ok? && Prepare(sha, OTHER_CALL).value.key == Key("r", "q")
    ensures Prepare(sha, OTHER_CALL).value.action == OTHER
  {
    hide Normalize, NormalAction, Prepare, ByteLen, Trim, InputOf;
    SampleIsNormal();
    Retimed(SAMPLE, OTHER.requestedAt);
    ShortIdentifier("r");
    ShortIdentifier("q");
    assert OTHER.actor.runtimeId == "r";
    NormalizeIdempotent(OTHER);
    PrepareSound(sha, OTHER_CALL);
    PreparedParts(sha, OTHER_CALL);
  }

  lemma PreparedParts(sha: Hash, call: Call)
    requires Prepare(sha, call).Ok?
    ensures Normalize(Trim(call.runtimeId), call.input) == Ok(Prepare(sha, call).value.action)
  {
    hide Normalize, ComputeDigest, Trim, ByteLen;
  }

  lemma SampleAction(sha: Hash)
    ensures Prepare(sha, SAMPLE_CALL).Ok? && Prepare(sha, SAMPLE_CALL).value.action == SAMPLE
  {
    hide Normalize, NormalAction, Prepare, ByteLen, Trim, InputOf;
    SamplePrepares(sha);
    SampleIsNormal();
    ShortIdentifier("r");
    assert SAMPLE.actor.runtimeId == "r";
    NormalizeIdempotent(SAMPLE);
    PreparedParts(sha, SAMPLE_CALL);
  }

  lemma {:induction false} WorksConcern(v: nat, w: nat, x: Weather, k: nat)
    requires v != w
    ensures OthersOnly(Works(v, x, k), w)
  {
    if k > 0 { WorksConcern(v, w, x, k - 1); }
  }

  lemma StepFrom(sha: Hash, events: seq<Event>, w: nat, x: Weather)
    requires w in Run(sha, events).workers
    ensures var s, s' := Run(sha, events), Run(sha, events + [Work(w, x)]);
            var (d, pc) := Advance(sha, s.shared, w, s.workers[w], x);
            w in s'.workers && s'.workers[w] == s.workers[w].(pc := pc) && s'.shared == d
  {
    hide Run, Advance, Prepare;
    StepTo(sha, events, Work(w, x));
  }

  const CHASER := [Arrive(1, OTHER_CALL)]

  /** Caller 1 stands before its first insert, on the empty ledger. */
  lemma ChaserAtInsert(sha: Hash)
    ensures var s, p := Run(sha, CHASER + Works(1, SAMPLE_WEATHER, 4)), Prepare(sha, OTHER_CALL);
            && p.Ok? && 0 !in s.workers
            && var c := BuildCommit(p.value, SAMPLE_WEATHER.answers);
               c.Ok? && Encode(sha, c.value).Ok?
               && At(s, START.shared, 1, p.value, InsertingRequest(c.value, Encode(sha, c.value).value))
  {
    hide Run, Next, Prepare, BuildCommit, Encode, Works, Drive, PreparedOk, Recorded, NormalAction, InputOf;
    ChaserCommit(sha);
    var p := Prepare(sha, OTHER_CALL).value;
    var c := BuildCommit(p, SAMPLE_WEATHER.answers).value;
    StartsEmpty(sha);
    EmptyRecorded(sha);
    ArriveStep(sha, [], 1, OTHER_CALL);
    assert [] + CHASER == CHASER;
    FirstSteps(sha, Run(sha, CHASER), 1, SAMPLE_WEATHER, p, c, Encode(sha, c).value);
    DriveIsRun(sha, CHASER, 1, SAMPLE_WEATHER, 4);
    NobodyElse(sha);
  }

  lemma ChaserCommit(sha: Hash)
    ensures var p := Prepare(sha, OTHER_CALL);
            && p.Ok? && PreparedOk(sha, p.value)
            && var c := BuildCommit(p.value, SAMPLE_WEATHER.answers); c.Ok? && Encode(sha, c.value).Ok?
  {
    hide Prepare, BuildCommit, Encode, PreparedOk, BuiltFor, Committable, NormalAction, InputOf;
    OtherPrepares(sha);
    var p := Prepare(sha, OTHER_CALL).value;
    PrepareSound(sha, OTHER_CALL);
    SampleCommit(p);
    BuildCommitSound(sha, p, SAMPLE_WEATHER.answers);
    BuiltCommitEncodes(sha, p, BuildCommit(p, SAMPLE_WEATHER.answers).value);
  }

  lemma NobodyElse(sha: Hash)
    ensures 0 !in Run(sha, CHASER + Works(1, SAMPLE_WEATHER, 4)).workers
  {
    hide Run, Next, Works, InputOf;
    StartsEmpty(sha);
    WorksConcern(1, 0, SAMPLE_WEATHER, 4);
    OthersAddNobody(sha, [], CHASER + Works(1, SAMPLE_WEATHER, 4), 0);
    assert [] + (CHASER + Works(1, SAMPLE_WEATHER, 4)) == CHASER + Works(1, SAMPLE_WEATHER, 4);
  }

  /** Caller 0 has committed under the key while caller 1 waited. */
  lemma ChaserOvertaken(sha: Hash)
    ensures var s, p, q := Run(sha, OvertakenRun()), Prepare(sha, OTHER_CALL), Prepare(sha, SAMPLE_CALL);
            && p.Ok? && q.Ok? && 1 in s.workers && s.workers[1].request == p.value && s.workers[1].pc.InsertingRequest?
            && q.value.key in s.shared.log && s.shared.log[q.value.key].digest == q.value.digest
            && Readable(s.shared.log[q.value.key])
  {
    hide Run, Next, Prepare, BuildCommit, Encode, Works, Storable;
    var start := CHASER + Works(1, SAMPLE_WEATHER, 4);
    ChaserAtInsert(sha);
    SamplePrepares(sha);
    SampleAction(sha);
    var q := Prepare(sha, SAMPLE_CALL).value;
    SampleBuilds(q);
    SampleCommit(q);
    UndisturbedCallSucceeds(sha, start, 0, SAMPLE_CALL, SAMPLE_WEATHER);
    var others := [Arrive(0, SAMPLE_CALL)] + Works(0, SAMPLE_WEATHER, 9);
    WorksConcern(0, 1, SAMPLE_WEATHER, 9);
    OthersLeaveAlone(sha, start, others, 1);
    assert start + others == OvertakenRun();
  }

  /** A caller whose request conflicts with the committed one is told of a ledger failure: its
      insert failed, its re-read found the conflict, and the first error is the one reported. */
  lemma ConflictReportedAsFailure(sha: Hash)
    requires Separates(sha, SAMPLE, OTHER)
    ensures var s := Run(sha, ConflictRun());
            && 1 in s.workers && s.workers[1].pc == Done(Err(LedgerFailure))
            && Conflicting(s.shared.log, s.workers[1].request.key, s.workers[1].request.digest)
  {
    hide Run, Next, Prepare, BuildCommit, Encode, OvertakenRun, Readable, Inv, Separates, PcAfter;
    ChaserOvertaken(sha);
    TwoDigests(sha);
    var failed := OvertakenRun() + [Work(1, FAULTY)];
    FailedInsert(sha, OvertakenRun());
    FailedReread(sha, failed);
  }

  lemma TwoDigests(sha: Hash)
    requires Separates(sha, SAMPLE, OTHER)
    ensures var p, q := Prepare(sha, OTHER_CALL), Prepare(sha, SAMPLE_CALL);
            p.Ok? && q.Ok? && p.value.key == q.value.key && p.value.digest != q.value.digest
  {
    hide Prepare, PreparedOk, NormalAction, ComputeDigest, Separates, ValidDigest, InputOf;
    OtherPrepares(sha);
    SampleAction(sha);
    SamplePrepares(sha);
    PrepareSound(sha, OTHER_CALL);
    PrepareSound(sha, SAMPLE_CALL);
    RequestParts(sha, Prepare(sha, OTHER_CALL).value);
    RequestParts(sha, Prepare(sha, SAMPLE_CALL).value);
    DigestBinds(sha, SAMPLE, OTHER);
    assert SAMPLE.requestedAt.second == 0 && OTHER.requestedAt.second == 1;
  }

  lemma FailedInsert(sha: Hash, events: seq<Event>)
    requires 1 in Run(sha, events).workers && Run(sha, events).workers[1].pc.InsertingRequest?
    ensures var s, s' := Run(sha, events), Run(sha, events + [Work(1, FAULTY)]);
            && s'.shared == s.shared && 1 in s'.workers && s'.workers[1].request == s.workers[1].request
            && s'.workers[1].pc == Resolving(s.workers[1].pc.commit, true)
  {
    hide Run, Next, AfterLook, AfterDecide, AfterRecheck, AfterResolve, InsertDecisionStep;
    hide InsertEffectStep, CommitStep, Conclude;
    hide InsertRequest;
    StepFrom(sha, events, 1, FAULTY);
  }

  lemma FailedReread(sha: Hash, events: seq<Event>)
    requires 1 in Run(sha, events).workers && Run(sha, events).workers[1].pc.Resolving?
    requires Run(sha, events).workers[1].pc.afterError
    requires var s := Run(sha, events); Conflicting(s.shared.log, s.workers[1].request.key, s.workers[1].request.digest)
    ensures var s, s' := Run(sha, events), Run(sha, events + [Work(1, SAMPLE_WEATHER)] + [Work(1, SAMPLE_WEATHER)]);
            && s'.shared == s.shared && 1 in s'.workers && s'.workers[1].request == s.workers[1].request
            && s'.workers[1].pc == Done(Err(LedgerFailure))
  {
    hide Run, Next, AfterLook, AfterDecide, AfterRecheck, AfterResolve, InsertDecisionStep;
    hide InsertEffectStep, CommitStep;
    hide InsertRequestStep, Inv, Readable;
    RunInvariant(sha, events);
    ConflictExactly(sha, Run(sha, events), 1, SAMPLE_WEATHER);
    StepFrom(sha, events, 1, SAMPLE_WEATHER);
    StepFrom(sha, events + [Work(1, SAMPLE_WEATHER)], 1, SAMPLE_WEATHER);
  }
}
