/** Fail closed over whole runs: what the policy engine said about an action is what the
    ledger holds about it. A property of built commits holds of every commit of a run, and is
    carried from the log into the decision and effect rows; it is given for the table of the
    embedded engine and for the verdict texts of Osprey. */
module Provenance {
  import opened Actions
  import opened Canonical
  import opened Columns
  import opened Decisions
  import opened Gates
  import opened Journal
  import opened Ledger
  import opened Policy
  import opened Protocol
  import opened Results
  import opened Service
  import opened Text
  import Embedded
  import EmbeddedTable
  import Json
  import Osprey
  import VerdictGrammar

  /** The commit a call carries, if it has built one. */
  function CommitIn(pc: Pc): Option<EvaluationCommit> {
    match pc
    case Rechecking(c) => Some(c)
    case Beginning(c, _) => Some(c)
    case InsertingRequest(c, _) => Some(c)
    case InsertingDecision(c, _) => Some(c)
    case InsertingEffects(c, _, _) => Some(c)
    case Committing(c, _) => Some(c)
    case Resolving(c, _) => Some(c)
    case _ => None
  }

  /** The event asks the policy on behalf of a worker and a commit comes out. */
  predicate Builds(s: State, ev: Event) {
    && ev.Work? && ev.w in s.workers && s.workers[ev.w].pc.Deciding?
    && BuildCommit(s.workers[ev.w].request, ev.weather.answers).Ok?
  }

  function Built(s: State, ev: Event): EvaluationCommit
    requires Builds(s, ev)
  {
    BuildCommit(s.workers[ev.w].request, ev.weather.answers).value
  }

  /** All commits built in a run satisfy a property. */
  ghost predicate AllBuilt(sha: Hash, events: seq<Event>, good: EvaluationCommit -> bool) {
    forall n :: 0 <= n < |events| && Builds(Run(sha, events[..n]), events[n]) ==>
        good(Built(Run(sha, events[..n]), events[n]))
  }

  ghost predicate AllGood(s: State, good: EvaluationCommit -> bool) {
    && (forall k :: k in s.shared.log ==> good(s.shared.log[k]))
    && (forall w :: w in s.workers && CommitIn(s.workers[w].pc).Some? ==> good(CommitIn(s.workers[w].pc).value))
  }

  /** A step carries its commit along, or answers, or builds one. */
  lemma AdvanceCarries(sha: Hash, d: Shared, w: nat, worker: Worker, x: Weather)
    ensures var (d', pc) := Advance(sha, d, w, worker, x);
            && (CommitIn(pc).Some? && CommitIn(pc) != CommitIn(worker.pc) ==>
                  worker.pc.Deciding? && BuildCommit(worker.request, x.answers) == Ok(CommitIn(pc).value))
            && (d'.log == d.log
                  || (CommitIn(worker.pc).Some?
                      && d'.log == d.log[CommitIn(worker.pc).value.key := CommitIn(worker.pc).value]))
  {
    hide Lookup, BuildCommit, Encode, ResolveRace, InsertRequest, InsertDecision, InsertEffect, Conclude, ResolveStored;
    hide ResolveExisting, RequestRowOf, DecisionRowOf, EffectRowOf;
  }

  lemma NextHolds(sha: Hash, s: State, ev: Event, good: EvaluationCommit -> bool)
    requires AllGood(s, good) && (Builds(s, ev) ==> good(Built(s, ev)))
    ensures AllGood(Next(sha, s, ev), good)
  {
    hide Advance, Prepare, BuildCommit;
    if ev.Work? && ev.w in s.workers {
      AdvanceCarries(sha, s.shared, ev.w, s.workers[ev.w], ev.weather);
    }
  }

  lemma {:induction false} RunHolds(sha: Hash, events: seq<Event>, good: EvaluationCommit -> bool)
    requires AllBuilt(sha, events, good)
    ensures AllGood(Run(sha, events), good)
  {
    hide Next, Builds;
    if events != [] {
      var n := |events| - 1;
      var front := events[..n];
      assert AllBuilt(sha, front, good) by {
        hide Run;
        assert forall m :: 0 <= m < n ==> front[..m] == events[..m] && front[m] == events[m];
      }
      RunHolds(sha, front, good);
      NextHolds(sha, Run(sha, front), events[n], good);
    }
  }

  // ---------------------------------------------------------------- the embedded engine

  /** Every policy answer of the run is the embedded engine's about the asking action. */
  ghost predicate EmbeddedRun(sha: Hash, events: seq<Event>) {
    forall n :: 0 <= n < |events| && Builds(Run(sha, events[..n]), events[n]) ==>
        AsksEmbedded(Run(sha, events[..n]), events[n])
  }

  ghost predicate AsksEmbedded(s: State, ev: Event)
    requires Builds(s, ev)
  {
    ev.weather.answers.policy == Embedded.Evaluation(s.workers[ev.w].request.action)
  }

  /** The decision of the embedded table and the review it calls for, read off a commit. */
  predicate EmbeddedVerdict(c: EvaluationCommit) {
    && c.decision == EmbeddedTable.Expected(c.action)
    && |c.effects| == (if "SECRET" in c.action.payload.classification then 1 else 0)
    && ("SECRET" in c.action.payload.classification ==>
          c.effects[0].effect == SafetyReview("HIGH", EmbeddedTable.EvidenceIds(c.action)))
  }

  lemma EmbeddedBuilt(p: Prepared, a: Answers)
    requires NormalAction(p.action) && BuildCommit(p, a).Ok? && a.policy == Embedded.Evaluation(p.action)
    ensures EmbeddedVerdict(BuildCommit(p, a).value)
  {
    hide NormalAction, BuildCommit, Embedded.Evaluation, EmbeddedTable.Expected, Composed, Trim;
    BuildExactly(p, a);
    EmbeddedTable.DecidesExactly(p.action);
    EmbeddedTable.ReviewsExactly(p.action);
  }

  lemma EmbeddedStep(sha: Hash, s: State, ev: Event)
    requires Inv(sha, s) && Builds(s, ev) && AsksEmbedded(s, ev)
    ensures EmbeddedVerdict(Built(s, ev))
  {
    hide BuildCommit, EmbeddedVerdict, Recorded, Prepare, NormalAction, WriterOk, Holds, PcOk, PreparedOk;
    assert WorkerOk(sha, s.shared.log, s.workers[ev.w]);
    RequestParts(sha, s.workers[ev.w].request);
    EmbeddedBuilt(s.workers[ev.w].request, ev.weather.answers);
  }

  lemma EmbeddedLogged(sha: Hash, events: seq<Event>)
    requires EmbeddedRun(sha, events)
    ensures forall k :: k in Run(sha, events).shared.log ==> EmbeddedVerdict(Run(sha, events).shared.log[k])
  {
    hide Run, EmbeddedVerdict, Inv, Builds, BuildCommit, AsksEmbedded;
    forall n | 0 <= n < |events| && Builds(Run(sha, events[..n]), events[n])
      ensures EmbeddedVerdict(Built(Run(sha, events[..n]), events[n]))
    {
      RunInvariant(sha, events[..n]);
      EmbeddedStep(sha, Run(sha, events[..n]), events[n]);
    }
    RunHolds(sha, events, EmbeddedVerdict);
  }

  /** With the embedded engine, every committed decision in every reachable state is the one
      the table gives for its action, in the log and decoded from its row. */
  lemma EmbeddedDecisionsStored(sha: Hash, events: seq<Event>, key: Key)
    requires EmbeddedRun(sha, events) && key in Run(sha, events).shared.committed.decisions
    ensures var d := Run(sha, events).shared;
            && key in d.log && d.log[key].decision == EmbeddedTable.Expected(d.log[key].action)
            && var row := d.committed.decisions[key];
               DecodeDecision(row.decisionType, row.reasonsJson, row.requiredJson)
                 == Ok(EmbeddedTable.Expected(d.log[key].action))
  {
    hide Run, Inv, Builds, BuildCommit, EmbeddedRun, EmbeddedTable.Expected, DecodeDecision;
    EmbeddedLogged(sha, events);
    StoredType(sha, events, key);
  }

  /** And the effects: a committed decision has one exactly when its action is labelled SECRET,
      and its stored context is the object with priority HIGH and the action's evidence
      identifiers in order. */
  lemma EmbeddedEffectsStored(sha: Hash, events: seq<Event>, key: Key)
    requires EmbeddedRun(sha, events) && key in Run(sha, events).shared.committed.decisions
    ensures var d := Run(sha, events).shared;
            var t := d.committed;
            && key in d.log
            && ((exists id :: id in t.effects && t.effects[id].decisionId == t.decisions[key].decisionId) <==>
                  "SECRET" in d.log[key].action.payload.classification)
            && (forall id :: id in t.effects && t.effects[id].decisionId == t.decisions[key].decisionId ==>
                  ParsesTo(t.effects[id].contextJson,
                           ReviewContext("HIGH", EmbeddedTable.EvidenceIds(d.log[key].action))))
  {
    hide Run, Inv, Builds, BuildCommit, EmbeddedRun, EmbeddedTable.Expected, ReviewContext, Encode, EffectsOf;
    hide Trim, ParsesTo;
    hide Recorded;
    EmbeddedLogged(sha, events);
    StoredType(sha, events, key);
    RunIsRecorded(sha, events);
    var d := Run(sha, events).shared;
    CommittableEncodes(sha, d.log[key]);
    EffectStored(sha, d.log[key]);
    var t := d.committed;
    forall id
      ensures id in t.effects && t.effects[id].decisionId == t.decisions[key].decisionId
              <==> id in EffectsOf(sha, d.log[key])
    {
      EffectsMeaning(sha, d.committed, d.log, key, id);
    }
    forall id | id in EffectsOf(sha, d.log[key])
      ensures ParsesTo(EffectsOf(sha, d.log[key])[id].contextJson,
                       ReviewContext("HIGH", EmbeddedTable.EvidenceIds(d.log[key].action)))
      ensures d.log[key].effects != []
      ensures id in d.committed.effects && d.committed.effects[id] == EffectsOf(sha, d.log[key])[id]
    {
      EffectContext(sha, d.log[key], id);
      EffectsMeaning(sha, d.committed, d.log, key, id);
    }
  }

  predicate ParsesTo(text: string, j: Json.Json) { Json.Parse(text) == Json.Parsed.Done(j, "") }

  lemma EffectContext(sha: Hash, c: EvaluationCommit, id: string)
    requires Encode(sha, c).Ok? && id in EffectsOf(sha, c)
    ensures |c.effects| == 1 && c.effects[0].effect.SafetyReview?
    ensures ParsesTo(EffectsOf(sha, c)[id].contextJson,
                     ReviewContext(c.effects[0].effect.priority, c.effects[0].effect.evidenceRefs))
  {
    hide Encode, EffectsOf, ReviewContext, Trim, Json.Parse, Json.Render, Json.Strings;
    EffectColumns(sha, c, id);
  }

  lemma StoredType(sha: Hash, events: seq<Event>, key: Key)
    requires key in Run(sha, events).shared.committed.decisions
    ensures var d := Run(sha, events).shared;
            && key in d.log && Committable(sha, d.log[key])
            && d.committed.decisions[key].decisionType == d.log[key].decision.typ
            && var row := d.committed.decisions[key];
               DecodeDecision(row.decisionType, row.reasonsJson, row.requiredJson) == Ok(d.log[key].decision)
  {
    hide Run, Encode, NormalAction, WellFormed, Accepted, WorkerOk, WriterOk, Holds, Owned, EffectsOf, RequestRowOf;
    hide DistinctDecisions, Stored, Recorded, DecodeDecision, ReasonsText, ActionsText, ComputeDigest;
    hide CanonicalText, ValidDigest;
    hide EncodedEffects, EncoderGate, Trim;
    RunInvariant(sha, events);
    var d := Run(sha, events).shared;
    RecordedKeys(sha, d.committed, d.log);
    RecordedParts(sha, d.committed, d.log);
    CommittableEncodes(sha, d.log[key]);
    AcceptedParts(sha, d.log[key], Encode(sha, d.log[key]).value);
    StoredParts(sha, d.committed, d.log[key]);
    EncodeParts(sha, d.log[key]);
    ReadBackDecision(d.log[key].decision);
  }

  // ---------------------------------------------------------------- Osprey

  /** Every policy answer of the run is Osprey's for some answer of the coordinator. */
  ghost predicate OspreyRun(sha: Hash, events: seq<Event>, version: string) {
    forall n :: 0 <= n < |events| && Builds(Run(sha, events[..n]), events[n]) ==>
      AsksOsprey(Run(sha, events[..n]), events[n], version)
  }

  ghost predicate AsksOsprey(s: State, ev: Event, version: string)
    requires Builds(s, ev)
  {
    exists answer ::
      ev.weather.answers.policy == Osprey.Evaluation(version, s.workers[ev.w].request.action.requestedAt, answer)
  }

  /** The effects of a commit, without their identifiers. */
  function EffectsIn(c: EvaluationCommit): (effects: seq<PolicyEffect>)
    ensures |effects| == |c.effects| && forall i :: 0 <= i < |effects| ==> effects[i] == c.effects[i].effect
  {
    seq(|c.effects|, i requires 0 <= i < |c.effects| => c.effects[i].effect)
  }

  ghost predicate OspreyVerdict(c: EvaluationCommit) {
    VerdictGrammar.Explains(c.decision, EffectsIn(c), c.matchedRuleIds)
  }

  lemma OspreyBuilt(p: Prepared, a: Answers, version: string, answer: Option<seq<string>>)
    requires BuildCommit(p, a).Ok? && a.policy == Osprey.Evaluation(version, p.action.requestedAt, answer)
    ensures OspreyVerdict(BuildCommit(p, a).value)
  {
    hide BuildCommit, Osprey.Evaluation, Composed, VerdictGrammar.Explains, Trim;
    BuildExactly(p, a);
    VerdictGrammar.OspreyExplained(version, p.action.requestedAt, answer);
    assert EffectsIn(BuildCommit(p, a).value) == a.policy.value.effects;
  }

  lemma OspreyStep(s: State, ev: Event, version: string)
    requires Builds(s, ev) && AsksOsprey(s, ev, version)
    ensures OspreyVerdict(Built(s, ev))
  {
    hide BuildCommit, OspreyVerdict, Osprey.Evaluation;
    var p := s.workers[ev.w].request;
    var answer :| ev.weather.answers.policy == Osprey.Evaluation(version, p.action.requestedAt, answer);
    OspreyBuilt(p, ev.weather.answers, version, answer);
  }

  /** With Osprey, every committed decision in every reachable state, and whether it is
      reviewed, is explained by the matched rules committed with it, read as verdict texts; a
      timeout, an error or an unknown verdict can only ever have denied. */
  lemma OspreyDecisionsStored(sha: Hash, events: seq<Event>, version: string, key: Key)
    requires OspreyRun(sha, events, version) && key in Run(sha, events).shared.committed.decisions
    ensures var d := Run(sha, events).shared;
            && key in d.log && OspreyVerdict(d.log[key])
            && var row := d.committed.decisions[key];
               DecodeDecision(row.decisionType, row.reasonsJson, row.requiredJson) == Ok(d.log[key].decision)
  {
    hide Run, OspreyVerdict, Inv, Recorded, DecodeDecision, Builds, BuildCommit, AsksOsprey;
    forall n | 0 <= n < |events| && Builds(Run(sha, events[..n]), events[n])
      ensures OspreyVerdict(Built(Run(sha, events[..n]), events[n]))
    {
      OspreyStep(Run(sha, events[..n]), events[n], version);
    }
    RunHolds(sha, events, OspreyVerdict);
    StoredType(sha, events, key);
  }
}
