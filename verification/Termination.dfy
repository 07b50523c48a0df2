/** No call runs for ever: whatever fails, a call that can have the writer slot is answered
    after a bounded number of its own steps, and the call that holds the slot can always
    give it back. */
module Termination {
  import opened Actions
  import opened Journal
  import opened Ledger
  import opened Liveness
  import opened Protocol
  import opened Service

  /** How many steps a call can still take. */
  function Rank(pc: Pc): nat {
    match pc
    case Done(_) => 0
    case Returned(_) => 1
    case Resolving(_, _) => 2
    case Committing(_, _) => 3
    case InsertingEffects(_, e, n) => if n <= |e.effects| then 4 + |e.effects| - n else 4
    case InsertingDecision(_, e) => 5 + |e.effects|
    case InsertingRequest(_, e) => 6 + |e.effects|
    case Beginning(_, e) => 7 + |e.effects|
    case Rechecking(_) => 9
    case Deciding => 10
    case Looking => 11
  }

  const LONGEST := 11

  lemma RankBounded(sha: Hash, log: Log, p: Prepared, pc: Pc)
    requires PcOk(sha, log, p, pc)
    ensures Rank(pc) <= LONGEST
  {
    hide BuiltFor, Accepted, Encode, Justified;
    match pc
    case Beginning(c, e) => AcceptedCount(sha, c, e);
    case InsertingRequest(c, e) => AcceptedCount(sha, c, e);
    case InsertingDecision(c, e) => AcceptedCount(sha, c, e);
    case InsertingEffects(c, e, _) => AcceptedCount(sha, c, e);
    case _ =>
  }

  lemma AcceptedCount(sha: Hash, c: EvaluationCommit, e: Encoded)
    requires Accepted(sha, c, e)
    ensures |e.effects| <= 1
  {
    hide Accepted, Encode;
    AcceptedParts(sha, c, e);
    EffectCount(sha, c);
  }

  /** The slot is free or the caller's own. */
  predicate CanWrite(d: Shared, w: nat) { d.writer.None? || Holds(d, w) }

  /** What the invariant says about the slot of a caller that can write. */
  ghost predicate Placed(sha: Hash, d: Shared, w: nat, pc: Pc) {
    && (if Holding(pc) then Holds(d, w) else d.writer.None?)
    && (pc.InsertingEffects? ==> pc.n <= |pc.encoded.effects|)
    && (pc.Rechecking? && Encode(sha, pc.commit).Ok? ==> |Encode(sha, pc.commit).value.effects| <= 1)
  }

  lemma IsPlaced(sha: Hash, s: State, w: nat)
    requires Inv(sha, s) && w in s.workers && CanWrite(s.shared, w)
    ensures Placed(sha, s.shared, w, s.workers[w].pc)
  {
    hide Recorded, Prepare, PreparedOk, Encode, BuiltFor, Accepted, Justified, Staged;
    assert WorkerOk(sha, s.shared.log, s.workers[w]);
    if s.workers[w].pc.Rechecking? && Encode(sha, s.workers[w].pc.commit).Ok? {
      EffectCount(sha, s.workers[w].pc.commit);
    }
  }

  lemma StepRank(sha: Hash, d: Shared, w: nat, worker: Worker, x: Weather)
    requires Placed(sha, d, w, worker.pc)
    ensures var (d', pc) := Advance(sha, d, w, worker, x);
            CanWrite(d', w) && Rank(pc) <= if worker.pc.Done? then 0 else Rank(worker.pc) - 1
  {
    hide Lookup, BuildCommit, Encode, ResolveRace, InsertRequest, InsertDecision, InsertEffect;
    hide Conclude, ResolveStored, ResolveExisting, RequestRowOf, DecisionRowOf, EffectRowOf;
  }

  lemma RankFalls(sha: Hash, s: State, w: nat, x: Weather)
    requires Inv(sha, s) && w in s.workers && CanWrite(s.shared, w)
    ensures var (d, pc) := Advance(sha, s.shared, w, s.workers[w], x);
            CanWrite(d, w) && Rank(pc) <= if s.workers[w].pc.Done? then 0 else Rank(s.workers[w].pc) - 1
  {
    hide Inv, Placed, Advance, Rank, CanWrite;
    IsPlaced(sha, s, w);
    StepRank(sha, s.shared, w, s.workers[w], x);
  }

  /** The caller's own steps, each under a weather of its own. */
  function OwnSteps(w: nat, xs: seq<Weather>): seq<Event> {
    if xs == [] then [] else OwnSteps(w, xs[..|xs| - 1]) + [Work(w, xs[|xs| - 1])]
  }

  lemma {:induction false} RankAfter(sha: Hash, events: seq<Event>, w: nat, xs: seq<Weather>)
    requires w in Run(sha, events).workers && CanWrite(Run(sha, events).shared, w)
    ensures var s := Run(sha, events + OwnSteps(w, xs));
            && w in s.workers && CanWrite(s.shared, w)
            && (Rank(s.workers[w].pc) == 0 || Rank(s.workers[w].pc) + |xs| <= LONGEST)
  {
    hide Run, Next, Inv, Rank, CanWrite;
    if xs == [] {
      assert events + [] == events;
      ReachableRank(sha, events, w);
    } else {
      var front := xs[..|xs| - 1];
      RankAfter(sha, events, w, front);
      assert events + OwnSteps(w, xs) == events + OwnSteps(w, front) + [Work(w, xs[|xs| - 1])];
      OneOwnStep(sha, events + OwnSteps(w, front), w, xs[|xs| - 1]);
    }
  }

  lemma ReachableRank(sha: Hash, events: seq<Event>, w: nat)
    requires w in Run(sha, events).workers
    ensures Rank(Run(sha, events).workers[w].pc) <= LONGEST
  {
    hide Run, Recorded, Prepare, PreparedOk, PcOk, WriterOk, Holds, Rank;
    RunInvariant(sha, events);
    var s := Run(sha, events);
    assert WorkerOk(sha, s.shared.log, s.workers[w]);
    RankBounded(sha, s.shared.log, s.workers[w].request, s.workers[w].pc);
  }

  lemma OneOwnStep(sha: Hash, events: seq<Event>, w: nat, x: Weather)
    requires w in Run(sha, events).workers && CanWrite(Run(sha, events).shared, w)
    ensures var s, s' := Run(sha, events), Run(sha, events + [Work(w, x)]);
            && w in s'.workers && CanWrite(s'.shared, w)
            && Rank(s'.workers[w].pc) <= if Rank(s.workers[w].pc) == 0 then 0 else Rank(s.workers[w].pc) - 1
  {
    hide Run, Advance, Inv, CanWrite, Prepare;
    RunInvariant(sha, events);
    RankFalls(sha, Run(sha, events), w, x);
    StepTo(sha, events, Work(w, x));
  }

  /** Every call ends: in any reachable state, a caller that holds the writer slot or finds it
      free has its answer after eleven steps of its own, under any faults, any outcome of a
      failing commit and any answers of the policy, the generator and the clock. */
  lemma EveryCallEnds(sha: Hash, events: seq<Event>, w: nat, xs: seq<Weather>)
    requires w in Run(sha, events).workers && CanWrite(Run(sha, events).shared, w) && |xs| >= LONGEST
    ensures var s := Run(sha, events + OwnSteps(w, xs)); w in s.workers && s.workers[w].pc.Done?
  {
    hide Run, CanWrite, OwnSteps;
    RankAfter(sha, events, w, xs);
  }

  /** The caller that has to move first: the holder of the writer slot, if there is one. */
  function SlotHolder(s: State, w: nat): nat {
    if s.shared.writer.Some? then s.shared.writer.value.owner else w
  }

  /** The slot's holder is a caller inside its transaction, and an answered caller holds no slot. */
  lemma HolderCanWrite(sha: Hash, events: seq<Event>, w: nat)
    requires w in Run(sha, events).workers
    ensures var s := Run(sha, events);
            && SlotHolder(s, w) in s.workers && CanWrite(s.shared, SlotHolder(s, w))
            && (s.workers[w].pc.Done? ==> !Holds(s.shared, w))
  {
    hide Run, Recorded, WorkerOk, Staged;
    RunInvariant(sha, events);
  }

  lemma {:induction false} OwnStepsOnly(v: nat, w: nat, xs: seq<Weather>)
    requires v != w
    ensures OthersOnly(OwnSteps(v, xs), w)
  {
    if xs != [] { OwnStepsOnly(v, w, xs[..|xs| - 1]); }
  }

  /** No deadlock: in every reachable state, once the slot's holder has taken eleven steps, any
      call has its answer after eleven steps of its own, whatever fails in any of them. */
  lemma NoDeadlock(sha: Hash, events: seq<Event>, w: nat, first: seq<Weather>, second: seq<Weather>)
    requires w in Run(sha, events).workers && |first| >= LONGEST && |second| >= LONGEST
    ensures var v := SlotHolder(Run(sha, events), w);
            var s := Run(sha, events + OwnSteps(v, first) + OwnSteps(w, second));
            w in s.workers && s.workers[w].pc.Done?
  {
    hide Run, CanWrite, OwnSteps, Holds;
    var v := SlotHolder(Run(sha, events), w);
    HolderCanWrite(sha, events, w);
    RankAfter(sha, events, v, first);
    EveryCallEnds(sha, events, v, first);
    var middle := events + OwnSteps(v, first);
    if v != w {
      OwnStepsOnly(v, w, first);
      OthersLeaveAlone(sha, events, OwnSteps(v, first), w);
      HolderCanWrite(sha, middle, v);
      FreedSlot(Run(sha, middle).shared, v, w);
    }
    EveryCallEnds(sha, middle, w, second);
  }

  lemma FreedSlot(d: Shared, v: nat, w: nat)
    requires CanWrite(d, v) && !Holds(d, v)
    ensures CanWrite(d, w)
  {
  }
}
