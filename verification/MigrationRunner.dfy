/** The migration runner: runs of possibly different releases interleave over one database; any
    operation may fail, a failing commit may have been applied, and a run may vanish anywhere. */
module MigrationRunner {
  import opened Digits
  import opened Migrations
  import opened Results
  import opened Text

  /** The recorded history and the scripts whose effects are committed, in commit order. */
  datatype Db = Db(history: History, schema: seq<Migration>)

  const NEW := Db(None, [])

  /** The constraints of schema_migrations. */
  predicate Refused(rows: seq<Record>, r: Record) {
    || r.version <= 0 || !SqlNonBlank(r.name)
    || exists i :: 0 <= i < |rows| && (rows[i].version == r.version || rows[i].name == r.name)
  }

  // ---------------------------------------------------------------- steps

  datatype Pc =
    | Creating
    | Inspecting
    | Executing(items: seq<Migration>, i: nat, current: nat)
    | Recording(items: seq<Migration>, i: nat, current: nat)
    | Committing(items: seq<Migration>, i: nat, current: nat)
    | Finished(ok: bool)

  /** A run of a release: its embedded files and its latest version. */
  datatype Runner = Runner(entries: seq<Entry>, latest: nat, pc: Pc)

  datatype Transaction = Transaction(owner: nat, pending: Db)

  datatype Shared = Shared(committed: Db, writer: Option<Transaction>)

  datatype State = State(shared: Shared, runners: map<nat, Runner>)

  datatype Event =
    | Arrive(w: nat, entries: seq<Entry>, latest: nat)
    | Work(w: nat, fault: bool, applied: bool)
    | Crash(w: nat)

  predicate Holds(d: Shared, w: nat) { d.writer.Some? && d.writer.value.owner == w }

  /** CREATE TABLE IF NOT EXISTS commits by itself, so its failure may have been applied too. */
  function CreateStep(d: Shared, fault: bool, applied: bool): (Shared, Pc) {
    if fault && !applied then (d, Finished(false))
    else if d.committed.history.Some? then (d, if fault then Finished(false) else Inspecting)
    else if d.writer.Some? then (d, if fault then Finished(false) else Creating)
    else (d.(committed := d.committed.(history := Some([]))), if fault then Finished(false) else Inspecting)
  }

  function AfterInspect(db: Db, entries: seq<Entry>, latest: nat, fault: bool): Pc {
    if fault then Finished(false)
    else
      match SchemaVersion(db.history)
      case None => Finished(false)
      case Some(current) =>
        if current > latest then Finished(false)
        else match Load(entries, latest) case None => Finished(false) case Some(items) => Executing(items, 0, current)
  }

  /** The loop head, and the script when the next migration is newer than `current`. */
  function ExecuteStep(
      d: Shared, w: nat, latest: nat, items: seq<Migration>, i: nat, current: nat, fault: bool): (Shared, Pc) {
    if i >= |items| then (d, Finished(current == latest))
    else if items[i].version <= current then (d, Executing(items, i + 1, current))
    else if fault then (d, Finished(false))
    else if d.writer.Some? then (d, Executing(items, i, current))
    else
      (d.(writer := Some(Transaction(w, d.committed.(schema := d.committed.schema + [items[i]])))),
       Recording(items, i, current))
  }

  function RecordStep(d: Shared, w: nat, items: seq<Migration>, i: nat, current: nat, fault: bool): (Shared, Pc) {
    if !Holds(d, w) || i >= |items| || d.writer.value.pending.history.None? then (d, Recording(items, i, current))
    else
      var rows, r := d.writer.value.pending.history.value, Record(items[i].version, items[i].name);
      if fault || Refused(rows, r) then (d.(writer := None), Finished(false))
      else
        (d.(writer := Some(Transaction(w, d.writer.value.pending.(history := Some(rows + [r]))))),
         Committing(items, i, current))
  }

  /** The commit's three outcomes. */
  function CommitStep(
      d: Shared, w: nat, items: seq<Migration>, i: nat, current: nat, fault: bool, applied: bool): (Shared, Pc) {
    if !Holds(d, w) || i >= |items| || items[i].version < 0 then (d, Committing(items, i, current))
    else if fault && !applied then (d.(writer := None), Finished(false))
    else
      (Shared(d.writer.value.pending, None),
       if fault then Finished(false) else Executing(items, i + 1, items[i].version))
  }

  function Advance(d: Shared, w: nat, runner: Runner, fault: bool, applied: bool): (Shared, Pc) {
    match runner.pc
    case Creating => CreateStep(d, fault, applied)
    case Inspecting => (d, AfterInspect(d.committed, runner.entries, runner.latest, fault))
    case Executing(items, i, current) => ExecuteStep(d, w, runner.latest, items, i, current, fault)
    case Recording(items, i, current) => RecordStep(d, w, items, i, current, fault)
    case Committing(items, i, current) => CommitStep(d, w, items, i, current, fault, applied)
    case Finished(ok) => (d, Finished(ok))
  }

  function Next(s: State, ev: Event): State {
    match ev
    case Arrive(w, entries, latest) =>
      if w in s.runners then s else s.(runners := s.runners[w := Runner(entries, latest, Creating)])
    case Work(w, fault, applied) =>
      if w !in s.runners then s
      else
        var (d, pc) := Advance(s.shared, w, s.runners[w], fault, applied);
        State(d, s.runners[w := s.runners[w].(pc := pc)])
    case Crash(w) =>
      State(if Holds(s.shared, w) then s.shared.(writer := None) else s.shared, s.runners - {w})
  }

  const START := State(Shared(NEW, None), map[])

  function Run(events: seq<Event>): State {
    if events == [] then START else Next(Run(events[..|events| - 1]), events[|events| - 1])
  }

  // ---------------------------------------------------------------- the invariant

  /** The history records exactly the committed scripts, and these are 1 to k in order. */
  ghost predicate Good(db: Db) {
    && (db.history.None? ==> db.schema == [])
    && (db.history.Some? ==> |db.history.value| == |db.schema|)
    && forall i :: 0 <= i < |db.schema| ==>
         && db.history.value[i] == Record(i + 1, db.schema[i].name)
         && db.schema[i].version == i + 1 && VersionOf(db.schema[i].name) == Some(i + 1)
  }

  ghost predicate Loaded(runner: Runner, items: seq<Migration>) {
    && |items| == runner.latest && Contiguous(items)
    && forall i :: 0 <= i < |items| ==> VersionOf(items[i].name) == Some(i + 1)
  }

  ghost predicate RunnerOk(db: Db, runner: Runner) {
    match runner.pc
    case Creating => true
    case Inspecting => db.history.Some?
    case Executing(items, i, current) =>
      Loaded(runner, items) && db.history.Some? && i <= current <= runner.latest && current <= |db.schema|
    case Recording(items, i, current) =>
      Loaded(runner, items) && db.history.Some? && i == current < runner.latest && current <= |db.schema|
    case Committing(items, i, current) =>
      Loaded(runner, items) && db.history.Some? && i == current < runner.latest && current <= |db.schema|
    case Finished(ok) => ok ==> runner.latest <= |db.schema|
  }

  /** What the transaction of the slot's holder has done so far. */
  ghost predicate Pending(db: Db, pending: Db, pc: Pc) {
    match pc
    case Recording(items, i, _) => i < |items| && pending == Db(db.history, db.schema + [items[i]])
    case Committing(items, i, _) =>
      i < |items| && pending.schema == db.schema + [items[i]] && Good(pending) && pending.history.Some?
    case _ => false
  }

  predicate InTransaction(pc: Pc) { pc.Recording? || pc.Committing? }

  ghost predicate Inv(s: State) {
    && Good(s.shared.committed)
    && (forall w :: w in s.runners ==> RunnerOk(s.shared.committed, s.runners[w]))
    && (s.shared.writer.Some? ==>
          var tx := s.shared.writer.value;
          tx.owner in s.runners && Pending(s.shared.committed, tx.pending, s.runners[tx.owner].pc))
    && (forall w :: w in s.runners && InTransaction(s.runners[w].pc) ==> Holds(s.shared, w))
  }

  ghost predicate Extends(db: Db, db': Db) { db.schema <= db'.schema && (db.history.Some? ==> db'.history.Some?) }

  /** What one step owes the other runs. */
  ghost predicate StepOk(d: Shared, runner: Runner, w: nat, d': Shared, pc: Pc) {
    && Good(d'.committed) && Extends(d.committed, d'.committed)
    && RunnerOk(d'.committed, runner.(pc := pc))
    && (Holds(d', w) ==> Pending(d'.committed, d'.writer.value.pending, pc))
    && (InTransaction(pc) ==> Holds(d', w))
    && (d.writer.Some? && !Holds(d, w) ==> d' == d)
    && (d'.writer.Some? && !Holds(d', w) ==> d' == d)
  }

  lemma RunnerOkStays(db: Db, db': Db, runner: Runner)
    requires RunnerOk(db, runner) && Extends(db, db')
    ensures RunnerOk(db', runner)
  {
    hide Loaded;
  }

  /** A good history reads as its length. */
  lemma GoodVersion(db: Db)
    requires Good(db)
    ensures TableOk(db.history) && SchemaVersion(db.history) == Some(|db.schema|)
  {
    hide VersionOf, Largest, Span, SchemaVersion;
    if db.history.Some? {
      var rows := db.history.value;
      forall i, j | 0 <= i < j < |rows| ensures rows[i].name != rows[j].name {
        assert VersionOf(db.schema[i].name) == Some(i + 1) && VersionOf(db.schema[j].name) == Some(j + 1);
      }
      var vs := Versions(rows);
      forall v | v in Span(|rows|) ensures v in vs { assert vs[v - 1] == v; }
      assert Elements(vs) == Span(|rows|);
    }
    SchemaVersionExact(db.history);
  }

  /** The insert refuses a migration that another run has recorded meanwhile and accepts the
      next one: the version in a file name keeps names from clashing. */
  lemma RefusedExactly(db: Db, m: Migration)
    requires Good(db) && db.history.Some? && VersionOf(m.name) == Some(m.version)
    ensures Refused(db.history.value, Record(m.version, m.name)) <==> m.version <= |db.schema|
  {
    hide VersionOf;
    NamedNonBlank(m.name);
    VersionPositive(m.name);
    var rows := db.history.value;
    if 1 <= m.version <= |db.schema| { assert rows[m.version - 1].version == m.version; }
    forall i | 0 <= i < |rows| && (rows[i].version == m.version || rows[i].name == m.name)
      ensures m.version <= |db.schema|
    {
      assert VersionOf(db.schema[i].name) == Some(i + 1);
    }
  }

  lemma VersionPositive(name: string)
    requires VersionOf(name).Some?
    ensures VersionOf(name).value >= 1
  {
    hide Atoi, BeforeUnderscore;
  }

  lemma NamedNonBlank(name: string)
    requires VersionOf(name).Some?
    ensures SqlNonBlank(name)
  {
    assert name != "";
    var prefix := BeforeUnderscore(name).value;
    assert prefix != "" && prefix[0] == name[0];
    assert name[0] == '+' || name[0] == '-' || IsDigit(name[0]);
  }

  lemma GoodNext(db: Db, m: Migration)
    requires Good(db) && db.history.Some? && m.version == |db.schema| + 1 && VersionOf(m.name) == Some(m.version)
    ensures Good(Db(Some(db.history.value + [Record(m.version, m.name)]), db.schema + [m]))
  {
    hide VersionOf;
  }

  lemma LoadedInOrder(entries: seq<Entry>, latest: nat)
    requires Load(entries, latest).Some?
    ensures var items := Load(entries, latest).value;
            |items| == latest && Contiguous(items) && forall i :: 0 <= i < |items| ==>
                VersionOf(items[i].name) == Some(i + 1)
  {
    hide VersionOf, Load;
    LoadMeaning(entries, latest);
  }

  lemma LoadedItems(runner: Runner)
    requires Load(runner.entries, runner.latest).Some?
    ensures Loaded(runner, Load(runner.entries, runner.latest).value)
  {
    hide VersionOf, Load;
    LoadedInOrder(runner.entries, runner.latest);
  }

  // ---------------------------------------------------------------- steps keep the invariant

  lemma RecordKeeps(d: Shared, runner: Runner, w: nat, items: seq<Migration>, i: nat, current: nat, fault: bool)
    requires Good(d.committed) && runner.pc == Recording(items, i, current) && RunnerOk(d.committed, runner)
    requires Holds(d, w) && Pending(d.committed, d.writer.value.pending, runner.pc)
    ensures var (d', pc) := RecordStep(d, w, items, i, current, fault); StepOk(d, runner, w, d', pc)
  {
    hide VersionOf, Refused;
    RefusedExactly(d.committed, items[i]);
    if items[i].version == |d.committed.schema| + 1 { GoodNext(d.committed, items[i]); }
  }

  lemma AdvanceKeeps(s: State, w: nat, fault: bool, applied: bool)
    requires Inv(s) && w in s.runners
    ensures var (d, pc) := Advance(s.shared, w, s.runners[w], fault, applied); StepOk(s.shared, s.runners[w], w, d, pc)
  {
    hide VersionOf, RecordStep, Load, SchemaVersion;
    var d, runner := s.shared, s.runners[w];
    assert RunnerOk(d.committed, runner);
    match runner.pc
    case Inspecting =>
      GoodVersion(d.committed);
      if Load(runner.entries, runner.latest).Some? { LoadedItems(runner); }
    case Recording(items, i, current) => RecordKeeps(d, runner, w, items, i, current, fault);
    case _ =>
  }

  lemma NextKeeps(s: State, ev: Event)
    requires Inv(s)
    ensures Inv(Next(s, ev)) && Extends(s.shared.committed, Next(s, ev).shared.committed)
  {
    hide Good, Pending, Advance;
    match ev
    case Work(w, fault, applied) =>
      if w in s.runners {
        AdvanceKeeps(s, w, fault, applied);
        var (d, _) := Advance(s.shared, w, s.runners[w], fault, applied);
        forall v | v in s.runners && v != w ensures RunnerOk(d.committed, s.runners[v]) {
          RunnerOkStays(s.shared.committed, d.committed, s.runners[v]);
        }
      }
    case _ =>
  }

  // ---------------------------------------------------------------- whole runs

  lemma {:induction false} RunInvariant(events: seq<Event>)
    ensures Inv(Run(events))
  {
    hide Next;
    if events != [] {
      RunInvariant(events[..|events| - 1]);
      NextKeeps(Run(events[..|events| - 1]), events[|events| - 1]);
    }
  }

  /** In every reachable state the history is exactly 1 to k and reads as k, for the k scripts
      committed so far, which are versions 1 to k, each once and in order. */
  lemma HistoryIsContiguous(events: seq<Event>)
    ensures var db := Run(events).shared.committed;
            && SchemaVersion(db.history) == Some(|db.schema|)
            && Contiguous(db.schema)
            && (db.history.Some? ==> Elements(Versions(db.history.value)) == Span(|db.schema|))
  {
    hide Run, SchemaVersion, Largest, Span, RunnerOk, Pending;
    RunInvariant(events);
    var db := Run(events).shared.committed;
    GoodVersion(db);
    SchemaVersionExact(db.history);
  }

  /** Committed scripts stay committed: a later state only appends to them. */
  lemma {:induction false} ScriptsAreFinal(events: seq<Event>, more: seq<Event>)
    ensures Run(events).shared.committed.schema <= Run(events + more).shared.committed.schema
    decreases |more|
  {
    hide Inv, Next;
    if more == [] {
      assert events + more == events;
    } else {
      var front := more[..|more| - 1];
      ScriptsAreFinal(events, front);
      assert (events + more)[..|events + more| - 1] == events + front;
      RunInvariant(events + front);
      NextKeeps(Run(events + front), more[|more| - 1]);
    }
  }

  /** Success means that the release's latest version is recorded, then and ever after. */
  lemma SuccessMeansMigrated(events: seq<Event>, more: seq<Event>, w: nat)
    requires w in Run(events).runners && Run(events).runners[w].pc == Finished(true)
    ensures var now, later := Run(events).shared.committed, Run(events + more).shared.committed;
            && SchemaVersion(now.history).Some? && SchemaVersion(later.history).Some?
            && Run(events).runners[w].latest <= SchemaVersion(now.history).value <= SchemaVersion(later.history).value
  {
    hide Run, SchemaVersion, Good, Pending;
    RunInvariant(events);
    assert RunnerOk(Run(events).shared.committed, Run(events).runners[w]);
    ScriptsAreFinal(events, more);
    HistoryIsContiguous(events);
    HistoryIsContiguous(events + more);
  }

  /** All runs are of one release. */
  predicate OneRelease(events: seq<Event>, latest: nat) {
    forall i :: 0 <= i < |events| && events[i].Arrive? ==> events[i].latest == latest
  }

  ghost predicate Within(s: State, latest: nat) {
    |s.shared.committed.schema| <= latest && forall w :: w in s.runners ==> s.runners[w].latest == latest
  }

  lemma {:induction false} OneReleaseBound(events: seq<Event>, latest: nat)
    requires OneRelease(events, latest)
    ensures Within(Run(events), latest)
  {
    hide Inv, Next;
    if events != [] {
      var front := events[..|events| - 1];
      OneReleaseBound(front, latest);
      RunInvariant(front);
      WithinKept(Run(front), events[|events| - 1], latest);
    }
  }

  lemma WithinKept(s: State, ev: Event, latest: nat)
    requires Inv(s) && Within(s, latest) && (ev.Arrive? ==> ev.latest == latest)
    ensures Within(Next(s, ev), latest)
  {
    hide VersionOf, Load, SchemaVersion;
    if ev.Work? && ev.w in s.runners {
      assert RunnerOk(s.shared.committed, s.runners[ev.w]);
      CommittedLength(s, ev.w, ev.fault, ev.applied);
    }
  }

  lemma CommittedLength(s: State, w: nat, fault: bool, applied: bool)
    requires Inv(s) && w in s.runners
    ensures var d := Advance(s.shared, w, s.runners[w], fault, applied).0;
            |d.committed.schema| <= |s.shared.committed.schema| || |d.committed.schema| <= s.runners[w].latest
  {
    hide VersionOf, Load, SchemaVersion, Refused;
    assert RunnerOk(s.shared.committed, s.runners[w]);
    var pc := s.runners[w].pc;
    if pc.Committing? && Holds(s.shared, w) {
      var pending := s.shared.writer.value.pending;
      assert pending.schema[|pending.schema| - 1] == pc.items[pc.i];
    }
  }

  /** With one release, success means that the history is exactly 1 to its latest version. */
  lemma SuccessMeansLatest(events: seq<Event>, latest: nat, w: nat)
    requires OneRelease(events, latest) && w in Run(events).runners && Run(events).runners[w].pc == Finished(true)
    ensures SchemaVersion(Run(events).shared.committed.history) == Some(latest)
  {
    hide Run, SchemaVersion, Good, Pending;
    RunInvariant(events);
    assert RunnerOk(Run(events).shared.committed, Run(events).runners[w]);
    OneReleaseBound(events, latest);
    HistoryIsContiguous(events);
  }

  // ---------------------------------------------------------------- one run, as the source writes it

  /** What fails during one `Migrate`; the last three per migration index. */
  datatype Faults = Faults(
    create: bool, createApplied: bool, inspect: bool,
    execute: nat -> bool, record: nat -> bool, commit: nat -> bool, applied: nat -> bool)

  ghost predicate Calm(x: Faults) {
    !x.create && !x.inspect && forall n: nat :: !x.execute(n) && !x.record(n) && !x.commit(n)
  }

  class SchemaDatabase {
    var db: Db

    constructor ()
      ensures db == NEW && Good(db)
    {
      db := NEW;
    }

    /** `applyMigration`: the script and its record commit together or not at all. */
    method ApplyMigration(m: Migration, n: nat, x: Faults) returns (ok: bool)
      requires db.history.Some?
      modifies this
      ensures db != old(db) ==>
                !Refused(old(db).history.value, Record(m.version, m.name)) && db == Recorded(old(db), m)
      ensures ok ==> db == Recorded(old(db), m) && !Refused(old(db).history.value, Record(m.version, m.name))
      ensures Calm(x) ==> (ok <==> !Refused(old(db).history.value, Record(m.version, m.name)))
    {
      hide Refused;
      if x.execute(n) {
        return false;
      }
      var pending := db.(schema := db.schema + [m]);
      var row := Record(m.version, m.name);
      if x.record(n) || Refused(pending.history.value, row) {
        return false;
      }
      pending := pending.(history := Some(pending.history.value + [row]));
      if x.commit(n) {
        if x.applied(n) {
          db := pending;
        }
        return false;
      }
      db := pending;
      ok := true;
    }

    /** The loop of `Migrate`: items up to `from` are skipped, the others applied in order up
        to the first failure. */
    method ApplyMissing(items: seq<Migration>, from: nat, x: Faults) returns (ok: bool, current: int)
      requires db.history.Some? && Contiguous(items)
      requires Good(db) ==>
          from == |db.schema| <= |items| && forall i :: 0 <= i < |items| ==> VersionOf(items[i].name) == Some(i + 1)
      modifies this
      ensures Good(old(db)) ==>
                && Progress(old(db), items, db)
                && (ok ==> current == |db.schema| == |items|)
                && (Calm(x) ==> ok)
    {
      hide Refused, VersionOf, Good, Recorded, Calm;
      ghost var good := Good(db);
      current := from;
      assert good ==> Progress(old(db), items, db);
      for n := 0 to |items|
        invariant db.history.Some?
        invariant good ==> Progress(old(db), items, db) && n <= current == |db.schema|
      {
        if items[n].version <= current {
          continue;
        }
        ghost var before := db;
        if good { NextItem(old(db), items, db, n); }
        var applied := ApplyMigration(items[n], n, x);
        if good && db != before { HistoryGrows(before, items[n]); }
        if !applied {
          return false, current;
        }
        HistoryGrows(before, items[n]);
        current := items[n].version;
      }
      ok := true;
    }

    /** `Migrate`. A history that is not 1 to k is refused and left alone. Otherwise the run
        appends missing migrations in order, stops at the first failure, and succeeds exactly
        at the latest version; left alone, it succeeds whenever that is possible. */
    method Migrate(entries: seq<Entry>, latest: nat, x: Faults) returns (ok: bool)
      requires TableOk(db.history)
      modifies this
      ensures SchemaVersion(old(db).history).None? ==> !ok && db == old(db)
      ensures Good(old(db)) ==>
                && Good(db) && old(db).schema <= db.schema
                && (ok ==> SchemaVersion(db.history) == Some(latest) && |db.schema| == latest)
                && (|db.schema| > |old(db).schema| ==>
                      && Load(entries, latest).Some? && |db.schema| <= latest
                      && db.schema == old(db).schema + Load(entries, latest).value[|old(db).schema|..|db.schema|])
                && (Calm(x) ==> (ok <==> Load(entries, latest).Some? && |old(db).schema| <= latest))
    {
      hide Load, SchemaVersion, VersionOf, Good, TableOk, Progress, Contiguous;
      ghost var good := Good(old(db));
      if good { Opened(old(db)); }
      AbsentHistory();
      if db.history.None? && (!x.create || x.createApplied) {
        db := db.(history := Some([]));
      }
      if x.create {
        return false;
      }
      if x.inspect {
        return false;
      }
      var version := SchemaVersion(db.history);
      if version.None? || version.value > latest {
        return false;
      }
      var loaded := LoadMigrations(entries, latest);
      if loaded.None? {
        return false;
      }
      LoadedInOrder(entries, latest);
      if Good(db) { GoodVersion(db); }
      ghost var start := db;
      var current;
      ok, current := ApplyMissing(loaded.value, version.value, x);
      if good { Finishing(start, loaded.value, db); }
      ok := ok && current == latest;
    }
  }

  lemma HistoryGrows(db: Db, m: Migration)
    requires db.history.Some?
    ensures Recorded(db, m).history.Some? && |Recorded(db, m).schema| == |db.schema| + 1
  {
  }

  /** The run has appended the items from the old length to the present one. */
  ghost predicate Progress(start: Db, items: seq<Migration>, db: Db) {
    && Good(db) && |start.schema| <= |db.schema| <= |items|
    && db.schema == start.schema + items[|start.schema|..|db.schema|]
  }

  /** CREATE TABLE IF NOT EXISTS. */
  function WithTable(db: Db): Db { if db.history.None? then db.(history := Some([])) else db }

  lemma Opened(db: Db)
    requires Good(db)
    ensures Good(WithTable(db)) && SchemaVersion(WithTable(db).history) == Some(|db.schema|)
    ensures SchemaVersion(db.history) == Some(|db.schema|)
  {
    hide VersionOf, SchemaVersion;
    GoodVersion(db);
    GoodVersion(WithTable(db));
  }

  lemma AbsentHistory()
    ensures SchemaVersion(None) == Some(0)
  {
  }

  lemma NextItem(start: Db, items: seq<Migration>, db: Db, n: nat)
    requires Progress(start, items, db) && db.history.Some? && n == |db.schema| < |items|
    requires items[n].version == n + 1 && VersionOf(items[n].name) == Some(n + 1)
    ensures Progress(start, items, Recorded(db, items[n]))
    ensures !Refused(db.history.value, Record(items[n].version, items[n].name))
  {
    hide VersionOf, Good, Refused;
    RefusedExactly(db, items[n]);
    GoodNext(db, items[n]);
    assert items[|start.schema|..n + 1] == items[|start.schema|..n] + [items[n]];
  }

  lemma Finishing(start: Db, items: seq<Migration>, db: Db)
    requires Progress(start, items, db)
    ensures Good(db) && start.schema <= db.schema && SchemaVersion(db.history) == Some(|db.schema|)
    ensures |db.schema| <= |items| && db.schema == start.schema + items[|start.schema|..|db.schema|]
  {
    hide Good, SchemaVersion;
    GoodVersion(db);
  }

  /** The database after one recorded migration. */
  function Recorded(db: Db, m: Migration): Db
    requires db.history.Some?
  {
    Db(Some(db.history.value + [Record(m.version, m.name)]), db.schema + [m])
  }
}
