/** The embedded migrations: how the files are loaded and how the recorded history is read. */
module Migrations {
  import opened Ascending
  import opened Digits
  import opened Results

  datatype Entry = Entry(name: string, directory: bool, contents: string)

  datatype Migration = Migration(version: int, name: string, sql: string)

  // ---------------------------------------------------------------- file names

  predicate Int64Range(n: int) { -0x8000_0000_0000_0000 <= n < 0x8000_0000_0000_0000 }

  /** `strconv.Atoi`: an optional sign, then decimal digits, within 64 bits. */
  function Atoi(s: string): Option<int> {
    var signed := s != "" && (s[0] == '+' || s[0] == '-');
    var digits := if signed then s[1..] else s;
    if digits == "" || !AllDigits(digits) then None
    else
      var n: int := if signed && s[0] == '-' then -(Value(digits) as int) else Value(digits);
      if Int64Range(n) then Some(n) else None
  }

  function BeforeUnderscore(s: string): Option<string> {
    if s == "" then None
    else if s[0] == '_' then Some("")
    else match BeforeUnderscore(s[1..]) case None => None case Some(p) => Some([s[0]] + p)
  }

  /** The version a file name stands for, if it names one. */
  function VersionOf(name: string): Option<int> {
    match BeforeUnderscore(name)
    case None => None
    case Some(prefix) =>
      match Atoi(prefix) case Some(v) => if v < 1 then None else Some(v) case None => None
  }

  predicate IsScript(e: Entry) {
    !e.directory && |e.name| >= 4 && e.name[|e.name| - 4..] == ".sql"
  }

  function Scripts(entries: seq<Entry>): seq<Entry> {
    if entries == [] then []
    else
      var n := |entries| - 1;
      Scripts(entries[..n]) + (if IsScript(entries[n]) then [entries[n]] else [])
  }

  // ---------------------------------------------------------------- loading

  predicate AllNamed(scripts: seq<Entry>) {
    forall i :: 0 <= i < |scripts| ==> VersionOf(scripts[i].name).Some?
  }

  function MigrationOf(e: Entry): Migration
    requires VersionOf(e.name).Some?
  {
    Migration(VersionOf(e.name).value, e.name, e.contents)
  }

  function MigrationsOf(scripts: seq<Entry>): (ms: seq<Migration>)
    requires AllNamed(scripts)
    ensures |ms| == |scripts| && forall i :: 0 <= i < |ms| ==> ms[i] == MigrationOf(scripts[i])
  {
    seq(|scripts|, i requires 0 <= i < |scripts| => MigrationOf(scripts[i]))
  }

  predicate ByVersion(ms: seq<Migration>) {
    forall i, j :: 0 <= i < j < |ms| ==> ms[i].version <= ms[j].version
  }

  function PlaceByVersion(m: Migration, ms: seq<Migration>): seq<Migration> {
    if ms == [] || m.version <= ms[0].version then [m] + ms else [ms[0]] + PlaceByVersion(m, ms[1..])
  }

  lemma {:induction false} PlacedByVersion(m: Migration, ms: seq<Migration>)
    requires ByVersion(ms)
    ensures ByVersion(PlaceByVersion(m, ms))
    ensures PlaceByVersion(m, ms)[0] == if ms == [] || m.version <= ms[0].version then m else ms[0]
  {
    if ms != [] {
      if m.version > ms[0].version {
        PlacedByVersion(m, ms[1..]);
        ConsByVersion(ms[0], PlaceByVersion(m, ms[1..]));
      } else {
        ConsByVersion(m, ms);
      }
    }
  }

  lemma {:induction false} PlacedOnce(m: Migration, ms: seq<Migration>)
    ensures multiset(PlaceByVersion(m, ms)) == multiset(ms) + multiset{m}
  {
    if ms != [] && m.version > ms[0].version {
      assert ms == [ms[0]] + ms[1..];
      PlacedOnce(m, ms[1..]);
    }
  }

  lemma ConsByVersion(m: Migration, ms: seq<Migration>)
    requires ms != [] && ByVersion(ms) && m.version <= ms[0].version
    ensures ByVersion([m] + ms)
  {
  }

  /** `sort.Slice` by version. Ties, whose order the library leaves open, fail the check
      that follows. */
  function SortByVersion(ms: seq<Migration>): (r: seq<Migration>)
    ensures ByVersion(r) && multiset(r) == multiset(ms)
  {
    if ms == [] then []
    else
      assert ms == [ms[0]] + ms[1..];
      PlacedByVersion(ms[0], SortByVersion(ms[1..]));
      PlacedOnce(ms[0], SortByVersion(ms[1..]));
      PlaceByVersion(ms[0], SortByVersion(ms[1..]))
  }

  /** Migration i has version i + 1. */
  predicate Contiguous(ms: seq<Migration>) { forall i :: 0 <= i < |ms| ==> ms[i].version == i + 1 }

  function Load(entries: seq<Entry>, latest: nat): Option<seq<Migration>> {
    var scripts := Scripts(entries);
    if !AllNamed(scripts) then None
    else
      var sorted := SortByVersion(MigrationsOf(scripts));
      if Contiguous(sorted) && |sorted| == latest then Some(sorted) else None
  }

  /** `loadMigrations`: collect and parse, sort, then check each expected version. */
  method LoadMigrations(entries: seq<Entry>, latest: nat) returns (r: Option<seq<Migration>>)
    ensures r == Load(entries, latest)
  {
    hide VersionOf, IsScript;
    var items: seq<Migration> := [];
    for n := 0 to |entries|
      invariant AllNamed(Scripts(entries[..n])) && items == MigrationsOf(Scripts(entries[..n]))
    {
      assert entries[..n + 1][..n] == entries[..n];
      if !IsScript(entries[n]) {
        continue;
      }
      var version := VersionOf(entries[n].name);
      if version.None? {
        UnnamedScript(entries, n);
        return None;
      }
      items := items + [Migration(version.value, entries[n].name, entries[n].contents)];
    }
    assert entries[..|entries|] == entries;
    items := SortByVersion(items);
    for index := 0 to |items|
      invariant Contiguous(items[..index])
    {
      if items[index].version != index + 1 {
        return None;
      }
    }
    assert items[..|items|] == items;
    r := if |items| == latest then Some(items) else None;
  }

  lemma {:induction false} ScriptsMembers(entries: seq<Entry>)
    ensures forall i :: 0 <= i < |entries| && IsScript(entries[i]) ==> entries[i] in Scripts(entries)
  {
    hide IsScript;
    if entries != [] { ScriptsMembers(entries[..|entries| - 1]); }
  }

  lemma UnnamedScript(entries: seq<Entry>, n: nat)
    requires n < |entries| && IsScript(entries[n]) && VersionOf(entries[n].name).None?
    ensures !AllNamed(Scripts(entries))
  {
    hide IsScript, VersionOf, Scripts;
    ScriptsMembers(entries);
    assert entries[n] in Scripts(entries);
  }

  // ---------------------------------------------------------------- what names mean

  /** `name` is an optional plus sign, digits of value v, an underscore and anything. */
  predicate Spelled(name: string, sign: string, digits: string, rest: string, v: int) {
    && name == sign + digits + "_" + rest && (sign == "" || sign == "+")
    && digits != "" && AllDigits(digits) && Value(digits) == v && 1 <= v < 0x8000_0000_0000_0000
  }

  lemma {:induction false} SplitAtUnderscore(prefix: string, rest: string)
    requires '_' !in prefix
    ensures BeforeUnderscore(prefix + "_" + rest) == Some(prefix)
  {
    var s := prefix + "_" + rest;
    if prefix != "" {
      assert s[1..] == prefix[1..] + "_" + rest;
      assert prefix == [prefix[0]] + prefix[1..];
      SplitAtUnderscore(prefix[1..], rest);
    }
  }

  lemma {:induction false} UnderscoreSplits(s: string) returns (rest: string)
    requires BeforeUnderscore(s).Some?
    ensures s == BeforeUnderscore(s).value + "_" + rest
  {
    if s[0] == '_' {
      rest := s[1..];
    } else {
      rest := UnderscoreSplits(s[1..]);
      assert s == [s[0]] + s[1..];
    }
  }

  /** A file name stands for version v exactly when it is a numeral of value v, within 64 bits,
      followed by an underscore; leading zeros and a plus sign do not matter. */
  lemma VersionExactly(name: string, v: int)
    ensures VersionOf(name) == Some(v) <==> exists sign, digits, rest :: Spelled(name, sign, digits, rest, v)
  {
    hide BeforeUnderscore, Value;
    if VersionOf(name) == Some(v) {
      var rest := UnderscoreSplits(name);
      var prefix := BeforeUnderscore(name).value;
      var signed := prefix[0] == '+';
      var sign, digits := if signed then "+" else "", if signed then prefix[1..] else prefix;
      assert prefix == sign + digits;
      assert Spelled(name, sign, digits, rest, v);
    }
    forall sign, digits, rest | Spelled(name, sign, digits, rest, v) ensures VersionOf(name) == Some(v) {
      NumeralVersion(sign, digits, rest);
    }
  }

  lemma NumeralVersion(sign: string, digits: string, rest: string)
    requires (sign == "" || sign == "+") && digits != "" && AllDigits(digits)
    requires 1 <= Value(digits) < 0x8000_0000_0000_0000
    ensures VersionOf(sign + digits + "_" + rest) == Some(Value(digits))
  {
    hide BeforeUnderscore, Value;
    var prefix := sign + digits;
    assert (if sign == "+" then prefix[1..] else prefix) == digits;
    SplitAtUnderscore(prefix, rest);
  }

  ghost predicate EndsWith(s: string, suffix: string) { exists stem :: s == stem + suffix }

  /** The scripts are exactly the files, not directories, whose name ends with ".sql", each as
      often as it is listed. */
  lemma {:induction false} ScriptsExactly(entries: seq<Entry>, e: Entry)
    ensures multiset(Scripts(entries))[e]
              == if !e.directory && EndsWith(e.name, ".sql") then multiset(entries)[e] else 0
  {
    hide IsScript;
    if entries != [] {
      var n := |entries| - 1;
      assert entries == entries[..n] + [entries[n]];
      ScriptsExactly(entries[..n], e);
      ScriptName(e);
    }
  }

  lemma ScriptName(e: Entry)
    ensures IsScript(e) <==> !e.directory && EndsWith(e.name, ".sql")
  {
    if IsScript(e) { assert e.name == e.name[..|e.name| - 4] + ".sql"; }
  }

  // ---------------------------------------------------------------- count and maximum

  /** The versions 1 to k. */
  function Span(k: nat): (s: set<int>)
    ensures forall i :: i in s <==> 1 <= i <= k
    ensures |s| == k
  {
    if k == 0 then {} else Span(k - 1) + {k as int}
  }

  function Largest(xs: seq<int>): (m: nat)
    ensures forall i :: 0 <= i < |xs| ==> xs[i] <= m
    ensures m > 0 ==> m in xs
  {
    if xs == [] then 0
    else
      var n := |xs| - 1;
      var m := Largest(xs[..n]);
      if xs[n] > m then xs[n] else m
  }

  function Elements(xs: seq<int>): set<int> { set x | x in xs }

  lemma {:induction false} DistinctSize(xs: seq<int>)
    requires Distinct(xs)
    ensures |Elements(xs)| == |xs|
  {
    if xs != [] {
      var n := |xs| - 1;
      DistinctSize(xs[..n]);
      ElementsStep(xs);
      assert xs[n] !in xs[..n];
    }
  }

  lemma SubsetOfSameSize(s: set<int>, t: set<int>)
    requires s <= t && |s| == |t|
    ensures s == t
  {
    assert t == s + (t - s);
    assert |t - s| == 0;
  }

  /** The pigeonhole: distinct positive versions whose count equals their maximum are exactly
      1 to that number, whatever their order; and conversely. */
  lemma CountEqualsMaximum(versions: seq<int>)
    requires Distinct(versions) && forall i :: 0 <= i < |versions| ==> versions[i] > 0
    ensures |versions| == Largest(versions) <==> Elements(versions) == Span(|versions|)
    ensures |versions| <= Largest(versions)
  {
    var k := Largest(versions);
    DistinctSize(versions);
    assert Elements(versions) <= Span(k);
    SubsetSize(Elements(versions), Span(k));
    if |versions| == k {
      SubsetOfSameSize(Elements(versions), Span(k));
    } else {
      assert k in Elements(versions) && k !in Span(|versions|);
    }
  }

  lemma {:induction false} SubsetSize(s: set<int>, t: set<int>)
    requires s <= t
    ensures |s| <= |t|
  {
    assert t == s + (t - s);
  }

  // ---------------------------------------------------------------- the recorded history

  datatype Record = Record(version: int, name: string)

  /** The schema_migrations table, or nothing before it is created. */
  type History = Option<seq<Record>>

  function Versions(rows: seq<Record>): (vs: seq<int>)
    ensures |vs| == |rows| && forall i :: 0 <= i < |vs| ==> vs[i] == rows[i].version
  {
    seq(|rows|, i requires 0 <= i < |rows| => rows[i].version)
  }

  /** The table's own constraints: a positive primary key and unique names. */
  ghost predicate TableOk(h: History) {
    h.Some? ==>
      && Distinct(Versions(h.value))
      && (forall i :: 0 <= i < |h.value| ==> h.value[i].version > 0)
      && (forall i, j :: 0 <= i < j < |h.value| ==> h.value[i].name != h.value[j].name)
  }

  /** `SchemaVersion`: COUNT and MAX must agree. */
  function SchemaVersion(h: History): Option<nat> {
    if h.None? then Some(0)
    else if |h.value| != Largest(Versions(h.value)) then None
    else Some(|h.value|)
  }

  /** It answers k exactly for the histories 1 to k, and an error for every other one. */
  lemma SchemaVersionExact(h: History)
    requires TableOk(h)
    ensures h.None? ==> SchemaVersion(h) == Some(0)
    ensures h.Some? ==> (SchemaVersion(h).Some? <==> Elements(Versions(h.value)) == Span(|h.value|))
    ensures forall k: nat :: h.Some? && Elements(Versions(h.value)) == Span(k) ==> SchemaVersion(h) == Some(k)
  {
    hide Largest, Distinct;
    if h.Some? {
      var vs := Versions(h.value);
      CountEqualsMaximum(vs);
      DistinctSize(vs);
      forall k: nat | Elements(vs) == Span(k) ensures SchemaVersion(h) == Some(k) {
        assert |Span(k)| == k;
      }
    }
  }

  // ---------------------------------------------------------------- what loading means

  function VersionsOf(ms: seq<Migration>): (vs: seq<int>)
    ensures |vs| == |ms| && forall i :: 0 <= i < |vs| ==> vs[i] == ms[i].version
  {
    seq(|ms|, i requires 0 <= i < |ms| => ms[i].version)
  }

  lemma SameMultiset(xs: seq<Migration>, ys: seq<Migration>)
    requires multiset(xs) == multiset(ys)
    ensures |xs| == |ys| && Elements(VersionsOf(xs)) == Elements(VersionsOf(ys))
  {
    assert |multiset(xs)| == |multiset(ys)|;
    forall v | v in VersionsOf(xs) ensures v in VersionsOf(ys) { ElementOf(xs, ys, v); }
    forall v | v in VersionsOf(ys) ensures v in VersionsOf(xs) { ElementOf(ys, xs, v); }
  }

  lemma ElementOf(xs: seq<Migration>, ys: seq<Migration>, v: int)
    requires multiset(xs) == multiset(ys) && v in VersionsOf(xs)
    ensures v in VersionsOf(ys)
  {
    var i :| 0 <= i < |xs| && xs[i].version == v;
    assert xs[i] in multiset(ys);
    var j :| 0 <= j < |ys| && ys[j] == xs[i];
    assert VersionsOf(ys)[j] == v;
  }

  lemma {:induction false} ElementsSize(xs: seq<int>)
    ensures |Elements(xs)| <= |xs|
  {
    if xs != [] {
      var n := |xs| - 1;
      ElementsSize(xs[..n]);
      ElementsStep(xs);
    }
  }

  /** A sorted list of n migrations whose versions are 1 to n has version i + 1 at index i. */
  lemma {:induction false} SortedSpan(ms: seq<Migration>)
    requires ByVersion(ms) && Elements(VersionsOf(ms)) == Span(|ms|)
    ensures Contiguous(ms)
  {
    hide Span, Elements, VersionsOf;
    if ms != [] {
      var n := |ms| - 1;
      var vs := VersionsOf(ms);
      LastIsLargest(ms);
      assert VersionsOf(ms[..n]) == vs[..n];
      ElementsStep(vs);
      ElementsSize(vs[..n]);
      FrontSpan(Elements(vs[..n]), n);
      SortedSpan(ms[..n]);
    }
  }

  lemma ElementsStep(xs: seq<int>)
    requires xs != []
    ensures Elements(xs) == Elements(xs[..|xs| - 1]) + {xs[|xs| - 1]}
  {
  }

  lemma FrontSpan(s: set<int>, n: nat)
    requires s + {n + 1} == Span(n + 1) && |s| <= n
    ensures s == Span(n)
  {
    hide Span;
    assert (n + 1 in s) == (s + {n + 1} == s);
  }

  lemma LastIsLargest(ms: seq<Migration>)
    requires ms != [] && ByVersion(ms) && Elements(VersionsOf(ms)) == Span(|ms|)
    ensures ms[|ms| - 1].version == |ms|
  {
    var n := |ms| - 1;
    assert n + 1 in Span(|ms|);
    assert n + 1 in VersionsOf(ms);
    var i :| 0 <= i < |ms| && ms[i].version == n + 1;
    assert VersionsOf(ms)[n] in Elements(VersionsOf(ms));
  }

  /** Loading succeeds exactly when every script names a version and the versions are 1 to
      the latest, each once; then script i + 1 is at index i and nothing is lost or added. */
  lemma LoadMeaning(entries: seq<Entry>, latest: nat)
    ensures var scripts := Scripts(entries);
            Load(entries, latest).Some? <==>
              AllNamed(scripts) && |scripts| == latest && Elements(VersionsOf(MigrationsOf(scripts))) == Span(latest)
    ensures Load(entries, latest).Some? ==>
              var ms := Load(entries, latest).value;
              && Contiguous(ms) && |ms| == latest && multiset(ms) == multiset(MigrationsOf(Scripts(entries)))
              && forall i :: 0 <= i < |ms| ==> VersionOf(ms[i].name) == Some(i + 1)
  {
    hide VersionOf, Scripts;
    var scripts := Scripts(entries);
    if AllNamed(scripts) {
      var ms := MigrationsOf(scripts);
      var sorted := SortByVersion(ms);
      SameMultiset(ms, sorted);
      if Contiguous(sorted) {
        ContiguousSpan(sorted);
      }
      if Elements(VersionsOf(ms)) == Span(|ms|) {
        SortedSpan(sorted);
      }
      forall i | 0 <= i < |sorted| ensures VersionOf(sorted[i].name) == Some(sorted[i].version) {
        assert sorted[i] in multiset(ms);
      }
    }
  }

  lemma ContiguousSpan(ms: seq<Migration>)
    requires Contiguous(ms)
    ensures Elements(VersionsOf(ms)) == Span(|ms|)
  {
    forall v | v in Span(|ms|) ensures v in VersionsOf(ms) {
      assert VersionsOf(ms)[v - 1] == v;
    }
  }

  ghost predicate From(m: Migration, version: int, e: Entry) {
    !e.directory && EndsWith(e.name, ".sql") && m == Migration(version, e.name, e.contents)
  }

  /** The loaded migration of version i + 1 is a script file of that version, under its own name
      and with its own contents. */
  lemma LoadedFromFiles(entries: seq<Entry>, latest: nat)
    requires Load(entries, latest).Some?
    ensures var ms := Load(entries, latest).value;
            forall i :: 0 <= i < |ms| ==>
              exists e :: e in entries && From(ms[i], i + 1, e) && VersionOf(e.name) == Some(i + 1)
  {
    hide VersionOf, Scripts, EndsWith;
    LoadMeaning(entries, latest);
    var ms, scripts := Load(entries, latest).value, Scripts(entries);
    forall i | 0 <= i < |ms|
      ensures exists e :: e in entries && From(ms[i], i + 1, e) && VersionOf(e.name) == Some(i + 1)
    {
      assert ms[i] in multiset(MigrationsOf(scripts));
      var j :| 0 <= j < |scripts| && MigrationOf(scripts[j]) == ms[i];
      ScriptsExactly(entries, scripts[j]);
      assert scripts[j] in multiset(scripts);
      assert scripts[j] in multiset(entries);
    }
  }

  /** The one migration of the first release. */
  lemma FirstMigration()
    ensures VersionOf("0001_minimal_ledger.sql") == Some(1) && IsScript(Entry("0001_minimal_ledger.sql", false, ""))
  {
    hide Scripts, MigrationOf;
    var digits := "0001";
    assert "0001_minimal_ledger.sql" == "" + digits + "_" + "minimal_ledger.sql";
    assert Value(digits) == 1 by { FirstNumber(); }
    NumeralVersion("", digits, "minimal_ledger.sql");
  }

  lemma FirstNumber()
    ensures Value("0001") == 1
  {
    assert "0001"[..3] == "000" && "000"[..2] == "00" && "00"[..1] == "0" && "0"[..0] == "";
  }
}
