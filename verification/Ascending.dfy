/** Set-like facts: the strictly ascending, duplicate-free form that the source reaches by
    filling a map, collecting its keys, sorting them and reading the values back. */
module Ascending {
  import opened Text

  ghost predicate IsAscending<T>(key: T -> string, xs: seq<T>) {
    forall i, j :: 0 <= i < j < |xs| ==> Less(key(xs[i]), key(xs[j]))
  }

  ghost predicate SameElements<T>(xs: seq<T>, ys: seq<T>) {
    (forall x :: x in xs ==> x in ys) && (forall y :: y in ys ==> y in xs)
  }

  /** No two different elements share a key, so a map keyed by it drops only duplicates. */
  ghost predicate KeyDetermines<T>(key: T -> string, xs: seq<T>) {
    forall i, j :: 0 <= i < |xs| && 0 <= j < |xs| && key(xs[i]) == key(xs[j]) ==> xs[i] == xs[j]
  }

  function Insert<T>(key: T -> string, x: T, xs: seq<T>): seq<T> {
    if xs == [] then [x]
    else if key(x) == key(xs[0]) then [x] + xs[1..]
    else if Less(key(x), key(xs[0])) then [x] + xs
    else [xs[0]] + Insert(key, x, xs[1..])
  }

  /** The reference form: insert every element, a later one replacing an earlier one with
      the same key. */
  function Ascend<T>(key: T -> string, xs: seq<T>): seq<T> {
    if xs == [] then [] else Insert(key, xs[|xs| - 1], Ascend(key, xs[..|xs| - 1]))
  }

  lemma {:induction false} InsertAscends<T>(key: T -> string, x: T, xs: seq<T>)
    requires IsAscending(key, xs)
    ensures IsAscending(key, Insert(key, x, xs))
    ensures forall y :: y in Insert(key, x, xs) ==> y == x || (y in xs && key(y) != key(x))
    ensures forall y :: y in xs && key(y) != key(x) ==> y in Insert(key, x, xs)
    ensures x in Insert(key, x, xs)
  {
    if xs == [] {
    } else if key(x) == key(xs[0]) {
      forall y | y in xs[1..] ensures key(y) != key(x) {
        LessIrreflexive(key(x));
      }
      assert xs == [xs[0]] + xs[1..];
    } else if Less(key(x), key(xs[0])) {
      forall i | 0 <= i < |xs| ensures Less(key(x), key(xs[i])) {
        if i > 0 { LessTransitive(key(x), key(xs[0]), key(xs[i])); }
      }
      LessIrreflexive(key(x));
    } else {
      LessTotal(key(x), key(xs[0]));
      hide Less;
      var rest := Insert(key, x, xs[1..]);
      InsertAscends(key, x, xs[1..]);
      forall j | 0 <= j < |rest| ensures Less(key(xs[0]), key(rest[j])) {
        assert rest[j] in rest;
        if rest[j] != x {
          assert rest[j] in xs[1..];
          var k :| 0 <= k < |xs[1..]| && xs[1..][k] == rest[j];
          assert xs[k + 1] == rest[j];
        }
      }
      assert xs == [xs[0]] + xs[1..];
    }
  }

  lemma {:induction false} AscendAscends<T>(key: T -> string, xs: seq<T>)
    ensures IsAscending(key, Ascend(key, xs))
  {
    if xs != [] {
      AscendAscends(key, xs[..|xs| - 1]);
      InsertAscends(key, xs[|xs| - 1], Ascend(key, xs[..|xs| - 1]));
    }
  }

  /** A key that determines its element loses nothing: the normal form has exactly the
      elements of the input. */
  lemma {:induction false} AscendMembers<T>(key: T -> string, xs: seq<T>)
    requires KeyDetermines(key, xs)
    ensures SameElements(Ascend(key, xs), xs)
  {
    hide IsAscending, Insert;
    if xs != [] {
      var x, front := xs[|xs| - 1], xs[..|xs| - 1];
      assert xs == front + [x];
      assert forall i :: 0 <= i < |front| ==> front[i] == xs[i];
      AscendMembers(key, front);
      var inner := Ascend(key, front);
      AscendAscends(key, front);
      InsertAscends(key, x, inner);
      forall y: T | y in xs ensures y in Insert(key, x, inner) {
        if key(y) == key(x) {
          var i :| 0 <= i < |xs| && xs[i] == y;
          assert xs[|xs| - 1] == x;
        } else {
          assert y in front && y in inner;
        }
      }
    }
  }

  lemma AscendingDetermines<T>(key: T -> string, xs: seq<T>)
    requires IsAscending(key, xs)
    ensures KeyDetermines(key, xs)
  {
    forall i, j | 0 <= i < |xs| && 0 <= j < |xs| && key(xs[i]) == key(xs[j]) ensures xs[i] == xs[j] {
      LessIrreflexive(key(xs[i]));
    }
  }

  lemma HeadIsNew<T>(key: T -> string, xs: seq<T>)
    requires xs != [] && IsAscending(key, xs)
    ensures xs[0] !in xs[1..]
  {
    LessIrreflexive(key(xs[0]));
    assert forall i :: 0 <= i < |xs[1..]| ==> xs[1..][i] == xs[i + 1];
  }

  lemma NonEmptyDiffers<T>(ys: seq<T>)
    requires ys != []
    ensures !SameElements([], ys)
  {
    assert ys[0] in ys;
  }

  /** Order-independence: an ascending sequence is determined by its set of elements. */
  lemma {:induction false} AscendingUnique<T>(key: T -> string, xs: seq<T>, ys: seq<T>)
    requires IsAscending(key, xs) && IsAscending(key, ys) && SameElements(xs, ys)
    ensures xs == ys
  {
    if xs == [] {
      if ys != [] { NonEmptyDiffers(ys); }
    } else {
      assert xs[0] in ys && (ys != [] ==> ys[0] in xs);
      var i :| 0 <= i < |ys| && ys[i] == xs[0];
      var j :| 0 <= j < |xs| && xs[j] == ys[0];
      if i > 0 && j > 0 { LessAsymmetric(key(ys[0]), key(xs[0])); }
      assert xs[0] == ys[0];
      HeadIsNew(key, xs);
      HeadIsNew(key, ys);
      forall y: T | y in xs[1..] ensures y in ys[1..] { assert y in ys; }
      forall y: T | y in ys[1..] ensures y in xs[1..] { assert y in xs; }
      assert xs == [xs[0]] + xs[1..] && ys == [ys[0]] + ys[1..];
      AscendingUnique(key, xs[1..], ys[1..]);
    }
  }

  /** Set semantics of the reference form: only the set of elements matters, and an
      ascending sequence is already in normal form. */
  lemma AscendSetSemantics<T>(key: T -> string, xs: seq<T>, ys: seq<T>)
    requires KeyDetermines(key, xs) && SameElements(xs, ys)
    ensures KeyDetermines(key, ys) && Ascend(key, xs) == Ascend(key, ys)
    ensures IsAscending(key, ys) ==> Ascend(key, xs) == ys
  {
    forall i, j | 0 <= i < |ys| && 0 <= j < |ys| && key(ys[i]) == key(ys[j]) ensures ys[i] == ys[j] {
      assert ys[i] in xs && ys[j] in xs;
    }
    AscendAscends(key, xs);
    AscendAscends(key, ys);
    AscendMembers(key, xs);
    AscendMembers(key, ys);
    AscendingUnique(key, Ascend(key, xs), Ascend(key, ys));
    if IsAscending(key, ys) { AscendingUnique(key, Ascend(key, ys), ys); }
  }

  lemma AscendIdentity<T>(key: T -> string, xs: seq<T>)
    requires IsAscending(key, xs)
    ensures Ascend(key, xs) == xs
  {
    AscendingDetermines(key, xs);
    AscendSetSemantics(key, xs, xs);
  }

  /** The reference form never has more elements than its input. */
  lemma {:induction false} AscendLength<T>(key: T -> string, xs: seq<T>)
    ensures |Ascend(key, xs)| <= |xs|
  {
    if xs != [] {
      AscendLength(key, xs[..|xs| - 1]);
      InsertLength(key, xs[|xs| - 1], Ascend(key, xs[..|xs| - 1]));
    }
  }

  lemma {:induction false} InsertLength<T>(key: T -> string, x: T, xs: seq<T>)
    ensures |xs| <= |Insert(key, x, xs)| <= |xs| + 1
  {
    if xs != [] { InsertLength(key, x, xs[1..]); }
  }

  function Identity(s: string): string { s }

  ghost predicate Sorted(xs: seq<string>) {
    forall i, j :: 0 <= i < j < |xs| ==> !Less(xs[j], xs[i])
  }

  /** `sort.Strings`: a sorted permutation of the argument. */
  method SortStrings(xs: seq<string>) returns (r: seq<string>)
    ensures multiset(r) == multiset(xs) && Sorted(r)
  {
    r := [];
    for n := 0 to |xs|
      invariant multiset(r) == multiset(xs[..n]) && Sorted(r)
    {
      r := Place(xs[n], r);
      assert xs[..n + 1] == xs[..n] + [xs[n]];
    }
    assert xs[..|xs|] == xs;
  }

  method Place(x: string, xs: seq<string>) returns (r: seq<string>)
    requires Sorted(xs)
    ensures multiset(r) == multiset(xs) + multiset{x} && Sorted(r)
  {
    var k := |xs|;
    while k > 0 && Less(x, xs[k - 1])
      invariant 0 <= k <= |xs|
      invariant forall i :: k <= i < |xs| ==> Less(x, xs[i])
    {
      k := k - 1;
    }
    PlaceSorts(x, xs, k);
    hide Sorted, Less;
    r := xs[..k] + [x] + xs[k..];
    assert xs == xs[..k] + xs[k..];
  }

  lemma PlaceSorts(x: string, xs: seq<string>, k: nat)
    requires Sorted(xs) && k <= |xs|
    requires forall i :: k <= i < |xs| ==> Less(x, xs[i])
    requires k > 0 ==> !Less(x, xs[k - 1])
    ensures Sorted(xs[..k] + [x] + xs[k..])
  {
    forall i | k <= i < |xs| ensures !Less(xs[i], x) { LessAsymmetric(x, xs[i]); }
    forall i | 0 <= i < k ensures !Less(x, xs[i]) {
      if i < k - 1 && Less(x, xs[i]) {
        LessTotal(xs[i], xs[k - 1]);
        if xs[i] != xs[k - 1] { LessTransitive(x, xs[i], xs[k - 1]); }
      }
    }
    hide Less;
  }

  ghost predicate Distinct<T>(xs: seq<T>) {
    forall i, j :: 0 <= i < j < |xs| ==> xs[i] != xs[j]
  }

  /** Reads the keys of a map in an arbitrary order, as ranging over a Go map does. */
  method CollectKeys<T>(unique: map<string, T>) returns (keys: seq<string>)
    ensures Distinct(keys)
    ensures forall k :: k in keys <==> k in unique
  {
    var rest := unique.Keys;
    keys := [];
    while rest != {}
      invariant rest <= unique.Keys
      invariant forall k :: k in keys ==> k in unique && k !in rest
      invariant forall k :: k in unique ==> k in rest || k in keys
      invariant Distinct(keys)
      decreases |rest|
    {
      var k :| k in rest;
      keys, rest := keys + [k], rest - {k};
    }
  }

  /** Collects the keys of a map in an arbitrary order, sorts them and reads the values
      back: the second half of every set normaliser in the source. */
  method CollectSorted<T>(ghost key: T -> string, unique: map<string, T>) returns (r: seq<T>)
    requires forall k :: k in unique ==> key(unique[k]) == k
    ensures IsAscending(key, r)
    ensures forall k :: k in unique ==> unique[k] in r
    ensures forall x :: x in r ==> key(x) in unique && unique[key(x)] == x
  {
    var keys := CollectKeys(unique);
    var sorted := SortStrings(keys);
    SortedDistinct(keys, sorted);
    SameMembers(keys, sorted);
    hide Less;
    r := [];
    for n := 0 to |sorted|
      invariant |r| == n
      invariant forall i :: 0 <= i < n ==> sorted[i] in unique && r[i] == unique[sorted[i]]
    {
      r := r + [unique[sorted[n]]];
    }
    forall k | k in unique ensures unique[k] in r {
      var i :| 0 <= i < |sorted| && sorted[i] == k;
      assert r[i] == unique[k];
    }
  }

  /** The map route and the reference form agree. */
  lemma SortedIsAscend<T>(key: T -> string, xs: seq<T>, sorted: seq<T>, unique: map<string, T>)
    requires KeyDetermines(key, xs) && IsAscending(key, sorted)
    requires forall i :: 0 <= i < |xs| ==> key(xs[i]) in unique
    requires forall k :: k in unique ==> key(unique[k]) == k && unique[k] in xs
    requires forall k :: k in unique ==> unique[k] in sorted
    requires forall x :: x in sorted ==> key(x) in unique && unique[key(x)] == x
    ensures sorted == Ascend(key, xs)
  {
    hide IsAscending, Ascend;
    forall x: T | x in xs ensures x in sorted {
      var i :| 0 <= i < |xs| && xs[i] == x;
      var y := unique[key(x)];
      var j :| 0 <= j < |xs| && xs[j] == y;
    }
    AscendSetSemantics(key, xs, sorted);
  }

  lemma SameMembers(xs: seq<string>, ys: seq<string>)
    requires multiset(xs) == multiset(ys)
    ensures forall x :: x in xs <==> x in ys
  {
    assert forall x :: x in xs <==> x in multiset(xs);
    assert forall y :: y in ys <==> y in multiset(ys);
  }

  lemma SortedDistinct(keys: seq<string>, sorted: seq<string>)
    requires Distinct(keys) && Sorted(sorted) && multiset(sorted) == multiset(keys)
    ensures forall i, j :: 0 <= i < j < |sorted| ==> Less(sorted[i], sorted[j])
  {
    forall i, j | 0 <= i < j < |sorted| ensures Less(sorted[i], sorted[j]) {
      LessTotal(sorted[i], sorted[j]);
      if sorted[i] == sorted[j] {
        TwiceInMultiset(sorted, i, j);
        OnceInMultiset(keys, sorted[i]);
      }
    }
  }

  lemma TwiceInMultiset(xs: seq<string>, i: nat, j: nat)
    requires i < j < |xs| && xs[i] == xs[j]
    ensures multiset(xs)[xs[i]] >= 2
  {
    assert xs == xs[..i] + [xs[i]] + xs[i + 1..j] + [xs[j]] + xs[j + 1..];
  }

  lemma {:induction false} OnceInMultiset(xs: seq<string>, x: string)
    requires Distinct(xs)
    ensures multiset(xs)[x] <= 1
  {
    if xs != [] {
      OnceInMultiset(xs[1..], x);
      assert xs == [xs[0]] + xs[1..];
      if x == xs[0] { assert forall y :: y in xs[1..] ==> y != x; }
    }
  }
}
