/** Strings as sequences of Unicode scalar values, with the white-space trimming, ASCII
    upper-casing, UTF-8 byte lengths and the ordering that every normaliser relies on. */
module Text {

  /** The white-space scalars that `strings.TrimSpace` removes. */
  predicate IsSpace(c: char) {
    var n := c as int;
    || 0x09 <= n <= 0x0D || n == 0x20 || n == 0x85 || n == 0xA0 || n == 0x1680
    || 0x2000 <= n <= 0x200A || n == 0x2028 || n == 0x2029 || n == 0x202F || n == 0x205F
    || n == 0x3000
  }

  predicate Trimmed(s: string) {
    s != "" ==> !IsSpace(s[0]) && !IsSpace(s[|s| - 1])
  }

  function TrimLeft(s: string): (r: string)
    ensures r != "" ==> !IsSpace(r[0])
    ensures s != "" && !IsSpace(s[0]) ==> r == s
    ensures |r| <= |s| && s[|s| - |r|..] == r
  {
    if s != "" && IsSpace(s[0]) then TrimLeft(s[1..]) else s
  }

  function TrimRight(s: string): (r: string)
    ensures r != "" ==> !IsSpace(r[|r| - 1])
    ensures s != "" && !IsSpace(s[|s| - 1]) ==> r == s
    ensures r <= s
  {
    if s != "" && IsSpace(s[|s| - 1]) then TrimRight(s[..|s| - 1]) else s
  }

  /** `strings.TrimSpace`: the result has no white space at either end, and trimming a
      trimmed string changes nothing. `TrimSplits` says what was removed. */
  function Trim(s: string): (r: string)
    ensures Trimmed(r)
    ensures Trimmed(s) ==> r == s
  {
    TrimRight(TrimLeft(s))
  }

  predicate AllSpace(s: string) {
    forall i :: 0 <= i < |s| ==> IsSpace(s[i])
  }

  lemma {:induction false} TrimLeftSplits(s: string)
    ensures AllSpace(s[..|s| - |TrimLeft(s)|])
  {
    if s != "" && IsSpace(s[0]) {
      TrimLeftSplits(s[1..]);
      var k := |s[1..]| - |TrimLeft(s[1..])|;
      assert s[..k + 1] == [s[0]] + s[1..][..k];
    }
  }

  lemma {:induction false} TrimRightSplits(s: string)
    ensures AllSpace(s[|TrimRight(s)|..])
  {
    if s != "" && IsSpace(s[|s| - 1]) {
      var t := s[..|s| - 1];
      TrimRightSplits(t);
      assert s[|TrimRight(t)|..] == t[|TrimRight(t)|..] + [s[|s| - 1]];
    }
  }

  /** Trimming removes exactly one run of white space at each end and nothing else. */
  lemma TrimSplits(s: string) returns (left: string, right: string)
    ensures s == left + Trim(s) + right
    ensures AllSpace(left) && AllSpace(right)
  {
    hide IsSpace, TrimLeft, TrimRight, AllSpace, Trimmed;
    var inner := TrimLeft(s);
    var core := TrimRight(inner);
    left, right := s[..|s| - |inner|], inner[|core|..];
    TrimLeftSplits(s);
    TrimRightSplits(inner);
    assert s == left + inner;
    assert inner == core + right;
    assert left + inner == left + core + right;
  }

  lemma {:induction false} TrimRightKeepsHead(s: string)
    requires s != "" && !IsSpace(s[0])
    ensures TrimRight(s) != ""
  {
    if IsSpace(s[|s| - 1]) { TrimRightKeepsHead(s[..|s| - 1]); }
  }

  /** A string that starts with a visible character is not blank. */
  lemma NonBlank(s: string)
    requires s != "" && !IsSpace(s[0])
    ensures Trim(s) != ""
  {
    hide TrimRight;
    TrimRightKeepsHead(s);
  }

  function UpperChar(c: char): char {
    if 'a' <= c <= 'z' then (c as int - 32) as char else c
  }

  /** `strings.ToUpper` on ASCII letters. It is idempotent and keeps trimmed strings trimmed. */
  function Upper(s: string): (r: string)
    ensures |r| == |s|
    ensures forall i :: 0 <= i < |s| ==> r[i] == UpperChar(s[i])
    ensures Trimmed(s) ==> Trimmed(r)
  {
    seq(|s|, i requires 0 <= i < |s| => UpperChar(s[i]))
  }

  lemma UpperIdempotent(s: string)
    ensures Upper(Upper(s)) == Upper(s)
  {
    assert forall i :: 0 <= i < |s| ==> Upper(Upper(s))[i] == Upper(s)[i];
  }

  const LOWER := "abcdefghijklmnopqrstuvwxyz"
  const UPPER := "ABCDEFGHIJKLMNOPQRSTUVWXYZ"

  /** Each lower-case letter becomes its capital. */
  lemma UpperLetter(k: nat)
    requires k < 26
    ensures UpperChar(LOWER[k]) == UPPER[k]
  {
    assert LOWER[k] as int == 'a' as int + k && UPPER[k] as int == 'A' as int + k;
  }

  /** No other character changes. */
  lemma UpperOther(c: char)
    requires UpperChar(c) != c
    ensures c in LOWER
  {
    assert LOWER[c as int - 'a' as int] == c;
  }

  /** UTF-8 width of one scalar. */
  function Width(c: char): (w: nat)
    ensures 1 <= w <= 4
  {
    var n := c as int;
    if n < 0x80 then 1 else if n < 0x800 then 2 else if n < 0x10000 then 3 else 4
  }

  /** `len(value)` in the source: the number of UTF-8 bytes. */
  function ByteLen(s: string): (n: nat)
    ensures |s| <= n <= 4 * |s|
  {
    if s == "" then 0 else Width(s[0]) + ByteLen(s[1..])
  }

  /** Go's string order. On valid UTF-8 the byte order and the scalar order agree. */
  predicate Less(a: string, b: string)
    decreases |a|
  {
    b != "" && (a == "" || a[0] < b[0] || (a[0] == b[0] && Less(a[1..], b[1..])))
  }

  lemma {:induction false} LessIrreflexive(a: string)
    ensures !Less(a, a)
    decreases |a|
  {
    if a != "" { LessIrreflexive(a[1..]); }
  }

  lemma {:induction false} LessTransitive(a: string, b: string, c: string)
    requires Less(a, b) && Less(b, c)
    ensures Less(a, c)
    decreases |a|
  {
    if a != "" && a[0] == b[0] == c[0] { LessTransitive(a[1..], b[1..], c[1..]); }
  }

  lemma {:induction false} LessTotal(a: string, b: string)
    ensures a == b || Less(a, b) || Less(b, a)
    decreases |a|
  {
    if a != "" && b != "" && a[0] == b[0] {
      LessTotal(a[1..], b[1..]);
      assert a == [a[0]] + a[1..] && b == [b[0]] + b[1..];
    }
  }

  lemma LessAsymmetric(a: string, b: string)
    requires Less(a, b)
    ensures !Less(b, a) && a != b
  {
    LessIrreflexive(a);
    if Less(b, a) { LessTransitive(a, b, a); }
  }

  const NUL: char := '\0'

  /** The composite map key of the source: type name, NUL, identifier. */
  function JoinKey(typ: string, id: string): string {
    typ + [NUL] + id
  }

  /** Lexicographic order on (type, identifier) pairs. */
  predicate PairLess(t1: string, i1: string, t2: string, i2: string) {
    Less(t1, t2) || (t1 == t2 && Less(i1, i2))
  }

  /** Joined-key lemma: while type names contain no NUL, ordering by the joined key is
      exactly the lexicographic order on pairs, and the key determines the pair. */
  lemma {:induction false} JoinKeyOrder(t1: string, i1: string, t2: string, i2: string)
    requires NUL !in t1 && NUL !in t2
    ensures Less(JoinKey(t1, i1), JoinKey(t2, i2)) <==> PairLess(t1, i1, t2, i2)
    ensures JoinKey(t1, i1) == JoinKey(t2, i2) <==> t1 == t2 && i1 == i2
    decreases |t1|
  {
    var k1, k2 := JoinKey(t1, i1), JoinKey(t2, i2);
    if t1 == "" && t2 == "" {
      assert k1[1..] == i1 && k2[1..] == i2;
    } else if t1 == "" {
      assert k1[0] == NUL && k2[0] == t2[0];
      assert t2[0] in t2;
    } else if t2 == "" {
      assert k2[0] == NUL && k1[0] == t1[0];
      assert t1[0] in t1;
    } else {
      assert k1[1..] == JoinKey(t1[1..], i1) && k2[1..] == JoinKey(t2[1..], i2);
      JoinKeyOrder(t1[1..], i1, t2[1..], i2);
      assert t1 == [t1[0]] + t1[1..] && t2 == [t2[0]] + t2[1..];
      assert k1 == [t1[0]] + k1[1..] && k2 == [t2[0]] + k2[1..];
    }
  }

  /** SQL `length(trim(s)) > 0`: `trim` drops spaces only and `length` stops at a NUL. */
  predicate SqlNonBlank(s: string) {
    s != "" && s[0] != NUL && (s[0] == ' ' ==> SqlNonBlank(s[1..]))
  }
}
