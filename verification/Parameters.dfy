/** Action parameters: scope tokens, string sets and the three parameter variants. */
module Parameters {
  import opened Ascending
  import opened Principals
  import opened Results
  import opened Text

  const EXTERNAL_SEND := "EXTERNAL_SEND"
  const UPDATE_RESOURCE_ACCESS := "UPDATE_RESOURCE_ACCESS"
  const DELETE := "DELETE"

  predicate ValidActionType(typ: string) {
    typ == EXTERNAL_SEND || typ == UPDATE_RESOURCE_ACCESS || typ == DELETE
  }

  lemma ActionTypesDiffer()
    ensures EXTERNAL_SEND != UPDATE_RESOURCE_ACCESS && EXTERNAL_SEND != DELETE && UPDATE_RESOURCE_ACCESS != DELETE
  {
    assert EXTERNAL_SEND[0] == 'E' && UPDATE_RESOURCE_ACCESS[0] == 'U' && DELETE[0] == 'D';
  }

  const INTERNAL := "INTERNAL"
  const EXTERNAL := "EXTERNAL"
  const PRIVATE := "PRIVATE"
  const SHARED := "SHARED"
  const WORKSPACE := "WORKSPACE"
  const PUBLIC := "PUBLIC"
  const SOFT := "SOFT"
  const HARD := "HARD"

  // ---------------------------------------------------------------- tokens

  /** A trimmed token without lower-case letters. */
  predicate NormalToken(s: string) {
    s != "" && Trimmed(s) && Upper(s) == s
  }

  function Token(value: string): (r: string)
    ensures r != "" ==> NormalToken(r)
    ensures NormalToken(value) ==> r == value
  {
    UpperIdempotent(Trim(value));
    Upper(Trim(value))
  }

  lemma UpperFixed(s: string)
    requires forall i :: 0 <= i < |s| ==> !('a' <= s[i] <= 'z')
    ensures Upper(s) == s
  {
  }

  lemma TokenLiterals()
    ensures NormalToken(INTERNAL) && NormalToken(EXTERNAL) && NormalToken(SOFT) && NormalToken(HARD)
  {
    UpperFixed(INTERNAL);
    UpperFixed(EXTERNAL);
    UpperFixed(SOFT);
    UpperFixed(HARD);
  }

  predicate ValidDestination(s: string) { s == INTERNAL || s == EXTERNAL }

  function ParseDestinationScope(value: string): (r: Result<string>)
    ensures r.Ok? ==> ValidDestination(r.value)
    ensures ValidDestination(value) ==> r == Ok(value)
  {
    TokenLiterals();
    var scope := Token(value);
    if ValidDestination(scope) then Ok(scope) else Err(InvalidArgument)
  }

  predicate ValidDeleteMode(s: string) { s == SOFT || s == HARD }

  function ParseDeleteMode(value: string): (r: Result<string>)
    ensures r.Ok? ==> ValidDeleteMode(r.value)
    ensures ValidDeleteMode(value) ==> r == Ok(value)
  {
    TokenLiterals();
    var mode := Token(value);
    if ValidDeleteMode(mode) then Ok(mode) else Err(InvalidArgument)
  }

  predicate NormalAccessScope(s: string) { NormalToken(s) && ByteLen(s) <= 128 }

  function ParseAccessScope(value: string): (r: Result<string>)
    ensures r.Ok? ==> NormalAccessScope(r.value)
    ensures NormalAccessScope(value) ==> r == Ok(value)
  {
    var scope := Token(value);
    if scope == "" || ByteLen(scope) > 128 then Err(InvalidArgument) else Ok(scope)
  }

  // ---------------------------------------------------------------- string sets

  function TrimAll(values: seq<string>): (r: seq<string>)
    ensures |r| == |values|
    ensures forall i :: 0 <= i < |values| ==> r[i] == Trim(values[i])
  {
    seq(|values|, i requires 0 <= i < |values| => Trim(values[i]))
  }

  predicate AllItemsFit(values: seq<string>, maxLength: nat) {
    forall i :: 0 <= i < |values| ==> Trim(values[i]) != "" && ByteLen(Trim(values[i])) <= maxLength
  }

  /** What `normalizeStrings` computes, as one expression. */
  function NormalStrings(values: seq<string>, maxItems: nat, maxLength: nat): Result<seq<string>> {
    if |values| > maxItems || !AllItemsFit(values, maxLength) then Err(InvalidArgument)
    else Ok(Ascend(Identity, TrimAll(values)))
  }

  ghost predicate NormalStringSet(xs: seq<string>, maxItems: nat, maxLength: nat) {
    && |xs| <= maxItems
    && IsAscending(Identity, xs)
    && forall i :: 0 <= i < |xs| ==> xs[i] != "" && Trimmed(xs[i]) && ByteLen(xs[i]) <= maxLength
  }

  lemma StringsDetermine(xs: seq<string>)
    ensures KeyDetermines(Identity, xs)
  {
  }

  /** Set semantics of recipients and labels: exactly the trimmed inputs, strictly ascending,
      without duplicates; and a set in that form is returned unchanged. */
  lemma StringSetSemantics(values: seq<string>, maxItems: nat, maxLength: nat)
    ensures NormalStrings(values, maxItems, maxLength).Ok? ==>
              var r := NormalStrings(values, maxItems, maxLength).value;
              NormalStringSet(r, maxItems, maxLength) && SameElements(r, TrimAll(values))
              && (r == [] <==> values == [])
    ensures NormalStringSet(values, maxItems, maxLength) ==>
              NormalStrings(values, maxItems, maxLength) == Ok(values)
  {
    hide Less, Trim, ByteLen, IsAscending, Ascend, Trimmed;
    var trimmed := TrimAll(values);
    StringsDetermine(trimmed);
    AscendAscends(Identity, trimmed);
    AscendMembers(Identity, trimmed);
    AscendLength(Identity, trimmed);
    if NormalStrings(values, maxItems, maxLength).Ok? {
      var r := Ascend(Identity, trimmed);
      forall i | 0 <= i < |r| ensures r[i] != "" && Trimmed(r[i]) && ByteLen(r[i]) <= maxLength {
        assert r[i] in trimmed;
      }
      if values != [] { assert trimmed[0] in r; }
    }
    if NormalStringSet(values, maxItems, maxLength) {
      assert trimmed == values;
      AscendIdentity(Identity, values);
    }
  }

  /** Order and repetition do not matter, within the count limit. */
  lemma StringOrderIrrelevant(xs: seq<string>, ys: seq<string>, maxItems: nat, maxLength: nat)
    requires SameElements(TrimAll(xs), TrimAll(ys)) && |xs| <= maxItems && |ys| <= maxItems
    ensures NormalStrings(xs, maxItems, maxLength) == NormalStrings(ys, maxItems, maxLength)
  {
    hide Trim, ByteLen, Ascend;
    var tx, ty := TrimAll(xs), TrimAll(ys);
    assert forall i :: 0 <= i < |ys| ==> ty[i] in tx;
    assert forall i :: 0 <= i < |xs| ==> tx[i] in ty;
    assert AllItemsFit(xs, maxLength) <==> forall i :: 0 <= i < |tx| ==> tx[i] != "" && ByteLen(tx[i]) <= maxLength;
    assert AllItemsFit(ys, maxLength) <==> forall i :: 0 <= i < |ty| ==> ty[i] != "" && ByteLen(ty[i]) <= maxLength;
    StringsDetermine(tx);
    AscendSetSemantics(Identity, tx, ty);
  }

  /** `normalizeStrings`: a set filled in a loop, its members collected and sorted. */
  method NormalizeStrings(values: seq<string>, maxItems: nat, maxLength: nat) returns (r: Result<seq<string>>)
    ensures r == NormalStrings(values, maxItems, maxLength)
  {
    hide Less, Trim, ByteLen, Ascend, IsAscending, KeyDetermines, Trimmed;
    if |values| > maxItems {
      return Err(InvalidArgument);
    }
    ghost var trimmed := TrimAll(values);
    var unique: map<string, string> := map[];
    for n := 0 to |values|
      invariant AllItemsFit(values[..n], maxLength)
      invariant forall i :: 0 <= i < n ==> trimmed[i] in unique
      invariant forall k :: k in unique ==> Identity(unique[k]) == k && unique[k] in trimmed
    {
      var value := Trim(values[n]);
      if value == "" || ByteLen(value) > maxLength {
        assert !AllItemsFit(values, maxLength);
        return Err(InvalidArgument);
      }
      assert trimmed[n] == value;
      unique := unique[value := value];
      assert values[..n + 1] == values[..n] + [values[n]];
    }
    assert values[..|values|] == values;
    var sorted := CollectSorted(Identity, unique);
    r := Ok(sorted);
    StringsDetermine(trimmed);
    SortedIsAscend(Identity, trimmed, sorted, unique);
  }

  // ---------------------------------------------------------------- the three variants

  datatype Parameters =
    | ExternalSend(destinationScope: string, recipients: seq<string>)
    | UpdateAccess(currentScope: string, requestedScope: string, targetPrincipals: seq<Principal>)
    | Delete(mode: string, recoverable: bool)

  function ActionTypeOf(p: Parameters): string {
    match p
    case ExternalSend(_, _) => EXTERNAL_SEND
    case UpdateAccess(_, _, _) => UPDATE_RESOURCE_ACCESS
    case Delete(_, _) => DELETE
  }

  function NewExternalSend(scope: string, recipients: seq<string>): Result<Parameters> {
    var scope :- ParseDestinationScope(scope);
    var recipients :- NormalStrings(recipients, 100, 320);
    if recipients == [] then Err(InvalidArgument) else Ok(ExternalSend(scope, recipients))
  }

  function NewUpdateAccess(current: string, requested: string, principals: seq<Principal>): Result<Parameters> {
    var current :- ParseAccessScope(current);
    var requested :- ParseAccessScope(requested);
    if current == requested then Err(InvalidArgument)
    else
      var principals :- NormalPrincipals(principals);
      if requested == SHARED && principals == [] then Err(InvalidArgument)
      else Ok(UpdateAccess(current, requested, principals))
  }

  function NewDelete(mode: string, recoverable: bool): Result<Parameters> {
    var mode :- ParseDeleteMode(mode);
    Ok(Delete(mode, recoverable))
  }

  /** The constructor that matches the variant, applied to the variant's own fields. */
  function Rebuild(p: Parameters): Result<Parameters> {
    match p
    case ExternalSend(scope, recipients) => NewExternalSend(scope, recipients)
    case UpdateAccess(current, requested, principals) => NewUpdateAccess(current, requested, principals)
    case Delete(mode, recoverable) => NewDelete(mode, recoverable)
  }

  ghost predicate NormalPrincipalSet(xs: seq<Principal>) {
    && |xs| <= MAX_PRINCIPALS
    && IsAscending(PrincipalKey, xs)
    && forall i :: 0 <= i < |xs| ==> NormalPrincipal(xs[i])
  }

  ghost predicate NormalParameters(p: Parameters) {
    match p
    case ExternalSend(scope, recipients) =>
      ValidDestination(scope) && recipients != [] && NormalStringSet(recipients, 100, 320)
    case UpdateAccess(current, requested, principals) =>
      && NormalAccessScope(current) && NormalAccessScope(requested) && current != requested
      && NormalPrincipalSet(principals) && (requested == SHARED ==> principals != [])
    case Delete(mode, _) => ValidDeleteMode(mode)
  }

  lemma NormalPrincipalsValid(xs: seq<Principal>)
    requires forall i :: 0 <= i < |xs| ==> NormalPrincipal(xs[i])
    ensures |xs| <= MAX_PRINCIPALS ==> NormalPrincipals(xs) == Ok(Ascend(PrincipalKey, xs))
  {
    hide Ascend, Trim, ByteLen, ValidPrincipalType;
    assert forall i :: 0 <= i < |xs| ==> NormalPrincipal(xs[i]) && Trim(xs[i].id) == xs[i].id;
  }

  lemma PrincipalSetNormal(xs: seq<Principal>)
    requires forall i :: 0 <= i < |xs| ==> NormalPrincipal(xs[i])
    ensures |xs| <= MAX_PRINCIPALS ==> NormalPrincipalSet(Ascend(PrincipalKey, xs))
    ensures NormalPrincipalSet(xs) ==> Ascend(PrincipalKey, xs) == xs
  {
    hide IsAscending, Ascend, NormalPrincipal, NormalPrincipals;
    if |xs| <= MAX_PRINCIPALS {
      NormalPrincipalsValid(xs);
      PrincipalSetSemantics(xs);
      var r := Ascend(PrincipalKey, xs);
      forall i | 0 <= i < |r| ensures NormalPrincipal(r[i]) { assert r[i] in xs; }
      if NormalPrincipalSet(xs) { AscendIdentity(PrincipalKey, xs); }
    }
  }

  /** A parameter constructor given normal principals only ever produces normal parameters. */
  lemma NewParametersNormal(p: Parameters)
    requires p.UpdateAccess? ==> forall i :: 0 <= i < |p.targetPrincipals| ==> NormalPrincipal(p.targetPrincipals[i])
    ensures Rebuild(p).Ok? ==> NormalParameters(Rebuild(p).value) && ActionTypeOf(Rebuild(p).value) == ActionTypeOf(p)
  {
    hide NormalStringSet, NormalPrincipalSet, NormalPrincipals, NormalStrings, NormalPrincipal, Ascend;
    hide ParseAccessScope, ParseDestinationScope, ParseDeleteMode, NormalAccessScope, ValidDestination, ValidDeleteMode;
    match p
    case ExternalSend(scope, recipients) => StringSetSemantics(recipients, 100, 320);
    case UpdateAccess(current, requested, principals) =>
      NormalPrincipalsValid(principals);
      PrincipalSetNormal(principals);
      if |principals| > MAX_PRINCIPALS { TooManyPrincipals(principals); }
    case Delete(_, _) =>
  }

  lemma TooManyPrincipals(xs: seq<Principal>)
    requires |xs| > MAX_PRINCIPALS
    ensures NormalPrincipals(xs).Err?
  {
  }

  /** Idempotence: rebuilding normal parameters is the identity. */
  lemma RebuildIdentity(p: Parameters)
    requires NormalParameters(p)
    ensures Rebuild(p) == Ok(p)
  {
    hide NormalStringSet, NormalPrincipals, NormalStrings, NormalPrincipal, IsAscending, Ascend;
    match p
    case ExternalSend(scope, recipients) => StringSetSemantics(recipients, 100, 320);
    case UpdateAccess(_, _, principals) =>
      NormalPrincipalsValid(principals);
      PrincipalSetNormal(principals);
    case Delete(_, _) =>
  }
}
