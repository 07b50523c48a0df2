/** Identifiers, principals, delegations and targets. */
module Principals {
  import opened Ascending
  import opened Results
  import opened Text

  const MAX_IDENTIFIER := 256

  predicate NormalIdentifier(s: string) {
    s != "" && Trimmed(s) && ByteLen(s) <= MAX_IDENTIFIER
  }

  /** Required identifiers come out trimmed, non-empty and short enough; an identifier
      already in that form is returned unchanged, and every blank one is refused. */
  function RequiredIdentifier(value: string): (r: Result<string>)
    ensures r.Ok? ==> NormalIdentifier(r.value)
    ensures NormalIdentifier(value) ==> r == Ok(value)
  {
    var id := Trim(value);
    if id == "" || ByteLen(id) > MAX_IDENTIFIER then Err(InvalidArgument) else Ok(id)
  }

  function OptionalIdentifier(value: string): (r: Result<string>)
    ensures r.Ok? ==> r.value == "" || NormalIdentifier(r.value)
    ensures value == "" || NormalIdentifier(value) ==> r == Ok(value)
  {
    var id := Trim(value);
    if ByteLen(id) > MAX_IDENTIFIER then Err(InvalidArgument) else Ok(id)
  }

  datatype Principal = Principal(typ: string, id: string)

  const USER := "USER"
  const AGENT := "AGENT"
  const RUNTIME := "RUNTIME"
  const SERVICE := "SERVICE"

  predicate ValidPrincipalType(typ: string) {
    typ == USER || typ == AGENT || typ == RUNTIME || typ == SERVICE
  }

  function NewPrincipal(typ: string, id: string): (r: Result<Principal>)
    ensures r.Ok? ==> NormalPrincipal(r.value)
    ensures NormalPrincipal(Principal(typ, id)) ==> r == Ok(Principal(typ, id))
  {
    if !ValidPrincipalType(typ) then Err(InvalidPrincipalType)
    else
      var id :- RequiredIdentifier(id);
      Ok(Principal(typ, id))
  }

  predicate PrincipalValid(p: Principal) {
    ValidPrincipalType(p.typ) && Trim(p.id) != ""
  }

  predicate NormalPrincipal(p: Principal) {
    ValidPrincipalType(p.typ) && NormalIdentifier(p.id)
  }

  datatype Delegation = Delegation(id: string, delegator: Principal)

  function NewDelegation(id: string, delegator: Principal): (r: Result<Delegation>)
    ensures r.Ok? && NormalPrincipal(delegator) ==> NormalDelegation(r.value)
    ensures NormalDelegation(Delegation(id, delegator)) ==> r == Ok(Delegation(id, delegator))
  {
    var id :- RequiredIdentifier(id);
    if !PrincipalValid(delegator) then Err(InvalidArgument) else Ok(Delegation(id, delegator))
  }

  predicate DelegationValid(d: Delegation) { Trim(d.id) != "" && PrincipalValid(d.delegator) }

  predicate NormalDelegation(d: Delegation) { NormalIdentifier(d.id) && NormalPrincipal(d.delegator) }

  datatype Target = Target(resourceType: string, resourceId: string)

  function NewTarget(resourceType: string, resourceId: string): (r: Result<Target>)
    ensures r.Ok? ==> NormalTarget(r.value)
    ensures NormalTarget(Target(resourceType, resourceId)) ==> r == Ok(Target(resourceType, resourceId))
  {
    var typ := Trim(resourceType);
    if typ == "" || ByteLen(typ) > 128 then Err(InvalidArgument)
    else
      var id :- RequiredIdentifier(resourceId);
      Ok(Target(typ, id))
  }

  predicate TargetValid(t: Target) { Trim(t.resourceType) != "" && Trim(t.resourceId) != "" }

  predicate NormalTarget(t: Target) {
    && t.resourceType != "" && Trimmed(t.resourceType) && ByteLen(t.resourceType) <= 128
    && NormalIdentifier(t.resourceId)
  }

  // ---------------------------------------------------------------- principal sets

  const MAX_PRINCIPALS := 100

  function PrincipalKey(p: Principal): string { JoinKey(p.typ, p.id) }

  predicate AllPrincipalsValid(values: seq<Principal>) {
    forall i :: 0 <= i < |values| ==> PrincipalValid(values[i])
  }

  /** What `normalizePrincipals` computes, as one expression. */
  function NormalPrincipals(values: seq<Principal>): Result<seq<Principal>> {
    if |values| > MAX_PRINCIPALS || !AllPrincipalsValid(values) then Err(InvalidArgument)
    else Ok(Ascend(PrincipalKey, values))
  }

  lemma PrincipalTypesHaveNoNul(typ: string)
    requires ValidPrincipalType(typ)
    ensures NUL !in typ
  {
  }

  lemma PrincipalKeysDetermine(values: seq<Principal>)
    requires AllPrincipalsValid(values)
    ensures KeyDetermines(PrincipalKey, values)
  {
    forall i, j | 0 <= i < |values| && 0 <= j < |values| && PrincipalKey(values[i]) == PrincipalKey(values[j])
      ensures values[i] == values[j]
    {
      PrincipalTypesHaveNoNul(values[i].typ);
      PrincipalTypesHaveNoNul(values[j].typ);
      JoinKeyOrder(values[i].typ, values[i].id, values[j].typ, values[j].id);
    }
  }

  /** Set semantics of the target principals: the result holds exactly the given principals,
      strictly ascending by type and then identifier. */
  lemma PrincipalSetSemantics(values: seq<Principal>)
    requires NormalPrincipals(values).Ok?
    ensures var r := NormalPrincipals(values).value;
            && SameElements(r, values) && |r| <= |values|
            && IsAscending(PrincipalKey, r)
            && forall i, j :: 0 <= i < j < |r| ==> PairLess(r[i].typ, r[i].id, r[j].typ, r[j].id)
  {
    hide Less, ValidPrincipalType, Ascend;
    var r := NormalPrincipals(values).value;
    PrincipalKeysDetermine(values);
    AscendAscends(PrincipalKey, values);
    AscendMembers(PrincipalKey, values);
    AscendLength(PrincipalKey, values);
    forall i, j | 0 <= i < j < |r| ensures PairLess(r[i].typ, r[i].id, r[j].typ, r[j].id) {
      assert r[i] in values && r[j] in values;
      PrincipalTypesHaveNoNul(r[i].typ);
      PrincipalTypesHaveNoNul(r[j].typ);
      JoinKeyOrder(r[i].typ, r[i].id, r[j].typ, r[j].id);
    }
  }

  /** Order and repetition do not matter, within the count limit. */
  lemma PrincipalOrderIrrelevant(xs: seq<Principal>, ys: seq<Principal>)
    requires SameElements(xs, ys) && |xs| <= MAX_PRINCIPALS && |ys| <= MAX_PRINCIPALS
    ensures NormalPrincipals(xs) == NormalPrincipals(ys)
  {
    hide PrincipalValid, Ascend;
    assert AllPrincipalsValid(xs) <==> AllPrincipalsValid(ys) by {
      assert forall i :: 0 <= i < |ys| ==> ys[i] in xs;
      assert forall i :: 0 <= i < |xs| ==> xs[i] in ys;
    }
    if AllPrincipalsValid(xs) {
      PrincipalKeysDetermine(xs);
      AscendSetSemantics(PrincipalKey, xs, ys);
    }
  }

  /** `normalizePrincipals`: a map filled in a loop, its keys sorted, its values read back. */
  method NormalizePrincipals(values: seq<Principal>) returns (r: Result<seq<Principal>>)
    ensures r == NormalPrincipals(values)
  {
    hide PrincipalValid, Less, Ascend, JoinKey, IsAscending, KeyDetermines;
    if |values| > MAX_PRINCIPALS {
      return Err(InvalidArgument);
    }
    var unique: map<string, Principal> := map[];
    for n := 0 to |values|
      invariant forall i :: 0 <= i < n ==> PrincipalValid(values[i])
      invariant forall i :: 0 <= i < n ==> PrincipalKey(values[i]) in unique
      invariant forall k :: k in unique ==> PrincipalKey(unique[k]) == k && unique[k] in values[..n]
    {
      if !PrincipalValid(values[n]) {
        return Err(InvalidArgument);
      }
      unique := unique[PrincipalKey(values[n]) := values[n]];
      assert values[..n + 1] == values[..n] + [values[n]];
    }
    assert values[..|values|] == values;
    var sorted := CollectSorted(PrincipalKey, unique);
    r := Ok(sorted);
    PrincipalKeysDetermine(values);
    SortedIsAscend(PrincipalKey, values, sorted, unique);
  }
}
