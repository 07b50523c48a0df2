/** Authorization scopes and evidence, and the evidence set normaliser. */
module Evidence {
  import opened Ascending
  import opened Parameters
  import opened Principals
  import opened Results
  import opened Text

  const USER_INSTRUCTION := "USER_INSTRUCTION"
  const DELEGATION_GRANT := "DELEGATION_GRANT"
  const SYSTEM_ASSERTION := "SYSTEM_ASSERTION"

  predicate ValidEvidenceType(typ: string) {
    typ == USER_INSTRUCTION || typ == DELEGATION_GRANT || typ == SYSTEM_ASSERTION
  }

  lemma EvidenceTypeLiterals()
    ensures NormalToken(USER_INSTRUCTION) && NormalToken(DELEGATION_GRANT) && NormalToken(SYSTEM_ASSERTION)
  {
    UpperFixed(USER_INSTRUCTION);
    UpperFixed(DELEGATION_GRANT);
    UpperFixed(SYSTEM_ASSERTION);
  }

  function ParseEvidenceType(value: string): (r: Result<string>)
    ensures r.Ok? ==> ValidEvidenceType(r.value)
    ensures ValidEvidenceType(value) ==> r == Ok(value)
  {
    EvidenceTypeLiterals();
    var typ := Token(value);
    if ValidEvidenceType(typ) then Ok(typ) else Err(InvalidArgument)
  }

  /** The scope binds evidence to one action type and its one sensitive dimension; the
      dimensions of the other action types stay empty. */
  datatype Scope = Scope(actionType: string, destinationScope: string, requestedScope: string, deleteMode: string)

  function NewScope(actionType: string, destination: string, requested: string, mode: string): (r: Result<Scope>)
    ensures r.Ok? ==> NormalScope(r.value) && r.value.actionType == actionType
    ensures NormalScope(Scope(actionType, destination, requested, mode)) ==>
              r == Ok(Scope(actionType, destination, requested, mode))
  {
    if actionType == EXTERNAL_SEND then
      var destination :- ParseDestinationScope(destination);
      Ok(Scope(actionType, destination, "", ""))
    else if actionType == UPDATE_RESOURCE_ACCESS then
      var requested :- ParseAccessScope(requested);
      Ok(Scope(actionType, "", requested, ""))
    else if actionType == DELETE then
      var mode :- ParseDeleteMode(mode);
      Ok(Scope(actionType, "", "", mode))
    else Err(InvalidActionType)
  }

  predicate NormalScope(s: Scope) {
    if s.actionType == EXTERNAL_SEND then
      ValidDestination(s.destinationScope) && s.requestedScope == "" && s.deleteMode == ""
    else if s.actionType == UPDATE_RESOURCE_ACCESS then
      NormalAccessScope(s.requestedScope) && s.destinationScope == "" && s.deleteMode == ""
    else
      && s.actionType == DELETE
      && ValidDeleteMode(s.deleteMode) && s.destinationScope == "" && s.requestedScope == ""
  }

  predicate ScopeValid(s: Scope) {
    NewScope(s.actionType, s.destinationScope, s.requestedScope, s.deleteMode).Ok?
  }

  datatype Evidence = Evidence(typ: string, id: string, issuedBy: Principal, scope: Scope)

  function NewEvidence(typ: string, id: string, issuedBy: Principal, scope: Scope): (r: Result<Evidence>)
    ensures r.Ok? && NormalPrincipal(issuedBy) && NormalScope(scope) ==> NormalEvidence(r.value)
    ensures NormalEvidence(Evidence(typ, id, issuedBy, scope)) ==> r == Ok(Evidence(typ, id, issuedBy, scope))
  {
    var typ :- ParseEvidenceType(typ);
    var id :- RequiredIdentifier(id);
    if !PrincipalValid(issuedBy) || !ScopeValid(scope) then Err(InvalidArgument)
    else Ok(Evidence(typ, id, issuedBy, scope))
  }

  predicate NormalEvidence(e: Evidence) {
    && ValidEvidenceType(e.typ) && NormalIdentifier(e.id)
    && NormalPrincipal(e.issuedBy) && NormalScope(e.scope)
  }

  predicate EvidenceValid(e: Evidence) {
    NewEvidence(e.typ, e.id, e.issuedBy, e.scope).Ok?
  }

  // ---------------------------------------------------------------- evidence sets

  const MAX_EVIDENCE := 100

  function EvidenceKey(e: Evidence): string { JoinKey(e.typ, e.id) }

  predicate AllEvidenceValid(values: seq<Evidence>) {
    forall i :: 0 <= i < |values| ==> EvidenceValid(values[i])
  }

  /** Two items share type and identifier but differ in issuer or scope. */
  predicate ConflictingReuse(values: seq<Evidence>) {
    exists i, j :: 0 <= i < |values| && 0 <= j < |values|
      && values[i].typ == values[j].typ && values[i].id == values[j].id && values[i] != values[j]
  }

  function NormalEvidenceSet(values: seq<Evidence>): Result<seq<Evidence>> {
    if |values| > MAX_EVIDENCE || !AllEvidenceValid(values) || ConflictingReuse(values) then Err(InvalidArgument)
    else Ok(Ascend(EvidenceKey, values))
  }

  /** Neither trimming nor upper-casing can remove a NUL. */
  lemma NulSurvives(s: string)
    requires NUL in s
    ensures NUL in Token(s)
  {
    var left, right := TrimSplits(s);
    hide Trim, Trimmed;
    var core := Trim(s);
    assert NUL in core;
    var i :| 0 <= i < |core| && core[i] == NUL;
    assert Upper(core)[i] == NUL;
  }

  /** Evidence that passes validation has a type without NUL, even before normalisation. */
  lemma EvidenceTypeHasNoNul(e: Evidence)
    requires EvidenceValid(e)
    ensures NUL !in e.typ
  {
    assert ValidEvidenceType(Token(e.typ));
    hide Token, ValidEvidenceType, NewEvidence;
    EvidenceTypeNames(Token(e.typ));
    if NUL in e.typ { NulSurvives(e.typ); }
  }

  lemma EvidenceTypeNames(typ: string)
    requires ValidEvidenceType(typ)
    ensures NUL !in typ
  {
  }

  lemma EvidenceKeys(a: Evidence, b: Evidence)
    requires EvidenceValid(a) && EvidenceValid(b)
    ensures EvidenceKey(a) == EvidenceKey(b) <==> a.typ == b.typ && a.id == b.id
    ensures Less(EvidenceKey(a), EvidenceKey(b)) <==> PairLess(a.typ, a.id, b.typ, b.id)
  {
    hide EvidenceValid;
    EvidenceTypeHasNoNul(a);
    EvidenceTypeHasNoNul(b);
    JoinKeyOrder(a.typ, a.id, b.typ, b.id);
  }

  /** On valid evidence, "the key determines the item" is the absence of conflicting reuse. */
  lemma EvidenceKeysDetermine(values: seq<Evidence>)
    requires AllEvidenceValid(values)
    ensures KeyDetermines(EvidenceKey, values) <==> !ConflictingReuse(values)
  {
    hide EvidenceValid, EvidenceKey;
    forall i, j | 0 <= i < |values| && 0 <= j < |values|
      ensures EvidenceKey(values[i]) == EvidenceKey(values[j]) <==>
              values[i].typ == values[j].typ && values[i].id == values[j].id
    {
      EvidenceKeys(values[i], values[j]);
    }
  }

  /** Set semantics of evidence: exactly the given items, strictly ascending by type and
      then identifier, so at most one item per (type, identifier). */
  lemma EvidenceSetSemantics(values: seq<Evidence>)
    requires NormalEvidenceSet(values).Ok?
    ensures var r := NormalEvidenceSet(values).value;
            && SameElements(r, values) && |r| <= |values|
            && IsAscending(EvidenceKey, r)
            && forall i, j :: 0 <= i < j < |r| ==> PairLess(r[i].typ, r[i].id, r[j].typ, r[j].id)
  {
    hide EvidenceValid, EvidenceKey, Less, Ascend, ConflictingReuse;
    var r := NormalEvidenceSet(values).value;
    EvidenceKeysDetermine(values);
    AscendAscends(EvidenceKey, values);
    AscendMembers(EvidenceKey, values);
    AscendLength(EvidenceKey, values);
    forall i, j | 0 <= i < j < |r| ensures PairLess(r[i].typ, r[i].id, r[j].typ, r[j].id) {
      assert r[i] in values && r[j] in values;
      EvidenceKeys(r[i], r[j]);
    }
  }

  /** Success, failure and the normal form depend only on the set of items, within the
      count limit. */
  lemma EvidenceOrderIrrelevant(xs: seq<Evidence>, ys: seq<Evidence>)
    requires SameElements(xs, ys) && |xs| <= MAX_EVIDENCE && |ys| <= MAX_EVIDENCE
    ensures NormalEvidenceSet(xs) == NormalEvidenceSet(ys)
  {
    hide EvidenceValid, EvidenceKey, Ascend, KeyDetermines;
    assert forall i :: 0 <= i < |ys| ==> ys[i] in xs;
    assert forall i :: 0 <= i < |xs| ==> xs[i] in ys;
    assert AllEvidenceValid(xs) <==> AllEvidenceValid(ys);
    if AllEvidenceValid(xs) {
      EvidenceKeysDetermine(xs);
      EvidenceKeysDetermine(ys);
      if !ConflictingReuse(xs) {
        AscendSetSemantics(EvidenceKey, xs, ys);
      } else if !ConflictingReuse(ys) {
        AscendSetSemantics(EvidenceKey, ys, xs);
      }
    }
  }

  /** `NormalizeAuthorizationEvidence`: fails exactly when there are more than 100 items,
      some item is invalid, or two items share (type, identifier) and differ; otherwise the
      ascending set of the items. */
  method NormalizeAuthorizationEvidence(values: seq<Evidence>) returns (r: Result<seq<Evidence>>)
    ensures r == NormalEvidenceSet(values)
    ensures r.Err? <==> |values| > MAX_EVIDENCE || !AllEvidenceValid(values) || ConflictingReuse(values)
  {
    hide EvidenceValid, EvidenceKey, Less, Ascend, IsAscending, KeyDetermines, ConflictingReuse;
    if |values| > MAX_EVIDENCE {
      return Err(InvalidArgument);
    }
    var unique: map<string, Evidence> := map[];
    for n := 0 to |values|
      invariant AllEvidenceValid(values[..n])
      invariant forall i :: 0 <= i < n ==>
          EvidenceKey(values[i]) in unique && unique[EvidenceKey(values[i])] == values[i]
      invariant forall k :: k in unique ==> EvidenceKey(unique[k]) == k && unique[k] in values[..n]
    {
      var evidence := values[n];
      if !EvidenceValid(evidence) {
        return Err(InvalidArgument);
      }
      var key := EvidenceKey(evidence);
      if key in unique && unique[key] != evidence {
        var other := unique[key];
        assert exists j :: 0 <= j < n && values[j] == other;
        var j :| 0 <= j < n && values[j] == other;
        ReuseFound(values, j, n);
        return Err(InvalidArgument);
      }
      unique := unique[key := evidence];
      assert values[..n + 1] == values[..n] + [values[n]];
    }
    assert values[..|values|] == values;
    NoReuse(values, unique);
    var sorted := CollectSorted(EvidenceKey, unique);
    r := Ok(sorted);
    EvidenceKeysDetermine(values);
    SortedIsAscend(EvidenceKey, values, sorted, unique);
  }

  lemma ReuseFound(values: seq<Evidence>, j: nat, n: nat)
    requires j < n < |values| && EvidenceValid(values[j]) && EvidenceValid(values[n])
    requires EvidenceKey(values[j]) == EvidenceKey(values[n]) && values[j] != values[n]
    ensures ConflictingReuse(values)
  {
    hide EvidenceValid, EvidenceKey;
    EvidenceKeys(values[j], values[n]);
  }

  lemma NoReuse(values: seq<Evidence>, unique: map<string, Evidence>)
    requires AllEvidenceValid(values)
    requires forall i :: 0 <= i < |values| ==>
        EvidenceKey(values[i]) in unique && unique[EvidenceKey(values[i])] == values[i]
    ensures !ConflictingReuse(values)
  {
    hide EvidenceValid, EvidenceKey;
    forall i, j | 0 <= i < |values| && 0 <= j < |values|
      && values[i].typ == values[j].typ && values[i].id == values[j].id
      ensures values[i] == values[j]
    {
      EvidenceKeys(values[i], values[j]);
    }
  }

  ghost predicate NormalEvidenceSeq(xs: seq<Evidence>) {
    && |xs| <= MAX_EVIDENCE
    && IsAscending(EvidenceKey, xs)
    && forall i :: 0 <= i < |xs| ==> NormalEvidence(xs[i])
  }

  lemma NormalEvidenceIsValid(e: Evidence)
    requires NormalEvidence(e)
    ensures EvidenceValid(e)
  {
    hide NormalEvidence;
  }

  /** Normalising a list of normal items gives a normal set; a normal set is a fixed point. */
  lemma EvidenceSetNormal(xs: seq<Evidence>)
    requires forall i :: 0 <= i < |xs| ==> NormalEvidence(xs[i])
    ensures NormalEvidenceSet(xs).Ok? ==> NormalEvidenceSeq(NormalEvidenceSet(xs).value)
    ensures NormalEvidenceSeq(xs) ==> NormalEvidenceSet(xs) == Ok(xs)
  {
    hide NormalEvidence, EvidenceValid, IsAscending, Ascend, ConflictingReuse, KeyDetermines;
    assert AllEvidenceValid(xs) by {
      forall i | 0 <= i < |xs| ensures EvidenceValid(xs[i]) { NormalEvidenceIsValid(xs[i]); }
    }
    if NormalEvidenceSet(xs).Ok? {
      EvidenceSetSemantics(xs);
      var r := NormalEvidenceSet(xs).value;
      forall i | 0 <= i < |r| ensures NormalEvidence(r[i]) { assert r[i] in xs; }
    }
    if NormalEvidenceSeq(xs) {
      AscendingDetermines(EvidenceKey, xs);
      EvidenceKeysDetermine(xs);
      AscendIdentity(EvidenceKey, xs);
    }
  }
}
