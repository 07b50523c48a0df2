/** Optional values and the error taxonomy shared by every layer. */
module Results {

  datatype Option<+T> = None | Some(value: T)

  /** The stable error classes of the domain and application packages. */
  datatype Error =
    // domain/errors.go
    | InvalidActionType
    | InvalidDecisionType
    | InvalidRequiredActionType
    | InvalidReasonCode
    | InvalidPrincipalType
    | InvalidDigest
    | InvalidArgument
    | InvariantViolation
    // application/errors.go and the normaliser's identity conflict
    | InvalidInput
    | RuntimeIdentityConflict
    | RequestIdConflict
    | PolicyUnavailable
    | LedgerFailure
    | EvaluationNotFound
    | IdGeneration
    | ClockFailure
    // text that cannot be decoded
    | Malformed

  datatype Result<+T> = Ok(value: T) | Err(error: Error) {
    predicate IsFailure() { Err? }

    function PropagateFailure<U>(): Result<U>
      requires Err?
    {
      Err(error)
    }

    function Extract(): T
      requires Ok?
    {
      value
    }
  }

  /** Applies a fallible conversion to every element and stops at the first failure. */
  function Traverse<A, B>(f: A -> Result<B>, xs: seq<A>): Result<seq<B>> {
    if xs == [] then Ok([])
    else
      var front :- Traverse(f, xs[..|xs| - 1]);
      var last :- f(xs[|xs| - 1]);
      Ok(front + [last])
  }

  /** It succeeds exactly when every element converts, and then converts elementwise. */
  lemma {:induction false} TraverseElements<A, B>(f: A -> Result<B>, xs: seq<A>)
    ensures Traverse(f, xs).Ok? <==> forall i :: 0 <= i < |xs| ==> f(xs[i]).Ok?
    ensures Traverse(f, xs).Ok? ==>
              && |Traverse(f, xs).value| == |xs|
              && forall i :: 0 <= i < |xs| ==> f(xs[i]) == Ok(Traverse(f, xs).value[i])
  {
    if xs != [] {
      var front := xs[..|xs| - 1];
      TraverseElements(f, front);
      assert forall i :: 0 <= i < |front| ==> front[i] == xs[i];
    }
  }

  lemma TraverseInverse<A, B>(f: A -> Result<B>, xs: seq<A>, ys: seq<B>)
    requires |xs| == |ys| && forall i :: 0 <= i < |xs| ==> f(xs[i]) == Ok(ys[i])
    ensures Traverse(f, xs) == Ok(ys)
  {
    hide Traverse;
    TraverseElements(f, xs);
    assert Traverse(f, xs).value == ys;
  }

  /** The append-or-return loops of the source. */
  method ConvertAll<A, B>(f: A -> Result<B>, xs: seq<A>) returns (r: Result<seq<B>>)
    ensures r == Traverse(f, xs)
  {
    var done: seq<B> := [];
    for n := 0 to |xs|
      invariant Traverse(f, xs[..n]) == Ok(done)
    {
      var item := f(xs[n]);
      assert xs[..n + 1][..n] == xs[..n];
      if item.Err? {
        assert f(xs[n]).Err?;
        TraverseElements(f, xs);
        TraverseFirstError(f, xs, n);
        return Err(item.error);
      }
      done := done + [item.value];
    }
    assert xs[..|xs|] == xs;
    r := Ok(done);
  }

  lemma {:induction false} TraverseFirstError<A, B>(f: A -> Result<B>, xs: seq<A>, n: nat)
    requires n < |xs| && Traverse(f, xs[..n]).Ok? && f(xs[n]).Err?
    ensures Traverse(f, xs) == Err(f(xs[n]).error)
    decreases |xs|
  {
    var front := xs[..|xs| - 1];
    if n == |xs| - 1 {
      assert front == xs[..n];
    } else {
      assert front[..n] == xs[..n];
      TraverseFirstError(f, front, n);
    }
  }
}
