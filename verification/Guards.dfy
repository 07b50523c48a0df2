/** Guarded definitions. A wide predicate is stated as `forall k {:trigger Opened(l, k)} ::
    Opened(l, k) ==> ...`, which is equivalent to its right-hand side; but a proof that only
    passes the predicate on never looks inside, and one that does says `assert Opened(l, 0)`. */
module Guards {

  datatype Guard = OfActions | OfCommits | OfRequests | OfTables | OfRuns

  predicate Opened(g: Guard, k: nat) { true }
}
