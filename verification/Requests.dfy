/** What the service makes of a raw call: when it is accepted at all, and under which key, with
    which action and which digest it goes on. */
module Requests {
  import opened Actions
  import opened Canonical
  import opened CanonicalForm
  import opened Ledger
  import opened Normalizer
  import opened RawInput
  import opened Service
  import opened Text

  /** A call is accepted exactly when both identifiers hold 1 to 256 bytes between their outer
      spaces and the action is acceptable under that runtime. It goes on under the identifiers
      without outer spaces, with the action the input means, and with the SHA-256 sum of that
      action's canonical text as its digest. */
  lemma PrepareExactly(sha: Hash, call: Call)
    ensures Prepare(sha, call).Ok? <==>
              && Identifies(call.runtimeId) && Identifies(call.requestId)
              && Acceptable(Trim(call.runtimeId), call.input)
    ensures Prepare(sha, call).Ok? ==>
              var p := Prepare(sha, call).value;
              && p.key == Key(Trim(call.runtimeId), Trim(call.requestId))
              && Means(Trim(call.runtimeId), call.input, p.action)
              && p.digest == "sha256:" + HexText(sha(ActionText(p.action)))
  {
    hide Normalize, Acceptable, Means, ComputeDigest, PreparedOk, NormalAction, Trim, ByteLen, ActionText, Trimmed;
    PrepareSound(sha, call);
    if NewAuthenticatedRuntime(call.runtimeId).Ok? {
      NormalizeExactly(Trim(call.runtimeId), call.input);
      if Prepare(sha, call).Ok? {
        RequestParts(sha, Prepare(sha, call).value);
        CanonicalTextExactly(sha, Prepare(sha, call).value.action);
      }
    }
  }
}
