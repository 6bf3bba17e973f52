/** Small value types shared by the models. */
module Prelude {
  datatype Option<+T> = None | Some(value: T)

  /** A digest of a Kubernetes object's content. The constructor is injective by construction,
      which is how the models express that `hash.Hash` is treated as collision free. */
  datatype Digest<+T> = Digest(content: T)

  /** What a reconcile phase hands back to the loop that runs the phases. */
  datatype Outcome =
    | Proceed                 // zero result, nil error: the next phase runs
    | RequeueAfter(delay: nat) // non-zero result: the pass ends here (delay in seconds; 0 is an immediate requeue)
    | SkipPhase               // ErrSkipReconciliationPhase or NotFound: the phase ends, the loop continues
    | Failed                  // any other error: the pass ends here

  /** The StatefulSet indices of `n` replicas. */
  function IndicesBelow(n: nat): (s: set<nat>)
    ensures forall i: nat :: i in s <==> i < n
    ensures |s| == n
  {
    if n == 0 then {} else IndicesBelow(n - 1) + {n - 1}
  }
}
