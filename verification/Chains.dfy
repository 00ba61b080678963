/** Properties handed on along a run, link by link. */
module Chains {

  /** If each place hands on what it has exactly when its link holds, all places have it exactly when all links hold. */
  lemma {:induction false} Chain(has: seq<bool>, links: seq<bool>, n: nat)
    requires n < |has| && n <= |links| && has[0]
    requires forall k | 0 <= k < n && has[k] :: has[k + 1] == links[k]
    ensures (forall k | 0 <= k <= n :: has[k]) <==> forall k | 0 <= k < n :: links[k]
  {
    if n > 0 {
      Chain(has, links, n - 1);
      assert (forall k | 0 <= k <= n - 1 :: has[k]) ==> has[n - 1] && has[n] == links[n - 1];
    }
  }
}
