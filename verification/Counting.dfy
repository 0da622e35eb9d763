/** Counting arguments: the size of an index set, injections and the pigeonhole principle. */
module Counting {

  function UpTo(n: nat): (r: set<nat>)
    ensures |r| == n
    ensures forall k: nat :: k in r <==> k < n
  {
    if n == 0 then {} else UpTo(n - 1) + {n - 1}
  }

  /** An injection of a set of indices into a set bounds its size. */
  lemma {:induction false} Injection<T>(indices: set<nat>, ids: seq<T>, target: set<T>)
    requires forall k :: k in indices ==> k < |ids| && ids[k] in target
    requires forall k, m :: k in indices && m in indices && k != m ==> ids[k] != ids[m]
    ensures |indices| <= |target|
    decreases |indices|
  {
    if indices != {} {
      var k :| k in indices;
      Injection(indices - {k}, ids, target - {ids[k]});
    }
  }

  /** Distinct numbers below `n` are at most `n` many. */
  lemma Pigeonhole(homes: seq<nat>, n: nat)
    requires forall g :: 0 <= g < |homes| ==> homes[g] < n
    requires forall g, h :: 0 <= g < h < |homes| ==> homes[g] != homes[h]
    ensures |homes| <= n
  {
    Injection(UpTo(|homes|), homes, UpTo(n));
  }
}
