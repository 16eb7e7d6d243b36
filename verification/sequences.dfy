/** Order-preserving selection from a sequence, shared by the filters of the model. */
module Sequences {

  /** `idx` picks, in increasing positions of `s`, exactly the elements of `sub`. */
  predicate IsEmbedding<T(==)>(idx: seq<nat>, sub: seq<T>, s: seq<T>) {
    && |idx| == |sub|
    && (forall k :: 0 <= k < |idx| ==> idx[k] < |s| && sub[k] == s[idx[k]])
    && (forall k, l :: 0 <= k < l < |idx| ==> idx[k] < idx[l])
  }

  /** `sub` is `s` with some elements deleted and the rest kept in order. */
  ghost predicate IsSubsequence<T>(sub: seq<T>, s: seq<T>) {
    exists idx :: IsEmbedding(idx, sub, s)
  }

  /** Extending both sides by a kept element, or `s` by a dropped one, keeps an embedding. */
  lemma ExtendEmbedding<T>(idx: seq<nat>, sub: seq<T>, s: seq<T>, x: T, kept: bool)
    requires IsEmbedding(idx, sub, s)
    ensures kept ==> IsEmbedding(idx + [|s|], sub + [x], s + [x])
    ensures !kept ==> IsEmbedding(idx, sub, s + [x])
  {
  }

  /** An embedding cannot pick more elements than there are. */
  lemma {:induction false} EmbeddingLength<T>(idx: seq<nat>, sub: seq<T>, s: seq<T>)
    requires IsEmbedding(idx, sub, s)
    ensures |sub| <= |s|
  {
    if |idx| > 0 {
      IndexAtLeastPosition(idx, sub, s, |idx| - 1);
    }
  }

  lemma {:induction false} IndexAtLeastPosition<T>(idx: seq<nat>, sub: seq<T>, s: seq<T>, k: nat)
    requires IsEmbedding(idx, sub, s) && k < |idx|
    ensures k <= idx[k]
  {
    if k > 0 {
      IndexAtLeastPosition(idx, sub, s, k - 1);
    }
  }
}
