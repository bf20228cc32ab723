/** The reranker of `search/rerank.py`: a stand-in for model inference that keeps the
    candidates in their given order. */
module Rerank {

  /** The indices `0 .. n-1` each occur exactly once. */
  predicate IsPermutation(order: seq<int>, n: nat) {
    |order| == n &&
    (forall i :: 0 <= i < |order| ==> 0 <= order[i] < n) &&
    (forall i, j :: 0 <= i < j < |order| ==> order[i] != order[j])
  }

  /** `rerank(query, documents)`: `list(range(len(documents)))`. */
  function RerankOrder(query: string, documents: seq<string>): (order: seq<int>)
    ensures |order| == |documents|
    ensures forall i :: 0 <= i < |order| ==> order[i] == i
  {
    seq(|documents|, i requires 0 <= i < |documents| => i)
  }

  /** The order is a permutation of the candidate positions: every candidate is kept once. */
  lemma RerankIsPermutation(query: string, documents: seq<string>)
    ensures IsPermutation(RerankOrder(query, documents), |documents|)
    ensures forall k :: 0 <= k < |documents| ==> k in RerankOrder(query, documents)
  {
    var order := RerankOrder(query, documents);
    forall k | 0 <= k < |documents| ensures k in order {
      assert order[k] == k;
    }
  }

  /** The order depends on the number of candidates only: not on the query, nor on the
      texts; no candidates give no order. */
  lemma RerankIgnoresContent(q1: string, q2: string, d1: seq<string>, d2: seq<string>)
    requires |d1| == |d2|
    ensures RerankOrder(q1, d1) == RerankOrder(q2, d2)
    ensures RerankOrder(q1, []) == []
  {
  }
}
