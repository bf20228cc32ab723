/** The orchestration of `search/hybrid.py`: keyword hits and semantic hits are merged
    without repeating a keyword hit, the reranker orders the merged list, and at most
    `limit` results (and always one when there is a candidate) are returned. */
module Hybrid {
  import Rerank

  /** `SearchResult(doc_id, score, source)`: the score `1.0 - rank * 0.01` is kept as its rank. */
  datatype SearchResult = SearchResult(docId: string, rank: nat, source: string)

  const SOURCE := "hybrid"

  /** `[h for h in hits if h not in seen]` */
  function Unseen(hits: seq<string>, seen: seq<string>): (r: seq<string>)
    ensures |r| <= |hits|
    ensures forall x :: x in r <==> x in hits && x !in seen
    decreases |hits|
  {
    if hits == [] then []
    else (if hits[0] in seen then [] else [hits[0]]) + Unseen(hits[1..], seen)
  }

  /** `keyword_hits + [h for h in semantic_hits if h not in keyword_hits]` */
  function Merge(keywordHits: seq<string>, semanticHits: seq<string>): (combined: seq<string>)
    ensures |combined| >= |keywordHits| && combined[..|keywordHits|] == keywordHits
    ensures forall x :: x in combined <==> x in keywordHits || x in semanticHits
  {
    keywordHits + Unseen(semanticHits, keywordHits)
  }

  predicate NoDuplicates(xs: seq<string>) {
    forall i, j :: 0 <= i < j < |xs| ==> xs[i] != xs[j]
  }

  /** The filter keeps the order of the hits it keeps, so it adds no duplicate. */
  lemma {:induction false} UnseenNoDuplicates(hits: seq<string>, seen: seq<string>)
    requires NoDuplicates(hits)
    ensures NoDuplicates(Unseen(hits, seen))
    decreases |hits|
  {
    if hits != [] {
      UnseenNoDuplicates(hits[1..], seen);
      var rest := Unseen(hits[1..], seen);
      forall k | 0 <= k < |hits| - 1 ensures hits[1..][k] != hits[0] {
        assert hits[1..][k] == hits[k + 1];
      }
      assert hits[0] !in hits[1..];
    }
  }

  /** Merging adds no duplicates: nothing in the semantic part repeats a keyword hit. */
  lemma MergeNoDuplicates(keywordHits: seq<string>, semanticHits: seq<string>)
    requires NoDuplicates(keywordHits) && NoDuplicates(semanticHits)
    ensures NoDuplicates(Merge(keywordHits, semanticHits))
  {
    var tail := Unseen(semanticHits, keywordHits);
    UnseenNoDuplicates(semanticHits, keywordHits);
    var c := keywordHits + tail;
    forall i, j | 0 <= i < j < |c| ensures c[i] != c[j] {
      if j >= |keywordHits| && i < |keywordHits| {
        assert c[j] in tail && c[i] in keywordHits;
      } else if i >= |keywordHits| {
        assert c[i] == tail[i - |keywordHits|] && c[j] == tail[j - |keywordHits|];
      }
    }
  }

  /** The filter of one hit keeps it exactly when it is not seen. */
  lemma UnseenOne(x: string, seen: seq<string>)
    ensures Unseen([x], seen) == if x in seen then [] else [x]
  {
    assert [x][1..] == [];
  }

  /** The filter works piece by piece, so the hits it keeps stay in their order and
      keep their repeats. */
  lemma {:induction false} UnseenConcat(a: seq<string>, b: seq<string>, seen: seq<string>)
    ensures Unseen(a + b, seen) == Unseen(a, seen) + Unseen(b, seen)
    decreases |a|
  {
    if a == [] {
      assert a + b == b;
    } else {
      assert (a + b)[0] == a[0];
      assert (a + b)[1..] == a[1..] + b;
      UnseenConcat(a[1..], b, seen);
    }
  }

  /** Every unseen hit is kept as often as it occurs, and a seen one never. */
  lemma {:induction false} UnseenCounts(hits: seq<string>, seen: seq<string>, x: string)
    ensures multiset(Unseen(hits, seen))[x] == if x in seen then 0 else multiset(hits)[x]
    decreases |hits|
  {
    if hits != [] {
      UnseenCounts(hits[1..], seen, x);
      assert hits == [hits[0]] + hits[1..];
      assert multiset(hits) == multiset([hits[0]]) + multiset(hits[1..]);
    }
  }

  /** When no semantic hit is a keyword hit, all of them are kept, in their own order. */
  lemma {:induction false} UnseenAllNew(hits: seq<string>, seen: seq<string>)
    requires forall x :: x in hits ==> x !in seen
    ensures Unseen(hits, seen) == hits
    decreases |hits|
  {
    if hits != [] {
      assert hits[0] in hits;
      UnseenAllNew(hits[1..], seen);
      assert [hits[0]] + hits[1..] == hits;
    }
  }

  /** The number of results: all candidates, but no more than `limit`, and at least one
      candidate even for a limit below one, since the limit is checked after the append. */
  function ResultCount(candidates: nat, limit: int): (n: nat)
    ensures n <= candidates && (limit >= 1 ==> n <= limit) && n <= if limit < 1 then 1 else limit
    ensures candidates > 0 ==> n > 0
  {
    var cap := if limit < 1 then 1 else limit;
    if candidates < cap then candidates else cap
  }

  /** `hybrid_search`, its keyword and semantic hits given. */
  method HybridSearch(query: string, keywordHits: seq<string>, semanticHits: seq<string>, limit: int)
    returns (results: seq<SearchResult>)
    ensures var combined := Merge(keywordHits, semanticHits);
      var order := Rerank.RerankOrder(query, combined);
      |results| == ResultCount(|combined|, limit) &&
      forall i :: 0 <= i < |results| ==>
        results[i] == SearchResult(combined[order[i]], i, SOURCE)
  {
    var combined := keywordHits + Unseen(semanticHits, keywordHits);
    var order := Rerank.RerankOrder(query, combined);
    results := [];
    var rank := 0;
    while rank < |order|
      invariant rank <= |order| && |results| == rank
      invariant rank < |order| ==> rank < ResultCount(|combined|, limit) || rank == 0
      invariant forall i :: 0 <= i < rank ==> results[i] == SearchResult(combined[order[i]], i, SOURCE)
      invariant rank <= ResultCount(|combined|, limit)
    {
      var docId := combined[order[rank]];
      results := results + [SearchResult(docId, rank, SOURCE)];
      rank := rank + 1;
      if |results| >= limit {
        break;
      }
    }
  }

  /** The results name the merged hits in the reranked order, here the merged order itself. */
  lemma ResultsFollowMerge(query: string, keywordHits: seq<string>, semanticHits: seq<string>, i: nat)
    requires i < |Merge(keywordHits, semanticHits)|
    ensures var combined := Merge(keywordHits, semanticHits);
      combined[Rerank.RerankOrder(query, combined)[i]] == combined[i]
  {
  }

  /** With the semantic phase returning nothing, as it does for now, the candidates are the
      keyword hits. */
  lemma NoSemanticHits(keywordHits: seq<string>)
    ensures Merge(keywordHits, []) == keywordHits
  {
  }
}
