/**
 * Semantic search with relevance thresholding (query.py): the store is
 * asked for `top_k` nearest candidates (twice as many when reranking is
 * on), the candidates are dropped altogether when even the best one is
 * below the absolute floor `min_relevance`, and otherwise only those within
 * 0.15 of the best score (and above the floor) are kept, optionally
 * re-sorted by an embedding similarity to the query.
 *
 * The vector store is the function `rank`: `rank(q)` is every stored point
 * in the store's order of decreasing similarity to `q`, so that a request
 * with limit `n` answers `rank(q)[:n]`. The embedding similarity
 * (embedding both texts and taking their cosine) is the function
 * `similarity`.
 */
module Query {
  import opened Candidates
  import opened Sorting

  /** How far below the best score a candidate may fall and still be kept. */
  const Margin: real := 0.15

  /** `top_k * 2 if rerank else top_k`: the limit passed to the store. */
  function RequestLimit(topK: nat, rerank: bool): (r: nat)
    ensures r >= topK
    ensures rerank ==> r == 2 * topK
    ensures !rerank ==> r == topK
  {
    if rerank then topK * 2 else topK
  }

  /** `client.query_points(..., limit=limit).points` */
  function QueryPoints(rank: string -> seq<Candidate>, query: string, limit: nat): (r: seq<Candidate>)
    ensures |r| <= limit && |r| <= |rank(query)|
    ensures r == rank(query)[..|r|]
  {
    Take(rank(query), limit)
  }

  /** `max(min_relevance, max_score - 0.15)` */
  function Threshold(maxScore: real, minRelevance: real): (t: real)
    ensures t >= minRelevance && t >= maxScore - Margin
    ensures t == minRelevance || t == maxScore - Margin
  {
    if maxScore - Margin > minRelevance then maxScore - Margin else minRelevance
  }

  /** `[r for r in results if r.score >= threshold]` */
  function Above(results: seq<Candidate>, threshold: real): (r: seq<Candidate>)
    ensures |r| <= |results|
    decreases |results|
  {
    if results == [] then []
    else (if results[0].score >= threshold then [results[0]] else []) + Above(results[1..], threshold)
  }

  /** The kept candidates are exactly those reaching the threshold. */
  lemma {:induction false} AboveMembers(results: seq<Candidate>, threshold: real)
    ensures forall c :: c in Above(results, threshold) <==> c in results && c.score >= threshold
    decreases |results|
  {
    if results != [] {
      AboveMembers(results[1..], threshold);
      assert results == [results[0]] + results[1..];
    }
  }

  /**
   * The candidates `search` keeps before the optional re-sort: none when
   * the store returned none or when the best score is below the floor,
   * otherwise those at or above the dynamic threshold, in store order.
   */
  function RelevanceFilter(results: seq<Candidate>, minRelevance: real): (r: seq<Candidate>)
    ensures |r| <= |results|
    ensures results == [] || MaxScore(results) < minRelevance ==> r == []
  {
    if results == [] then []
    else
      var maxScore := MaxScore(results);
      if maxScore < minRelevance then [] else Above(results, Threshold(maxScore, minRelevance))
  }

  /**
   * Past the floor, the filter keeps exactly the candidates whose score
   * reaches the threshold.
   */
  lemma FilterExact(results: seq<Candidate>, minRelevance: real)
    requires results != [] && MaxScore(results) >= minRelevance
    ensures forall c :: c in RelevanceFilter(results, minRelevance) <==>
      c in results && c.score >= Threshold(MaxScore(results), minRelevance)
  {
    AboveMembers(results, Threshold(MaxScore(results), minRelevance));
  }

  /**
   * Every kept candidate is at or above the floor and within the margin of
   * the best score.
   */
  lemma FilterBounds(results: seq<Candidate>, minRelevance: real)
    requires results != []
    ensures forall c :: c in RelevanceFilter(results, minRelevance) ==>
      c in results && c.score >= minRelevance && c.score >= MaxScore(results) - Margin
  {
    AboveMembers(results, Threshold(MaxScore(results), minRelevance));
  }

  /**
   * When the best score reaches the floor, the best candidate passes the
   * filter, so the result is not empty: the "no results above threshold"
   * branch of `search` is never taken.
   */
  lemma {:induction false} FilterKeepsTop(results: seq<Candidate>, minRelevance: real)
    requires results != [] && MaxScore(results) >= minRelevance
    ensures RelevanceFilter(results, minRelevance) != []
    ensures forall i :: 0 <= i < |results| && results[i].score == MaxScore(results) ==>
      results[i] in RelevanceFilter(results, minRelevance)
  {
    var m := MaxScore(results);
    var i :| 0 <= i < |results| && results[i].score == m;
    assert m >= Threshold(m, minRelevance);
    assert results[i] in results;
    AboveMembers(results, Threshold(m, minRelevance));
  }

  function Point(id: string, score: real): Candidate {
    Candidate(id, score, None, None, None)
  }

  /** Scores 0.9, 0.8, 0.76, 0.7, 0.3 with floor 0.5: the threshold is 0.75 and the first three pass. */
  lemma FilterExample(s: seq<Candidate>)
    requires s == [Point("a", 0.9), Point("b", 0.8), Point("c", 0.76), Point("d", 0.7), Point("e", 0.3)]
    ensures RelevanceFilter(s, 0.5) == s[..3]
  {
    var m := MaxScore(s);
    assert m == 0.9 by {
      assert s[0].score == 0.9;
      var i :| 0 <= i < |s| && s[i].score == m;
    }
    assert Threshold(m, 0.5) == 0.75;
    AbovePrefix(s, 0.75, 3);
  }

  /**
   * When the candidates reaching the threshold are exactly the first `k`,
   * the filter keeps exactly those, in order.
   */
  lemma {:induction false} AbovePrefix(results: seq<Candidate>, threshold: real, k: int)
    requires 0 <= k <= |results|
    requires forall i :: 0 <= i < k ==> results[i].score >= threshold
    requires forall i :: k <= i < |results| ==> results[i].score < threshold
    ensures Above(results, threshold) == results[..k]
    decreases |results|
  {
    if results != [] {
      var tail := results[1..];
      if k == 0 {
        AbovePrefix(tail, threshold, 0);
      } else {
        AbovePrefix(tail, threshold, k - 1);
        assert results[..k] == [results[0]] + tail[..k - 1];
      }
    }
  }

  /** The similarity of a candidate's text to the query: the re-sort key. */
  function SimilarityTo(similarity: (string, string) -> real, query: string): Candidate -> real {
    c => similarity(query, TextOf(c))
  }

  /** `x[1]`: the key of a `(point, similarity)` pair. */
  function SimScore(p: (Candidate, real)): real {
    p.1
  }

  /** `r` of a pair `(r, _)`. */
  function SimPoint(p: (Candidate, real)): Candidate {
    p.0
  }

  /**
   * `rerank_results`: pairs each candidate with its similarity to the
   * query, sorts the pairs by similarity (stable, descending) and keeps the
   * candidates. The result is the stable descending sort of the input by
   * similarity: the same candidates, in non-increasing similarity order.
   */
  method RerankResults(query: string, results: seq<Candidate>, similarity: (string, string) -> real)
    returns (r: seq<Candidate>)
    ensures r == SortDesc(results, SimilarityTo(similarity, query))
    ensures multiset(r) == multiset(results)
    ensures Descending(r, SimilarityTo(similarity, query))
  {
    var rescored: seq<(Candidate, real)> := [];
    for i := 0 to |results|
      invariant |rescored| == i
      invariant forall j {:trigger rescored[j]} :: 0 <= j < i ==>
        rescored[j] == (results[j], similarity(query, TextOf(results[j])))
    {
      var docText := TextOf(results[i]);
      var sim := similarity(query, docText);
      rescored := rescored + [(results[i], sim)];
    }
    var key := SimilarityTo(similarity, query);
    assert forall p :: p in rescored ==> SimScore(p) == key(SimPoint(p));
    assert MapSeq(SimPoint, rescored) == results;
    SortMap(rescored, SimPoint, SimScore, key);
    r := MapSeq(SimPoint, SortDesc(rescored, SimScore));
    SortDescSpec(results, key);
  }

  /**
   * `search`: `rank` stands for the store's nearest-neighbour ranking of
   * the embedded query. The result is the relevance filter of the first
   * `RequestLimit` candidates, re-sorted by similarity when `rerank` is on;
   * it is empty exactly when the store returned nothing or the best score
   * is below the floor.
   */
  method Search(query: string, topK: nat, rerank: bool, minRelevance: real,
                rank: string -> seq<Candidate>, similarity: (string, string) -> real)
    returns (r: seq<Candidate>)
    ensures var results := QueryPoints(rank, query, RequestLimit(topK, rerank));
      && r == (if rerank then SortDesc(RelevanceFilter(results, minRelevance), SimilarityTo(similarity, query))
               else RelevanceFilter(results, minRelevance))
      && (r == [] <==> results == [] || MaxScore(results) < minRelevance)
    ensures |r| <= RequestLimit(topK, rerank)
    ensures forall c :: c in r ==> c in rank(query) && c.score >= minRelevance
  {
    var results := QueryPoints(rank, query, RequestLimit(topK, rerank));
    if results == [] {
      return [];
    }
    var maxScore := MaxScore(results);
    if maxScore < minRelevance {
      return [];
    }
    var threshold := Threshold(maxScore, minRelevance);
    var filtered := Above(results, threshold);
    FilterKeepsTop(results, minRelevance);
    FilterBounds(results, minRelevance);
    assert forall c :: c in filtered ==> c in rank(query);
    if rerank {
      filtered := RerankResults(query, filtered, similarity);
      assert forall c :: c in filtered ==> c in multiset(filtered);
    }
    // The best candidate always passes, so `filtered` is never empty here.
    assert filtered != [];
    r := filtered;
  }
}
