/**
 * Weighted reranking of vector-store hits (rerank.py): min-max
 * normalisation of the store's scores, a case-insensitive lexical
 * similarity between the query and each hit's text, and the weighted sum
 * `alpha * vector + (1 - alpha) * lexical` by which the hits are re-sorted
 * and cut to `top_k`.
 */
module Rerank {
  import opened Candidates
  import opened Text
  import opened Sorting
  import opened Merge

  /**
   * What the model assumes of difflib's `SequenceMatcher(None, x, y).ratio()`:
   * a value in [0, 1] that is 1 for two equal non-empty strings.
   */
  ghost predicate IsRatio(ratio: (string, string) -> real) {
    && (forall x, y :: 0.0 <= ratio(x, y) <= 1.0)
    && (forall x :: x != [] ==> ratio(x, x) == 1.0)
  }

  /** `lexical_similarity(a, b)` */
  function LexicalSimilarity(a: string, b: string, ratio: (string, string) -> real): (r: real)
    ensures a == [] || b == [] ==> r == 0.0
    ensures IsRatio(ratio) ==> 0.0 <= r <= 1.0
  {
    if a == [] || b == [] then 0.0 else ratio(Lower(a), Lower(b))
  }

  /** The lexical score sees only the lower-cased arguments. */
  lemma LexicalCaseInsensitive(a: string, a': string, b: string, b': string, ratio: (string, string) -> real)
    requires Lower(a) == Lower(a') && Lower(b) == Lower(b')
    ensures LexicalSimilarity(a, b, ratio) == LexicalSimilarity(a', b', ratio)
  {
    assert |a| == |Lower(a)| == |a'| && |b| == |Lower(b)| == |b'|;
  }

  /** Two non-empty strings equal up to case have lexical score 1. */
  lemma LexicalIdentical(a: string, b: string, ratio: (string, string) -> real)
    requires IsRatio(ratio)
    requires a != [] && Lower(a) == Lower(b)
    ensures LexicalSimilarity(a, b, ratio) == 1.0
  {
    assert |b| == |Lower(b)| == |Lower(a)| == |a|;
    assert Lower(a) != [];
  }

  /** The set of ids of `hits`: the keys of `{h.id: ... for h in hits}`. */
  function IdSet(hits: seq<Candidate>): set<string> {
    set c | c in hits :: c.id
  }

  function Rescale(score: real, lo: real, hi: real): real
    requires lo < hi
  {
    (score - lo) / (hi - lo)
  }

  /** The dict `out` after the loop of normalize_scores has run over `hits`. */
  function RescaleAll(hits: seq<Candidate>, lo: real, hi: real): (m: map<string, real>)
    requires lo < hi
    ensures m.Keys == IdSet(hits)
    decreases |hits|
  {
    if hits == [] then map[]
    else
      var init, last := hits[..|hits| - 1], hits[|hits| - 1];
      assert hits == init + [last];
      RescaleAll(init, lo, hi)[last.id := Rescale(last.score, lo, hi)]
  }

  /** `normalize_scores(hits)`, as a value. */
  function NormalizedScores(hits: seq<Candidate>): (m: map<string, real>)
    ensures m.Keys == IdSet(hits)
    ensures hits == [] ==> m == map[]
  {
    if hits == [] then map[]
    else
      var lo, hi := MinScore(hits), MaxScore(hits);
      if lo == hi then map id | id in IdSet(hits) :: 1.0
      else RescaleAll(hits, lo, hi)
  }

  lemma RescaleRange(score: real, lo: real, hi: real)
    requires lo < hi && lo <= score <= hi
    ensures 0.0 <= Rescale(score, lo, hi) <= 1.0
  {
    var d, n := hi - lo, score - lo;
    assert 0.0 <= n <= d;
    assert n / d <= d / d;
  }

  lemma {:induction false} RescaleAllRange(hits: seq<Candidate>, lo: real, hi: real)
    requires lo < hi
    requires forall i :: 0 <= i < |hits| ==> lo <= hits[i].score <= hi
    ensures forall id :: id in RescaleAll(hits, lo, hi) ==> 0.0 <= RescaleAll(hits, lo, hi)[id] <= 1.0
    decreases |hits|
  {
    if hits != [] {
      var init, last := hits[..|hits| - 1], hits[|hits| - 1];
      RescaleAllRange(init, lo, hi);
      RescaleRange(last.score, lo, hi);
      var m := RescaleAll(init, lo, hi);
      assert RescaleAll(hits, lo, hi) == m[last.id := Rescale(last.score, lo, hi)];
    }
  }

  lemma {:induction false} RescaleAllLast(hits: seq<Candidate>, lo: real, hi: real, i: int)
    requires lo < hi && LastOf(hits, i)
    ensures RescaleAll(hits, lo, hi)[hits[i].id] == Rescale(hits[i].score, lo, hi)
    decreases |hits|
  {
    if i < |hits| - 1 {
      var init := hits[..|hits| - 1];
      assert LastOf(init, i);
      RescaleAllLast(init, lo, hi, i);
    }
  }

  /** Every normalised score lies in [0, 1]; a flat score distribution maps every id to 1. */
  lemma NormalizedRange(hits: seq<Candidate>)
    ensures forall id :: id in NormalizedScores(hits) ==> 0.0 <= NormalizedScores(hits)[id] <= 1.0
    ensures hits != [] && MinScore(hits) == MaxScore(hits) ==>
      forall id :: id in NormalizedScores(hits) ==> NormalizedScores(hits)[id] == 1.0
  {
    if hits != [] && MinScore(hits) < MaxScore(hits) {
      RescaleAllRange(hits, MinScore(hits), MaxScore(hits));
    }
  }

  /**
   * When the scores are not all equal, an id's value is the min-max rescaling
   * of the score of its last hit (the dict keeps the last write): so the hit
   * with the maximum score maps to 1 and the one with the minimum to 0.
   */
  lemma NormalizedValue(hits: seq<Candidate>, i: int)
    requires LastOf(hits, i) && MinScore(hits) < MaxScore(hits)
    ensures NormalizedScores(hits)[hits[i].id] == Rescale(hits[i].score, MinScore(hits), MaxScore(hits))
    ensures hits[i].score == MaxScore(hits) ==> NormalizedScores(hits)[hits[i].id] == 1.0
    ensures hits[i].score == MinScore(hits) ==> NormalizedScores(hits)[hits[i].id] == 0.0
  {
    var lo, hi := MinScore(hits), MaxScore(hits);
    RescaleAllLast(hits, lo, hi, i);
    assert NormalizedScores(hits) == RescaleAll(hits, lo, hi);
    RescaleEnds(lo, hi);
  }

  lemma RescaleEnds(lo: real, hi: real)
    requires lo < hi
    ensures Rescale(hi, lo, hi) == 1.0 && Rescale(lo, lo, hi) == 0.0
  {
    var d := hi - lo;
    assert d / d == 1.0;
    assert 0.0 / d == 0.0;
  }

  /** `normalize_scores`: fills the dict `out` hit by hit. */
  method NormalizeScores(hits: seq<Candidate>) returns (out: map<string, real>)
    ensures out == NormalizedScores(hits)
    ensures out.Keys == IdSet(hits)
    ensures forall id :: id in out ==> 0.0 <= out[id] <= 1.0
  {
    if hits == [] {
      out := map[];
    } else {
      var lo, hi := MinScore(hits), MaxScore(hits);
      if lo == hi {
        out := map id | id in IdSet(hits) :: 1.0;
      } else {
        out := RescaleScores(hits, lo, hi);
      }
    }
    NormalizedRange(hits);
  }

  /** The loop of `normalize_scores` over the hits, for distinct minimum and maximum. */
  method RescaleScores(hits: seq<Candidate>, lo: real, hi: real) returns (out: map<string, real>)
    requires lo < hi
    ensures out == RescaleAll(hits, lo, hi)
  {
    out := map[];
    for i := 0 to |hits|
      invariant out == RescaleAll(hits[..i], lo, hi)
    {
      assert hits[..i + 1][..i] == hits[..i];
      out := out[hits[i].id := (hits[i].score - lo) / (hi - lo)];
    }
    assert hits[..|hits|] == hits;
  }

  /** `h.final_score`, read as the sort key. */
  function FinalScoreOf(c: Candidate): real {
    c.finalScore.GetOr(0.0)
  }

  /** The normalised vector score the reranker reads for a hit: `vec_norm.get(h.id, 0.0)`. */
  function VecScore(vecNorm: map<string, real>, h: Candidate): real {
    if h.id in vecNorm then vecNorm[h.id] else 0.0
  }

  /** `alpha * vec + (1 - alpha) * lex` */
  function Weighted(alpha: real, vec: real, lex: real): real {
    alpha * vec + (1.0 - alpha) * lex
  }

  /** A hit with `final_score` attached. */
  function Annotate(query: string, h: Candidate, vecNorm: map<string, real>, alpha: real,
                    ratio: (string, string) -> real): (r: Candidate)
    ensures r.finalScore.Some? && r == h.(finalScore := r.finalScore)
  {
    var lex := LexicalSimilarity(query, TextOf(h), ratio);
    h.(finalScore := Some(Weighted(alpha, VecScore(vecNorm, h), lex)))
  }

  /** Every hit, in input order, with its final score computed from `vecNorm`. */
  function AnnotateAll(query: string, hits: seq<Candidate>, vecNorm: map<string, real>, alpha: real,
                       ratio: (string, string) -> real): (r: seq<Candidate>)
    ensures |r| == |hits|
  {
    seq(|hits|, i requires 0 <= i < |hits| => Annotate(query, hits[i], vecNorm, alpha, ratio))
  }

  /** The list `scored` before sorting. */
  function Annotated(query: string, hits: seq<Candidate>, alpha: real,
                     ratio: (string, string) -> real): (r: seq<Candidate>)
    ensures |r| == |hits|
  {
    AnnotateAll(query, hits, NormalizedScores(hits), alpha, ratio)
  }

  /** Scoring keeps every hit, in input order, with its final score set and nothing else changed. */
  lemma AnnotatedHits(query: string, hits: seq<Candidate>, alpha: real, ratio: (string, string) -> real)
    ensures var r := Annotated(query, hits, alpha, ratio);
      && |r| == |hits|
      && forall i :: 0 <= i < |hits| ==> r[i].finalScore.Some? && r[i] == hits[i].(finalScore := r[i].finalScore)
  {
  }

  /**
   * `rerank_hits`: attaches the weighted score to every hit, sorts by it
   * (stable, descending) and keeps the first `top_k`.
   */
  method RerankHits(query: string, hits: seq<Candidate>, topK: int, alpha: real,
                    ratio: (string, string) -> real) returns (r: seq<Candidate>)
    ensures r == Take(SortDesc(Annotated(query, hits, alpha, ratio), FinalScoreOf), topK)
    ensures |r| == TakeLength(|hits|, topK)
    ensures Descending(r, FinalScoreOf)
    ensures forall c :: c in r ==> c in Annotated(query, hits, alpha, ratio)
  {
    var vecNorm := NormalizeScores(hits);
    var scored := ScoreHits(query, hits, vecNorm, alpha, ratio);
    r := Take(SortDesc(scored, FinalScoreOf), topK);
    TakeSorted(scored, topK);
  }

  /** The loop of `rerank_hits` that sets `h.final_score` on every hit. */
  method ScoreHits(query: string, hits: seq<Candidate>, vecNorm: map<string, real>, alpha: real,
                   ratio: (string, string) -> real) returns (scored: seq<Candidate>)
    ensures scored == AnnotateAll(query, hits, vecNorm, alpha, ratio)
  {
    scored := [];
    for i := 0 to |hits|
      invariant |scored| == i
      invariant forall j {:trigger scored[j]} :: 0 <= j < i ==> scored[j] == Annotate(query, hits[j], vecNorm, alpha, ratio)
    {
      var lex := LexicalSimilarity(query, TextOf(hits[i]), ratio);
      var vec := if hits[i].id in vecNorm then vecNorm[hits[i].id] else 0.0;
      var final := Weighted(alpha, vec, lex);
      var h := hits[i].(finalScore := Some(final));
      assert h == Annotate(query, hits[i], vecNorm, alpha, ratio);
      scored := scored + [h];
    }
  }

  /** A prefix of the sorted list is still sorted and holds only input elements. */
  lemma {:induction false} TakeSorted(s: seq<Candidate>, n: int)
    ensures Descending(Take(SortDesc(s, FinalScoreOf), n), FinalScoreOf)
    ensures forall c :: c in Take(SortDesc(s, FinalScoreOf), n) ==> c in s
  {
    var sorted := SortDesc(s, FinalScoreOf);
    SortDescSpec(s, FinalScoreOf);
    var r := Take(sorted, n);
    assert forall i :: 0 <= i < |r| ==> r[i] == sorted[i];
    forall c | c in r ensures c in s {
      SortDescMembers(s, FinalScoreOf, c);
    }
  }

  /** With 0 <= alpha <= 1 every final score is in [0, 1]. */
  lemma {:induction false} RerankFinalBounds(query: string, hits: seq<Candidate>, alpha: real, ratio: (string, string) -> real)
    requires 0.0 <= alpha <= 1.0 && IsRatio(ratio)
    ensures forall c :: c in Annotated(query, hits, alpha, ratio) ==> 0.0 <= FinalScoreOf(c) <= 1.0
  {
    var a := Annotated(query, hits, alpha, ratio);
    var vecNorm := NormalizedScores(hits);
    NormalizedRange(hits);
    forall i | 0 <= i < |a| ensures 0.0 <= FinalScoreOf(a[i]) <= 1.0 {
      var v, l := VecScore(vecNorm, hits[i]), LexicalSimilarity(query, TextOf(hits[i]), ratio);
      assert a[i] == Annotate(query, hits[i], vecNorm, alpha, ratio);
      assert FinalScoreOf(a[i]) == Weighted(alpha, v, l);
      ConvexBound(alpha, v, l);
    }
  }

  lemma ConvexBound(alpha: real, v: real, l: real)
    requires 0.0 <= alpha <= 1.0 && 0.0 <= v <= 1.0 && 0.0 <= l <= 1.0
    ensures 0.0 <= Weighted(alpha, v, l) <= 1.0
  {
    assert 0.0 <= alpha * v <= alpha * 1.0;
    assert 0.0 <= (1.0 - alpha) * l <= (1.0 - alpha) * 1.0;
  }

  /**
   * alpha = 1 ranks by normalised vector score alone, alpha = 0 by lexical
   * score alone: the sorted hits are in non-increasing order of that score.
   */
  lemma {:induction false} RerankDegenerate(query: string, hits: seq<Candidate>, alpha: real, ratio: (string, string) -> real)
    requires alpha == 1.0 || alpha == 0.0
    ensures var s := SortDesc(Annotated(query, hits, alpha, ratio), FinalScoreOf);
      forall i, j :: 0 <= i < j < |s| ==>
        if alpha == 1.0 then VecScore(NormalizedScores(hits), s[i]) >= VecScore(NormalizedScores(hits), s[j])
        else LexicalSimilarity(query, TextOf(s[i]), ratio) >= LexicalSimilarity(query, TextOf(s[j]), ratio)
  {
    var a := Annotated(query, hits, alpha, ratio);
    var vecNorm := NormalizedScores(hits);
    var s := SortDesc(a, FinalScoreOf);
    var other := (c: Candidate) =>
      if alpha == 1.0 then VecScore(vecNorm, c) else LexicalSimilarity(query, TextOf(c), ratio);
    assert forall c :: c in s ==> FinalScoreOf(c) == other(c) by {
      forall c | c in s ensures FinalScoreOf(c) == other(c) {
        SortDescMembers(a, FinalScoreOf, c);
        var k :| 0 <= k < |a| && a[k] == c;
        AnnotatedKey(query, hits, alpha, ratio, k);
      }
    }
    assert Descending(s, FinalScoreOf) by { SortDescSpec(a, FinalScoreOf); }
    forall i, j | 0 <= i < j < |s| ensures other(s[i]) >= other(s[j]) {
      assert s[i] in s && s[j] in s;
    }
  }

  /** With alpha 1 (0) a hit's final score is its normalised vector (lexical) score. */
  lemma AnnotatedKey(query: string, hits: seq<Candidate>, alpha: real, ratio: (string, string) -> real, k: int)
    requires alpha == 1.0 || alpha == 0.0
    requires 0 <= k < |hits|
    ensures var c := Annotated(query, hits, alpha, ratio)[k];
      FinalScoreOf(c) ==
        if alpha == 1.0 then VecScore(NormalizedScores(hits), c) else LexicalSimilarity(query, TextOf(c), ratio)
  {
    var vecNorm := NormalizedScores(hits);
    var h := hits[k];
    var c := Annotate(query, h, vecNorm, alpha, ratio);
    assert Annotated(query, hits, alpha, ratio)[k] == c;
    var v, l := VecScore(vecNorm, h), LexicalSimilarity(query, TextOf(h), ratio);
    assert FinalScoreOf(c) == Weighted(alpha, v, l);
    assert c.id == h.id && TextOf(c) == TextOf(h);
    WeightedEnds(alpha, v, l);
  }

  lemma WeightedEnds(alpha: real, v: real, l: real)
    ensures alpha == 1.0 ==> Weighted(alpha, v, l) == v
    ensures alpha == 0.0 ==> Weighted(alpha, v, l) == l
  {
  }
}
