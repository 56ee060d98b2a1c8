/**
 * Hybrid retrieval (approach_c_hybrid.py): a keyword scan over the first
 * 500 stored points, scoring each point by how many distinct query words
 * occur in its text, merged by id with the vector-search result.
 *
 * The store's scroll order is the sequence `stored`.
 */
module Hybrid {
  import opened Candidates
  import opened Text
  import opened Sorting
  import opened Merge
  import opened Rag

  /** The `limit` of the scroll the keyword scan reads. */
  const ScrollLimit: nat := 500

  /**
   * `set(q.lower().split())`: non-empty words without whitespace or capital
   * letters; there are none exactly when the query is all whitespace.
   */
  function QueryWords(query: string): (r: set<string>)
    ensures forall w :: w in r ==> w != [] && NoSpace(w) && NoCapital(w)
    ensures r == {} <==> forall i :: 0 <= i < |query| ==> IsSpace(query[i])
  {
    var ws := Words(Lower(query));
    WordsShape(Lower(query));
    WordsFrom(Lower(query));
    WordsEmpty(Lower(query));
    LowerChars(query);
    LowerAllSpace(query);
    assert forall k :: 0 <= k < |ws| ==> NoCapital(ws[k]) by {
      forall k | 0 <= k < |ws|
        ensures NoCapital(ws[k])
      {
        forall j | 0 <= j < |ws[k]|
          ensures !('A' <= ws[k][j] <= 'Z')
        {
          var i :| 0 <= i < |Lower(query)| && Lower(query)[i] == ws[k][j];
        }
      }
    }
    var r := set w | w in ws;
    assert ws != [] ==> ws[0] in r;
    assert ws == [] ==> r == {};
    r
  }

  /**
   * `sum(1 for w in words if w in t)` with `t` the lower-cased text: the
   * number of distinct query words occurring in the point's text.
   */
  function KeywordScore(words: set<string>, p: Candidate): (r: nat)
    ensures r <= |words|
    ensures r > 0 <==> exists w :: w in words && Contains(Lower(TextOf(p)), w)
  {
    FoundWords(words, Lower(TextOf(p)));
    |Found(words, Lower(TextOf(p)))|
  }

  /** The query words occurring in `t`. */
  function Found(words: set<string>, t: string): set<string> {
    set w | w in words && Contains(t, w)
  }

  /** The words found in `t` are at most all the words, and some are found exactly when one occurs. */
  lemma FoundWords(words: set<string>, t: string)
    ensures |Found(words, t)| <= |words|
    ensures |Found(words, t)| > 0 <==> exists w :: w in words && Contains(t, w)
  {
    var found := Found(words, t);
    assert words == found + (words - found);
    if exists w :: w in words && Contains(t, w) {
      var w :| w in words && Contains(t, w);
      assert w in found;
    }
  }

  /** The keyword score as the sort key. */
  function KeywordKey(words: set<string>): Candidate -> real {
    p => KeywordScore(words, p) as real
  }

  /** `x[0]` of a `(score, point)` pair. */
  function PairScore(x: (nat, Candidate)): real {
    x.0 as real
  }

  /** `p` of a pair `(_, p)`. */
  function PairPoint(x: (nat, Candidate)): Candidate {
    x.1
  }

  /** The list `scored` after the scan of `pts`: `(score, p)` for each point with a positive score. */
  function ScoredPairs(words: set<string>, pts: seq<Candidate>): (r: seq<(nat, Candidate)>)
    ensures forall x :: x in r ==> x.0 == KeywordScore(words, x.1) > 0 && x.1 in pts
    decreases |pts|
  {
    if pts == [] then []
    else
      var init, p := pts[..|pts| - 1], pts[|pts| - 1];
      assert forall c :: c in init ==> c in pts;
      var score := KeywordScore(words, p);
      ScoredPairs(words, init) + (if score > 0 then [(score, p)] else [])
  }

  /** The points the scan keeps, in scroll order: those sharing at least one word with the query. */
  function Matching(words: set<string>, pts: seq<Candidate>): (r: seq<Candidate>)
    ensures forall c :: c in r <==> c in pts && KeywordScore(words, c) > 0
    decreases |pts|
  {
    if pts == [] then []
    else
      var init, p := pts[..|pts| - 1], pts[|pts| - 1];
      assert pts == init + [p];
      Matching(words, init) + (if KeywordScore(words, p) > 0 then [p] else [])
  }

  lemma {:induction false} ScoredPoints(words: set<string>, pts: seq<Candidate>)
    ensures MapSeq(PairPoint, ScoredPairs(words, pts)) == Matching(words, pts)
    decreases |pts|
  {
    if pts != [] {
      var init, p := pts[..|pts| - 1], pts[|pts| - 1];
      var score := KeywordScore(words, p);
      var a, b := ScoredPairs(words, init), (if score > 0 then [(score, p)] else []);
      var kept := if score > 0 then [p] else [];
      assert ScoredPairs(words, pts) == a + b;
      assert Matching(words, pts) == Matching(words, init) + kept;
      assert MapSeq(PairPoint, b) == kept;
      ScoredPoints(words, init);
      MapAppend(PairPoint, a, b);
    }
  }

  /**
   * The keyword scan's result: the matching points among the first 500,
   * sorted by keyword score (stable, descending), cut to `limit`.
   */
  function KeywordRanking(query: string, limit: int, stored: seq<Candidate>): seq<Candidate> {
    var words := QueryWords(query);
    Take(SortDesc(Matching(words, Take(stored, ScrollLimit)), KeywordKey(words)), limit)
  }

  /** `[f(x) for x in s[:n]]` is `[f(x) for x in s][:n]`. */
  lemma MapTake<T, U>(f: T -> U, s: seq<T>, n: int)
    ensures MapSeq(f, Take(s, n)) == Take(MapSeq(f, s), n)
  {
    assert |MapSeq(f, Take(s, n))| == |Take(MapSeq(f, s), n)|;
  }

  /**
   * `keyword_search`: scores every scrolled point, keeps those with a
   * positive score, sorts the `(score, point)` pairs and returns the points
   * of the first `limit` pairs.
   */
  method KeywordSearch(query: string, limit: int, stored: seq<Candidate>) returns (r: seq<Candidate>)
    ensures r == KeywordRanking(query, limit, stored)
  {
    var pts := Take(stored, ScrollLimit);
    var words := QueryWords(query);
    var scored := ScorePoints(words, pts);
    var key := KeywordKey(words);
    ScoredPoints(words, pts);
    SortMap(scored, PairPoint, PairScore, key);
    scored := SortDesc(scored, PairScore);
    MapTake(PairPoint, scored, limit);
    r := MapSeq(PairPoint, Take(scored, limit));
  }

  /** The loop of `keyword_search` that collects `(score, p)` for the points with a positive score. */
  method ScorePoints(words: set<string>, pts: seq<Candidate>) returns (scored: seq<(nat, Candidate)>)
    ensures scored == ScoredPairs(words, pts)
  {
    scored := [];
    for i := 0 to |pts|
      invariant scored == ScoredPairs(words, pts[..i])
    {
      assert pts[..i + 1][..i] == pts[..i];
      var score := KeywordScore(words, pts[i]);
      if score > 0 {
        scored := scored + [(score, pts[i])];
      }
    }
    assert pts[..|pts|] == pts;
  }

  /**
   * The keyword scan returns at most `limit` points, each among the first
   * 500 scrolled and sharing a word with the query, in non-increasing
   * keyword score (ties in scroll order, by `SortDescStable`).
   */
  lemma KeywordRankingFacts(query: string, limit: int, stored: seq<Candidate>)
    ensures var r := KeywordRanking(query, limit, stored);
      && (limit >= 0 ==> |r| <= limit)
      && (forall c :: c in r ==> c in Take(stored, ScrollLimit) && KeywordScore(QueryWords(query), c) > 0)
      && Descending(r, KeywordKey(QueryWords(query)))
  {
    var words := QueryWords(query);
    var s := Matching(words, Take(stored, ScrollLimit));
    var sorted := SortDesc(s, KeywordKey(words));
    SortDescSpec(s, KeywordKey(words));
    var r := Take(sorted, limit);
    assert forall i :: 0 <= i < |r| ==> r[i] == sorted[i];
    forall c | c in r ensures c in s {
      SortDescMembers(s, KeywordKey(words), c);
    }
  }

  /**
   * The result of `hybrid_retrieve`: the vector points and then the keyword
   * points written into one dict by id, its values cut to `limit`.
   */
  function HybridOf(v: seq<Candidate>, k: seq<Candidate>, limit: int): seq<Candidate> {
    Take(MergeById(v + k), limit)
  }

  /**
   * `hybrid_retrieve`: `merged` starts as the dict of the vector points and
   * every keyword point is then written into it.
   */
  method HybridRetrieve(query: string, limit: int, rank: string -> seq<Candidate>, stored: seq<Candidate>)
    returns (r: seq<Candidate>)
    ensures r == HybridOf(RetrieveContext(rank, query, limit), KeywordRanking(query, limit, stored), limit)
  {
    var v := RetrieveContext(rank, query, limit);
    var k := KeywordSearch(query, limit, stored);
    var merged := MergeById(v);
    assert v + k[..0] == v;
    for i := 0 to |k|
      invariant merged == MergeById(v + k[..i])
    {
      MergeStep(v, k, i);
      merged := Upsert(merged, k[i]);
    }
    assert v + k[..|k|] == v + k;
    r := Take(merged, limit);
  }

  /** The hybrid result never holds two points with the same id, nor more than `limit`. */
  lemma HybridNoDup(v: seq<Candidate>, k: seq<Candidate>, limit: int)
    ensures NoDupIds(HybridOf(v, k, limit))
    ensures limit >= 0 ==> |HybridOf(v, k, limit)| <= limit
  {
    MergeNoDup(v + k);
  }

  /**
   * The ids come in this order: the vector ids in vector order, then the
   * ids only the keyword scan found, in keyword order; cut to `limit`.
   */
  lemma HybridOrder(v: seq<Candidate>, k: seq<Candidate>, limit: int)
    ensures Ids(HybridOf(v, k, limit)) == Take(Distinct(Ids(v)) + Without(Distinct(Ids(k)), Ids(v)), limit)
  {
    var m := MergeById(v + k);
    assert Ids(m) == Distinct(Ids(v)) + Without(Distinct(Ids(k)), Ids(v)) by {
      MergeIds(v + k);
      IdsAppend(v, k);
      DistinctAppend(Ids(v), Ids(k));
    }
    IdsTake(m, limit);
  }


  /**
   * On an id collision the keyword point is the value kept (the last
   * keyword point with that id); `HybridOrder` gives its position, which is
   * that of the id among the vector ids.
   */
  lemma HybridKeywordWins(v: seq<Candidate>, k: seq<Candidate>, j: int)
    requires 0 <= j < |k|
    requires forall j' :: j < j' < |k| ==> k[j'].id != k[j].id
    ensures k[j] in MergeById(v + k)
  {
    assert (v + k)[|v| + j] == k[j];
    assert LastOf(v + k, |v| + j);
    MergeKeepsLast(v + k, |v| + j);
  }

  /** `answer_hybrid(q)`: the model's answer over the hybrid context of limit 5, and that context. */
  function AnswerHybrid(query: string, rank: string -> seq<Candidate>, stored: seq<Candidate>,
                        llm: string -> string, formatScore: real -> string): (r: (string, seq<Candidate>))
    ensures r.1 == HybridOf(RetrieveContext(rank, query, 5), KeywordRanking(query, 5, stored), 5)
    ensures NoDupIds(r.1) && |r.1| <= 5
    ensures r.0 == llm(PromptFor(query, r.1, formatScore))
  {
    var v, k := RetrieveContext(rank, query, 5), KeywordRanking(query, 5, stored);
    HybridNoDup(v, k, 5);
    var pts := HybridOf(v, k, 5);
    (llm(PromptFor(query, pts, formatScore)), pts)
  }

  /**
   * What `answer_hybrid` hands back as written: the answer and the points,
   * or the `AttributeError` that `build_prompt` raises on reading `pt.score`
   * of a point that is a record from the keyword scroll (records carry no
   * score).
   */
  datatype HybridReply = Answered(answer: string, sources: seq<Candidate>) | AttributeError

  /**
   * `answer_hybrid(q)` as written. A keyword point replaces the vector point
   * of the same id, so the prompt fails exactly when some point of the
   * context has an id the keyword scan found; otherwise the reply is that of
   * `AnswerHybrid`, over vector points only.
   */
  function AnswerHybridAsWritten(query: string, rank: string -> seq<Candidate>, stored: seq<Candidate>,
                                 llm: string -> string, formatScore: real -> string): (r: HybridReply)
    ensures r.Answered? ==> (r.answer, r.sources) == AnswerHybrid(query, rank, stored, llm, formatScore)
    ensures r.Answered? ==> forall c :: c in r.sources ==> c.id !in Ids(KeywordRanking(query, 5, stored))
    ensures r.AttributeError? ==>
      exists c :: c in AnswerHybrid(query, rank, stored, llm, formatScore).1 && c.id in Ids(KeywordRanking(query, 5, stored))
  {
    var (a, pts) := AnswerHybrid(query, rank, stored, llm, formatScore);
    if exists c :: c in pts && c.id in Ids(KeywordRanking(query, 5, stored)) then AttributeError
    else Answered(a, pts)
  }

  /**
   * A point that both searches find reaches the prompt as its keyword record
   * (the vector search returns at most 5 points, so every vector id is among
   * the first 5 merged ids), and `answer_hybrid` as written fails.
   */
  lemma SharedPointFails(query: string, rank: string -> seq<Candidate>, stored: seq<Candidate>,
                         llm: string -> string, formatScore: real -> string, c: Candidate)
    requires c in RetrieveContext(rank, query, 5)
    requires c.id in Ids(KeywordRanking(query, 5, stored))
    ensures AnswerHybridAsWritten(query, rank, stored, llm, formatScore).AttributeError?
  {
    var v, k := RetrieveContext(rank, query, 5), KeywordRanking(query, 5, stored);
    var pts := HybridOf(v, k, 5);
    var d := Distinct(Ids(v));
    HybridOrder(v, k, 5);
    DistinctLength(Ids(v));
    DistinctMembers(Ids(v));
    var i :| 0 <= i < |v| && v[i] == c;
    assert c.id == Ids(v)[i];
    assert c.id in d;
    assert Ids(pts)[..|d|] == d;
    var j :| 0 <= j < |d| && d[j] == c.id;
    assert pts[j].id == c.id && pts[j] in pts;
    assert pts == AnswerHybrid(query, rank, stored, llm, formatScore).1;
  }
}
