/**
 * Multi-query retrieval (approach_e_multiquery.py): the chat model rewrites
 * the question into several search queries, each is sent to the vector
 * store, and the points are merged by id.
 *
 * `parse` stands for evaluating the model's reply as a Python list of
 * strings: `None` when that raises.
 */
module MultiQuery {
  import opened Candidates
  import opened Merge
  import opened Rag

  /** The prompt `expand_query` sends. */
  function ExpandPrompt(query: string): string {
    "Rewrite into 3 semantic queries. Output Python list.\n    Q:" + query
  }

  /** `expand_query(q)`: the parsed list, or `[q]` when the reply does not parse. */
  function ExpandQuery(query: string, llm: string -> string, parse: string -> Option<seq<string>>): (qs: seq<string>)
    ensures parse(llm(ExpandPrompt(query))).None? ==> qs == [query]
    ensures parse(llm(ExpandPrompt(query))).Some? ==> qs == parse(llm(ExpandPrompt(query))).value
  {
    match parse(llm(ExpandPrompt(query)))
    case Some(qs) => qs
    case None => [query]
  }

  /** The points retrieved for the sub-queries, one retrieval after the other. */
  function Gathered(qs: seq<string>, rank: string -> seq<Candidate>, topK: int): seq<Candidate>
    decreases |qs|
  {
    if qs == [] then []
    else Gathered(qs[..|qs| - 1], rank, topK) + RetrieveContext(rank, qs[|qs| - 1], topK)
  }

  /** Every gathered point was retrieved for one of the sub-queries. */
  lemma {:induction false} GatheredFrom(qs: seq<string>, rank: string -> seq<Candidate>, topK: int, c: Candidate)
    requires c in Gathered(qs, rank, topK)
    ensures exists i :: 0 <= i < |qs| && c in RetrieveContext(rank, qs[i], topK)
    decreases |qs|
  {
    var init := qs[..|qs| - 1];
    if c in Gathered(init, rank, topK) {
      GatheredFrom(init, rank, topK, c);
      var i :| 0 <= i < |init| && c in RetrieveContext(rank, init[i], topK);
      assert qs[i] == init[i];
    } else {
      assert c in RetrieveContext(rank, qs[|qs| - 1], topK);
    }
  }

  /** The result of `multi_query_retrieve`: the merged points, cut to `top_k`. */
  function MultiOf(qs: seq<string>, rank: string -> seq<Candidate>, topK: int): seq<Candidate> {
    Take(MergeById(Gathered(qs, rank, topK)), topK)
  }

  /**
   * `multi_query_retrieve`: for each expanded query, every retrieved point
   * is written into the dict `merged` under its id.
   */
  method MultiQueryRetrieve(query: string, topK: int, llm: string -> string,
                            parse: string -> Option<seq<string>>, rank: string -> seq<Candidate>)
    returns (r: seq<Candidate>)
    ensures r == MultiOf(ExpandQuery(query, llm, parse), rank, topK)
  {
    var qs := ExpandQuery(query, llm, parse);
    var merged: seq<Candidate> := [];
    for i := 0 to |qs|
      invariant merged == MergeById(Gathered(qs[..i], rank, topK))
    {
      var pts := RetrieveContext(rank, qs[i], topK);
      ghost var before := Gathered(qs[..i], rank, topK);
      assert before + pts[..0] == before;
      for j := 0 to |pts|
        invariant merged == MergeById(before + pts[..j])
      {
        MergeStep(before, pts, j);
        merged := Upsert(merged, pts[j]);
      }
      assert qs[..i + 1][..i] == qs[..i];
      assert before + pts[..|pts|] == Gathered(qs[..i + 1], rank, topK);
    }
    assert qs[..|qs|] == qs;
    r := Take(merged, topK);
  }

  /** No two returned points share an id, and there are at most `top_k` of them. */
  lemma MultiNoDup(qs: seq<string>, rank: string -> seq<Candidate>, topK: int)
    ensures NoDupIds(MultiOf(qs, rank, topK))
    ensures topK >= 0 ==> |MultiOf(qs, rank, topK)| <= topK
  {
    MergeNoDup(Gathered(qs, rank, topK));
  }

  /** Every returned point was retrieved for some expanded query. */
  lemma MultiFromSubQueries(qs: seq<string>, rank: string -> seq<Candidate>, topK: int)
    ensures forall c :: c in MultiOf(qs, rank, topK) ==>
      exists i :: 0 <= i < |qs| && c in RetrieveContext(rank, qs[i], topK)
  {
    var g := Gathered(qs, rank, topK);
    var m := MergeById(g);
    MergeMembers(g);
    forall c | c in MultiOf(qs, rank, topK)
      ensures exists i :: 0 <= i < |qs| && c in RetrieveContext(rank, qs[i], topK)
    {
      var r := Take(m, topK);
      var k :| 0 <= k < |r| && r[k] == c;
      assert c in m;
      GatheredFrom(qs, rank, topK, c);
    }
  }

  /**
   * For an id retrieved under several sub-queries the merge keeps the
   * last point retrieved with it; its position is the id's first
   * appearance (`MergeIds`).
   */
  lemma MultiLastWins(qs: seq<string>, rank: string -> seq<Candidate>, topK: int, i: int)
    requires LastOf(Gathered(qs, rank, topK), i)
    ensures Gathered(qs, rank, topK)[i] in MergeById(Gathered(qs, rank, topK))
    ensures Ids(MergeById(Gathered(qs, rank, topK))) == Distinct(Ids(Gathered(qs, rank, topK)))
  {
    MergeKeepsLast(Gathered(qs, rank, topK), i);
    MergeIds(Gathered(qs, rank, topK));
  }

  /**
   * With a single expanded query the result is that query's retrieval
   * deduplicated and cut to `top_k`; a retrieval with distinct ids comes
   * back unchanged apart from the cut.
   */
  lemma MultiSingle(q: string, rank: string -> seq<Candidate>, topK: int)
    ensures MultiOf([q], rank, topK) == Take(MergeById(RetrieveContext(rank, q, topK)), topK)
    ensures NoDupIds(RetrieveContext(rank, q, topK)) ==>
      MultiOf([q], rank, topK) == Take(RetrieveContext(rank, q, topK), topK)
  {
    var pts := RetrieveContext(rank, q, topK);
    assert [q][..0] == [];
    assert Gathered([q], rank, topK) == [] + pts;
    assert [] + pts == pts;
    if NoDupIds(pts) {
      MergeUnique(pts);
    }
  }

  /** `answer_multi(q)`: the model's answer over the merged context of `top_k` 5, and that context. */
  function AnswerMulti(query: string, llm: string -> string, parse: string -> Option<seq<string>>,
                       rank: string -> seq<Candidate>, formatScore: real -> string): (r: (string, seq<Candidate>))
    ensures r.1 == MultiOf(ExpandQuery(query, llm, parse), rank, 5)
    ensures NoDupIds(r.1) && |r.1| <= 5
    ensures r.0 == llm(PromptFor(query, r.1, formatScore))
  {
    var qs := ExpandQuery(query, llm, parse);
    MultiNoDup(qs, rank, 5);
    var pts := MultiOf(qs, rank, 5);
    (llm(PromptFor(query, pts, formatScore)), pts)
  }
}
