/**
 * The basic retrieval-augmented answer (rag.py): retrieve the nearest
 * chunks, lay them out as numbered context blocks in a fixed prompt, ask
 * the chat model, and report the answer with one source entry per chunk.
 *
 * The chat model is the function `llm` from prompt to (stripped) reply;
 * the store's nearest-neighbour ranking is `rank`; `formatScore` renders a
 * score with three decimals and `shorten` is the 200-character snippet
 * abbreviation.
 */
module Rag {
  import opened Candidates
  import opened Text

  /** The `limit` `retrieve_context` passes to the store, whatever `top_k` is. */
  const RetrieveLimit: nat := 5

  const NotFound: string := "I could not find any relevant information in the knowledge base."

  /** `retrieve_context(question, top_k)` */
  function RetrieveContext(rank: string -> seq<Candidate>, question: string, topK: int): (r: seq<Candidate>)
    ensures |r| == Min(RetrieveLimit, |rank(question)|)
    ensures r == rank(question)[..|r|]
  {
    Take(rank(question), RetrieveLimit)
  }

  /** `top_k` has no effect on what is retrieved. */
  lemma RetrieveIgnoresTopK(rank: string -> seq<Candidate>, question: string, k1: int, k2: int)
    ensures RetrieveContext(rank, question, k1) == RetrieveContext(rank, question, k2)
  {
  }

  /** The context block of the `i`-th point (counting from 1). */
  function Block(i: nat, pt: Candidate, formatScore: real -> string): (r: string)
    ensures IsPrefix("[Document " + NatToString(i) + " | " + pt.filename.GetOr("unknown") + " | score=", r)
    ensures |r| >= |TextOf(pt)| + 2 && r[|r| - |TextOf(pt)| - 2..] == "]\n" + TextOf(pt)
  {
    "[Document " + NatToString(i) + " | " + pt.filename.GetOr("unknown") + " | score=" +
    formatScore(pt.score) + "]\n" + TextOf(pt)
  }

  /** The list `context_blocks`: one block per point, numbered from 1 in input order. */
  function ContextBlocks(points: seq<Candidate>, formatScore: real -> string): seq<string> {
    seq(|points|, i requires 0 <= i < |points| => Block(i + 1, points[i], formatScore))
  }

  /** The context string: the blocks separated by a blank line. */
  function ContextString(points: seq<Candidate>, formatScore: real -> string): (r: string)
    ensures points == [] ==> r == ""
    ensures |points| == 1 ==> r == Block(1, points[0], formatScore)
    ensures points != [] ==> IsPrefix(Block(1, points[0], formatScore), r)
  {
    Join("\n\n", ContextBlocks(points, formatScore))
  }

  /** The prompt template before `.strip()`. */
  function Template(question: string, contextStr: string): string {
    "\n" + Header + contextStr + "\n\nQuestion:\n" + question + "\n\nAnswer clearly and concisely:\n"
  }

  const Header: string :=
    "You are a helpful assistant " + "that answers questions using ONLY the provided context.\n" +
    "If the answer is not in the context, say that you do not know and do NOT hallucinate.\n\nContext:\n"

  /** The prompt `build_prompt` returns: the stripped template. */
  function Prompt(question: string, contextStr: string): string {
    Strip(Template(question, contextStr))
  }

  function PromptFor(question: string, points: seq<Candidate>, formatScore: real -> string): (r: string)
    ensures r == Header + ContextString(points, formatScore) + "\n\nQuestion:\n" + question + "\n\nAnswer clearly and concisely:"
  {
    PromptShape(question, ContextString(points, formatScore));
    Prompt(question, ContextString(points, formatScore))
  }

  /**
   * Stripping removes only the template's own leading and trailing line
   * breaks, whatever the question and the context hold: the prompt is the
   * header, the context, then the question.
   */
  lemma PromptShape(question: string, contextStr: string)
    ensures Prompt(question, contextStr) ==
      Header + contextStr + "\n\nQuestion:\n" + question + "\n\nAnswer clearly and concisely:"
  {
    var tail := "\n\nAnswer clearly and concisely:";
    var body := Header + contextStr + "\n\nQuestion:\n" + question + tail;
    assert Template(question, contextStr) == "\n" + body + "\n";
    assert Header[0] == 'Y';
    assert body[0] == Header[0];
    assert body[|body| - 1] == tail[|tail| - 1] == ':';
    StripFrame('\n', body, '\n');
  }

  /**
   * Adding a point appends its block, numbered one past the others, after
   * a blank line: the blocks keep the order and numbering of the points.
   */
  lemma ContextAppend(points: seq<Candidate>, p: Candidate, formatScore: real -> string)
    ensures ContextString(points + [p], formatScore) ==
      if points == [] then Block(1, p, formatScore)
      else ContextString(points, formatScore) + "\n\n" + Block(|points| + 1, p, formatScore)
  {
    var b := ContextBlocks(points + [p], formatScore);
    assert b[..|b| - 1] == ContextBlocks(points, formatScore);
  }

  /** A point without a filename is rendered with "unknown", at any position. */
  lemma MissingFilename(i: nat, p: Candidate, formatScore: real -> string)
    ensures p.filename.None? ==>
      IsPrefix("[Document " + NatToString(i) + " | unknown | score=", Block(i, p, formatScore))
  {
  }

  /** A point without a text is rendered as its header alone, at any position. */
  lemma MissingText(i: nat, p: Candidate, formatScore: real -> string)
    ensures p.text.None? ==> var b := Block(i, p, formatScore); |b| >= 2 && b[|b| - 2..] == "]\n"
  {
    if p.text.None? {
      assert TextOf(p) == "";
    }
  }

  /**
   * A point without a payload is rendered with the filename "unknown" and
   * an empty text: a lone such point gives the context of just its header.
   */
  lemma MissingPayload(p: Candidate, formatScore: real -> string)
    ensures p.filename.None? && p.text.None? ==>
      ContextString([p], formatScore) == "[Document 1 | unknown | score=" + formatScore(p.score) + "]\n"
  {
    if p.filename.None? && p.text.None? {
      var b := Block(1, p, formatScore);
      assert b == "[Document 1 | unknown | score=" + formatScore(p.score) + "]\n" by {
        assert NatToString(1) == "1";
        assert p.filename.GetOr("unknown") == "unknown" && TextOf(p) == "";
      }
      assert ContextBlocks([p], formatScore) == [b];
    }
  }

  /** `build_prompt(question, contexts)`: the blocks are built in a loop. */
  method BuildPrompt(question: string, contexts: seq<Candidate>, formatScore: real -> string)
    returns (prompt: string)
    ensures prompt == PromptFor(question, contexts, formatScore)
  {
    var contextBlocks: seq<string> := [];
    for i := 0 to |contexts|
      invariant contextBlocks == ContextBlocks(contexts[..i], formatScore)
    {
      var pt := contexts[i];
      var filename := pt.filename.GetOr("unknown");
      var text := TextOf(pt);
      contextBlocks := contextBlocks +
        ["[Document " + NatToString(i + 1) + " | " + filename + " | score=" + formatScore(pt.score) + "]\n" + text];
      assert contextBlocks == ContextBlocks(contexts[..i + 1], formatScore);
    }
    assert contexts[..|contexts|] == contexts;
    var contextStr := Join("\n\n", contextBlocks);
    prompt := Strip(Template(question, contextStr));
  }

  /** An entry of `sources`. */
  datatype Source = Source(id: string, score: real, filename: Option<string>, snippet: string)

  /** The dict `{"answer": ..., "sources": ...}`. */
  datatype Answer = Answer(answer: string, sources: seq<Source>)

  function SourceOf(p: Candidate, shorten: string -> string): Source {
    Source(p.id, p.score, p.filename, shorten(TextOf(p)))
  }

  /** The list `sources`: one entry per point, in order, with its id, score and filename. */
  function SourcesOf(points: seq<Candidate>, shorten: string -> string): (r: seq<Source>)
    ensures |r| == |points|
    ensures forall i :: 0 <= i < |points| ==>
      r[i].id == points[i].id && r[i].score == points[i].score && r[i].filename == points[i].filename
  {
    seq(|points|, i requires 0 <= i < |points| => SourceOf(points[i], shorten))
  }

  /**
   * `answer_question`: without retrieved points the fixed "not found"
   * answer and no sources; otherwise the model's answer to the prompt, and
   * (when asked for) one source entry per point, in order.
   */
  function AnswerQuestion(question: string, topK: int, showSources: bool,
                          rank: string -> seq<Candidate>, llm: string -> string,
                          formatScore: real -> string, shorten: string -> string): (r: Answer)
    ensures var points := RetrieveContext(rank, question, topK);
      && (points == [] ==> r == Answer(NotFound, []))
      && (points != [] ==> r.answer == llm(PromptFor(question, points, formatScore)))
      && (!showSources ==> r.sources == [])
      && (showSources ==>
            && |r.sources| == |points|
            && forall i :: 0 <= i < |points| ==>
                 r.sources[i].id == points[i].id && r.sources[i].score == points[i].score &&
                 r.sources[i].filename == points[i].filename)
  {
    var points := RetrieveContext(rank, question, topK);
    if points == [] then Answer(NotFound, [])
    else
      Answer(llm(PromptFor(question, points, formatScore)), if showSources then SourcesOf(points, shorten) else [])
  }

  /** With nothing retrieved the model is never consulted: the answer does not depend on it. */
  lemma NoPointsNoModel(question: string, topK: int, showSources: bool, rank: string -> seq<Candidate>,
                        llm1: string -> string, llm2: string -> string,
                        formatScore: real -> string, shorten: string -> string)
    requires rank(question) == []
    ensures AnswerQuestion(question, topK, showSources, rank, llm1, formatScore, shorten) ==
            AnswerQuestion(question, topK, showSources, rank, llm2, formatScore, shorten)
  {
  }
}
