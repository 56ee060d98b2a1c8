/**
 * Conditional retrieval (approach_b_conditional.py): the chat model is
 * first asked whether the question needs the knowledge base, and the
 * question is answered either over retrieved context or directly.
 */
module Conditional {
  import opened Candidates
  import opened Text
  import opened Rag

  /** The prompt `needs_rag` sends. */
  function DecisionPrompt(question: string): string {
    "Decide if RAG needed. If yes reply RAG_REQUIRED else NO_RAG.\n    Query:" + question
  }

  /**
   * The decision read from the model's reply: retrieval is asked for exactly
   * when "RAG_REQUIRED" starts at some position of the stripped, upper-cased
   * reply.
   */
  function RequiresRag(reply: string): (r: bool)
    ensures var u := Upper(Strip(reply));
      r <==> exists i :: 0 <= i <= |u| && IsPrefix("RAG_REQUIRED", u[i..])
  {
    ContainsAt(Upper(Strip(reply)), "RAG_REQUIRED");
    Contains(Upper(Strip(reply)), "RAG_REQUIRED")
  }

  /**
   * `needs_rag(question)`: the model is asked once, with the decision prompt,
   * and retrieval is needed exactly when its cleaned reply holds the marker.
   */
  function NeedsRag(question: string, llm: string -> string): (r: bool)
    ensures var u := Upper(Strip(llm(DecisionPrompt(question))));
      r <==> exists i :: 0 <= i <= |u| && IsPrefix("RAG_REQUIRED", u[i..])
  {
    RequiresRag(llm(DecisionPrompt(question)))
  }

  /** The decision does not depend on the case of the reply. */
  lemma RequiresRagIgnoresCase(a: string, b: string)
    requires Lower(a) == Lower(b)
    ensures RequiresRag(a) <==> RequiresRag(b)
  {
    UpperStripCase(a, b);
  }

  /** A lower-case marker followed by an explanation still asks for retrieval. */
  lemma RequiresRagExample(reply: string)
    requires reply == "rag_required because"
    ensures RequiresRag(reply)
  {
    StripUnchanged(reply);
    var u := Upper(reply);
    assert u[..12] == "RAG_REQUIRED";
    ContainsPrefix(u, "RAG_REQUIRED");
  }

  /** An empty reply and the negative marker both mean no retrieval: the rule fails toward answering directly. */
  lemma RequiresRagNegative()
    ensures !RequiresRag("")
    ensures !RequiresRag("NO_RAG")
  {
    ContainsLonger(Upper(Strip("")), "RAG_REQUIRED");
    assert |Upper(Strip("NO_RAG"))| <= 6;
    ContainsLonger(Upper(Strip("NO_RAG")), "RAG_REQUIRED");
  }

  /**
   * `answer_question_conditional(q)`: with retrieval, the model's answer
   * over the retrieved points and those points; without, the model's answer
   * to the bare question and no sources.
   */
  function AnswerConditional(question: string, llm: string -> string, rank: string -> seq<Candidate>,
                             formatScore: real -> string): (r: (string, seq<Candidate>))
    ensures !NeedsRag(question, llm) ==> r == (llm(question), [])
    ensures NeedsRag(question, llm) ==>
      && r.1 == RetrieveContext(rank, question, RetrieveLimit)
      && r.0 == llm(PromptFor(question, r.1, formatScore))
  {
    if NeedsRag(question, llm) then
      var pts := RetrieveContext(rank, question, RetrieveLimit);
      (llm(PromptFor(question, pts, formatScore)), pts)
    else
      (llm(question), [])
  }

  /** When retrieval is not needed the store is never consulted: the answer does not depend on it. */
  lemma DirectIgnoresStore(question: string, llm: string -> string, rank1: string -> seq<Candidate>,
                           rank2: string -> seq<Candidate>, formatScore: real -> string)
    requires !NeedsRag(question, llm)
    ensures AnswerConditional(question, llm, rank1, formatScore) == AnswerConditional(question, llm, rank2, formatScore)
  {
  }
}
