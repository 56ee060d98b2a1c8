/**
 * The unified agent (UnifiedAgent.py): one entry point that dispatches a
 * question to the conditional, hybrid, router or multi-query approach by
 * the name of a mode and reports the approach's answer and sources.
 */
module UnifiedAgent {
  import opened Candidates
  import opened Text
  import opened Rag
  import opened Conditional
  import opened Hybrid
  import opened Router
  import opened MultiQuery

  /** The external services every approach is given. */
  datatype Services = Services(
    llm: string -> string,
    rank: string -> seq<Candidate>,
    stored: seq<Candidate>,
    parse: string -> Option<seq<string>>,
    formatScore: real -> string)

  /** A call that returns a value or raises. */
  datatype Outcome<T> = Ok(value: T) | Raised(error: string)

  /**
   * What lands in the result's "sources" entry: the approach's points, or
   * (when a dict was unpacked as a pair) the name of one of its keys.
   */
  datatype Sources = Points(points: seq<Candidate>) | KeyName(key: string)

  /** The dict `{"mode", "question", "answer", "sources"}` `run_mode` returns. */
  datatype ModeResult = ModeResult(mode: string, question: string, answer: string, sources: Sources)

  /** The mode names `run_mode` recognises (after lower-casing). */
  const Modes: set<string> := {"conditional", "hybrid", "router", "multi"}

  /** The four mode names are already lower-case. */
  lemma LowerModes()
    ensures forall m :: m in Modes ==> Lower(m) == m
  {
    LowerNoCapital("conditional");
    LowerNoCapital("hybrid");
    LowerNoCapital("router");
    LowerNoCapital("multi");
  }

  /**
   * `ans, src = reply`: unpacking the router's reply as a pair. A dict
   * unpacks into its two keys in insertion order; a `TypeError` propagates.
   */
  function UnpackRouterReply(reply: RouterReply): (r: Outcome<(string, Sources)>)
    ensures r.Raised? <==> reply.TypeError?
    ensures reply.Dict? ==> r == Ok(("answer", KeyName("sources")))
    ensures reply.Pair? ==> r == Ok((reply.answer, Points(reply.sources)))
  {
    match reply
    case Dict(_, _) => Ok(("answer", KeyName("sources")))
    case Pair(a, s) => Ok((a, Points(s)))
    case TypeError => Raised("TypeError")
  }

  /**
   * `run_mode(mode, q)` as written: the hybrid approach as written (which
   * raises `AttributeError` when a keyword record reaches the prompt) and
   * the router's reply unpacked as a pair.
   */
  function RunModeAsWritten(mode: string, question: string, svc: Services): (r: Outcome<ModeResult>)
    ensures Lower(mode) !in Modes ==> r == Raised("Unknown mode")
    ensures Lower(mode) == "router" ==>
      r.Raised? || (r.value.answer == "answer" && r.value.sources == KeyName("sources"))
    ensures Lower(mode) == "hybrid" ==>
      (r.Raised? <==> AnswerHybridAsWritten(question, svc.rank, svc.stored, svc.llm, svc.formatScore).AttributeError?)
    ensures Lower(mode) == "hybrid" && r.Raised? ==> r.error == "AttributeError"
  {
    var m := Lower(mode);
    if m == "conditional" then
      var (a, s) := AnswerConditional(question, svc.llm, svc.rank, svc.formatScore);
      Ok(ModeResult(m, question, a, Points(s)))
    else if m == "hybrid" then
      match AnswerHybridAsWritten(question, svc.rank, svc.stored, svc.llm, svc.formatScore)
      case Answered(a, s) => Ok(ModeResult(m, question, a, Points(s)))
      case AttributeError => Raised("AttributeError")
    else if m == "router" then
      match UnpackRouterReply(AnswerRouterAsWritten(question, svc.llm))
      case Ok((a, s)) => Ok(ModeResult(m, question, a, s))
      case Raised(e) => Raised(e)
    else if m == "multi" then
      var (a, s) := AnswerMulti(question, svc.llm, svc.parse, svc.rank, svc.formatScore);
      Ok(ModeResult(m, question, a, Points(s)))
    else Raised("Unknown mode")
  }

  /**
   * In hybrid mode, a point that both the vector search and the keyword
   * scan find makes `run_mode` as written raise `AttributeError`.
   */
  lemma HybridModeFails(question: string, svc: Services, c: Candidate)
    requires c in RetrieveContext(svc.rank, question, 5)
    requires c.id in Ids(KeywordRanking(question, 5, svc.stored))
    ensures RunModeAsWritten("hybrid", question, svc) == Raised("AttributeError")
  {
    LowerModes();
    SharedPointFails(question, svc.rank, svc.stored, svc.llm, svc.formatScore, c);
  }

  /**
   * In router mode, a model that answers "DIRECT" to the routing prompt
   * gives the answer "answer" and the sources "sources": the key names,
   * not the model's answer.
   */
  lemma RouterModeUnpacksKeys(question: string, svc: Services)
    requires forall p :: svc.llm(p) == "DIRECT"
    ensures RunModeAsWritten("router", question, svc) ==
      Ok(ModeResult("router", question, "answer", KeyName("sources")))
  {
    var reply := svc.llm(RoutePrompt(question));
    assert reply == "DIRECT";
    StripUnchanged(reply);
    assert Upper(reply) == "DIRECT";
    assert RouteQuery(question, svc.llm) == DIRECT;
    LowerModes();
  }

  /**
   * `run_mode(mode, q)` reading the answer and the sources from the
   * router's reply, with the router's RAG route fixed (`AnswerRouter`):
   * exactly the recognised modes dispatch, and the result reports the
   * lower-cased mode and the unchanged question.
   */
  function RunMode(mode: string, question: string, svc: Services): (r: Outcome<ModeResult>)
    ensures r.Raised? <==> Lower(mode) !in Modes
    ensures r.Raised? ==> r.error == "Unknown mode"
    ensures r.Ok? ==> r.value.mode == Lower(mode) && r.value.question == question && r.value.sources.Points?
  {
    var m := Lower(mode);
    if m in Modes then Reported(m, question, Dispatch(m, question, svc))
    else Raised("Unknown mode")
  }

  /** The result dict of a mode from its approach's `(answer, sources)`. */
  function Reported(m: string, question: string, reply: (string, seq<Candidate>)): Outcome<ModeResult> {
    Ok(ModeResult(m, question, reply.0, Points(reply.1)))
  }

  /** The `(answer, sources)` of the approach a recognised mode names. */
  function Dispatch(m: string, question: string, svc: Services): (string, seq<Candidate>)
    requires m in Modes
  {
    if m == "conditional" then AnswerConditional(question, svc.llm, svc.rank, svc.formatScore)
    else if m == "hybrid" then AnswerHybrid(question, svc.rank, svc.stored, svc.llm, svc.formatScore)
    else if m == "router" then AnswerRouter(question, svc.llm, svc.rank, svc.formatScore)
    else AnswerMulti(question, svc.llm, svc.parse, svc.rank, svc.formatScore)
  }

  /** Each recognised mode reports the answer and the sources of its own approach. */
  lemma RunModeDispatch(mode: string, question: string, svc: Services)
    ensures var m, r := Lower(mode), RunMode(mode, question, svc);
      && (m == "conditional" ==> r == Reported(m, question, AnswerConditional(question, svc.llm, svc.rank, svc.formatScore)))
      && (m == "hybrid" ==> r == Reported(m, question, AnswerHybrid(question, svc.rank, svc.stored, svc.llm, svc.formatScore)))
      && (m == "router" ==> r == Reported(m, question, AnswerRouter(question, svc.llm, svc.rank, svc.formatScore)))
      && (m == "multi" ==> r == Reported(m, question, AnswerMulti(question, svc.llm, svc.parse, svc.rank, svc.formatScore)))
  {
    var m := Lower(mode);
    if m == "conditional" {
      assert m in Modes;
    } else if m == "hybrid" {
      assert m in Modes && m != "conditional";
    } else if m == "router" {
      assert m in Modes && m != "conditional" && m != "hybrid";
    } else if m == "multi" {
      assert m in Modes && m != "conditional" && m != "hybrid" && m != "router";
    }
  }

  /** Modes that differ only in case behave the same: "Hybrid" and "HYBRID" are "hybrid". */
  lemma RunModeIgnoresCase(m1: string, m2: string, question: string, svc: Services)
    requires Lower(m1) == Lower(m2)
    ensures RunMode(m1, question, svc) == RunMode(m2, question, svc)
  {
  }
}
