/**
 * The tool router (approach_d_router.py): the chat model names one of four
 * tools for the question and the question is answered by that tool.
 */
module Router {
  import opened Candidates
  import opened Text
  import opened Rag

  /** The four tools a routing reply may name. */
  datatype Tool = RAG | SQL | API | DIRECT {
    /** The tool's name as the model is asked to reply it. */
    function Name(): string {
      match this
      case RAG => "RAG"
      case SQL => "SQL"
      case API => "API"
      case DIRECT => "DIRECT"
    }
  }

  const SqlAnswer: string := "SQL response example: (Simulated DB result)"
  const ApiAnswer: string := "API response example: (Simulated external API)"

  /** The instructions that open the routing prompt. */
  const RouteInstructions: string :=
    "\nYou are a router that decides which tool is appropriate for the user's question.\n\n" +
    "Tools:\n" +
    "- RAG: For knowledge base lookups, documentation, policies, guides.\n" +
    "- SQL: For database-style queries (balance, status, counts, employee info).\n" +
    "- API: For external system requests (weather, live data, pricing).\n" +
    "- DIRECT: For simple conversational or reasoning questions.\n\n" +
    "Respond with ONLY one word: RAG, SQL, API, or DIRECT.\n\n"

  /** The prompt `route_query` sends. */
  function RoutePrompt(question: string): string {
    RouteInstructions + "Question: " + question + "\n"
  }

  /**
   * The tool a reply selects: the one whose name is the stripped,
   * upper-cased reply, RAG when no name matches.
   */
  function Route(reply: string): (tool: Tool)
    ensures tool != RAG <==> Upper(Strip(reply)) in {"SQL", "API", "DIRECT"}
    ensures tool != RAG ==> tool.Name() == Upper(Strip(reply))
  {
    var r := Upper(Strip(reply));
    if r == "SQL" then SQL
    else if r == "API" then API
    else if r == "DIRECT" then DIRECT
    else RAG
  }

  /**
   * `route_query(q)`: the model is asked once, with the routing prompt; the
   * question goes to SQL, API or DIRECT exactly when the cleaned reply is
   * that name, and to RAG otherwise.
   */
  function RouteQuery(question: string, llm: string -> string): (tool: Tool)
    ensures var reply := Upper(Strip(llm(RoutePrompt(question))));
      && (tool != RAG <==> reply in {"SQL", "API", "DIRECT"})
      && (tool != RAG ==> tool.Name() == reply)
  {
    Route(llm(RoutePrompt(question)))
  }

  /** The route does not depend on the case of the reply. */
  lemma RouteIgnoresCase(a: string, b: string)
    requires Lower(a) == Lower(b)
    ensures Route(a) == Route(b)
  {
    UpperStripCase(a, b);
  }

  /** Surrounding whitespace and case are ignored: " sql\n" selects SQL. */
  lemma RouteTrimmed(reply: string)
    requires reply == " sql\n"
    ensures Route(reply) == SQL
  {
    assert reply == [' '] + "sql" + ['\n'];
    StripFrame(' ', "sql", '\n');
    var u := Upper("sql");
    assert u[0] == 'S' && u[1] == 'Q' && u[2] == 'L';
    assert u == "SQL";
  }

  /** A reply that is not exactly a tool name, such as "banana" or "SQL query", selects RAG. */
  lemma RouteFallback(reply: string)
    requires reply == "banana" || reply == "SQL query"
    ensures Route(reply) == RAG
  {
    StripUnchanged(reply);
    var u := Upper(reply);
    if reply == "banana" {
      assert |u| == 6 && u[0] == 'B';
    } else {
      assert |u| == 9;
    }
  }

  /** `sql_tool(question)`: a fixed simulated result. */
  function SqlTool(question: string): (r: string)
    ensures r == SqlAnswer
  {
    SqlAnswer
  }

  /** `api_tool(question)`: a fixed simulated result. */
  function ApiTool(question: string): (r: string)
    ensures r == ApiAnswer
  {
    ApiAnswer
  }

  /**
   * What `answer_router` hands back as written: a dict `{"answer", "sources"}`
   * on the DIRECT, SQL and API routes, a `TypeError` on the RAG route (the
   * call `build_prompt(question)` lacks the `contexts` argument), and the
   * tuple of the fall-through code, which no route reaches.
   */
  datatype RouterReply =
    | Dict(answer: string, sources: seq<Candidate>)
    | Pair(answer: string, sources: seq<Candidate>)
    | TypeError

  /** `answer_router(question)` as written. */
  function AnswerRouterAsWritten(question: string, llm: string -> string): (r: RouterReply)
    ensures r.TypeError? <==> RouteQuery(question, llm) == RAG
    ensures !r.Pair?
    ensures r.Dict? ==> r.sources == []
  {
    match RouteQuery(question, llm)
    case DIRECT => Dict(llm(question), [])
    case RAG => TypeError
    case SQL => Dict(SqlTool(question), [])
    case API => Dict(ApiTool(question), [])
  }

  /**
   * Every reply that is not exactly a tool name (here "banana") routes to
   * RAG, and the RAG route fails: the router can answer no question from
   * the knowledge base.
   */
  lemma RouterRagFails(question: string)
    ensures AnswerRouterAsWritten(question, (p: string) => "banana").TypeError?
  {
    RouteFallback("banana");
  }

  /**
   * `answer_router` with the RAG route doing what the unreachable
   * fall-through code does: retrieve, build the prompt over the points,
   * ask the model, and return the points as sources. Every route yields
   * the pair `(answer, sources)`.
   */
  function AnswerRouter(question: string, llm: string -> string, rank: string -> seq<Candidate>,
                        formatScore: real -> string): (r: (string, seq<Candidate>))
    ensures RouteQuery(question, llm) == RAG ==>
      && r.1 == RetrieveContext(rank, question, RetrieveLimit)
      && r.0 == llm(PromptFor(question, r.1, formatScore))
    ensures RouteQuery(question, llm) != RAG ==>
      && r.1 == []
      && AnswerRouterAsWritten(question, llm) == Dict(r.0, r.1)
  {
    match RouteQuery(question, llm)
    case DIRECT => (llm(question), [])
    case RAG =>
      var pts := RetrieveContext(rank, question, RetrieveLimit);
      (llm(PromptFor(question, pts, formatScore)), pts)
    case SQL => (SqlTool(question), [])
    case API => (ApiTool(question), [])
  }

  /** The fixed answers of the simulated tools and the direct answer. */
  lemma AnswerRouterRoutes(question: string, llm: string -> string, rank: string -> seq<Candidate>,
                           formatScore: real -> string)
    ensures var r := AnswerRouter(question, llm, rank, formatScore);
      && (RouteQuery(question, llm) == SQL ==> r == (SqlAnswer, []))
      && (RouteQuery(question, llm) == API ==> r == (ApiAnswer, []))
      && (RouteQuery(question, llm) == DIRECT ==> r == (llm(question), []))
  {
  }
}
