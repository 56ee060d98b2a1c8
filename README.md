# Retrieval and ranking of a RAG question-answering toolkit, in Dafny

The toolkit answers a question from a knowledge base. It retrieves text chunks from a vector store and asks a chat model to answer using only those chunks. This project models the logic between the external services, and proves what that logic promises:

- **Prompt and answer assembly** (`rag.py`): the fixed retrieval limit, the numbered context blocks, the prompt, and the "not found" answer.
- **Relevance filter** (`query.py`): an absolute floor, a cutoff 0.15 below the best score, and an optional stable re-sort by embedding similarity.
- **Weighted reranker** (`rerank.py`):
  - min-max score normalisation;
  - a case-insensitive lexical score;
  - the sum `alpha * vector + (1 - alpha) * lexical`;
  - a stable descending sort, then a `top_k` cut.
- **Keyword scan and hybrid merge** (`approach_c_hybrid.py`) and **multi-query expansion** (`approach_e_multiquery.py`). Both merge points by id with Python dict semantics: the last write wins the value, and the key keeps its first-insertion position.
- **Character chunker** of the ingestion pipeline (`ingest.py`).
- **Decision and dispatch rules**:
  - the conditional retrieval decision (`approach_b_conditional.py`);
  - the tool router (`approach_d_router.py`);
  - the mode dispatch of the unified agent (`UnifiedAgent.py`).

Every external service is a function parameter:

| Parameter | Stands for |
|---|---|
| `llm` | the chat model, from prompt to reply |
| `rank` | the vector store's nearest-neighbour ranking of a query. A request with limit `n` answers `rank(q)[:n]` |
| `stored` | the store's scroll order |
| `parse` | evaluating a reply as a Python list |
| `similarity` | embedding two texts and taking their cosine |
| `ratio` | difflib's matching ratio |
| `formatScore` | the `:.3f` rendering of a score |
| `shorten` | `textwrap.shorten` |

Scores are `real`.

The modules follow the source files. Four modules are shared:

- `Candidates`: the point record, Python's `s[:n]`, and max/min.
- `Text`: `lower`, `upper`, `strip`, `split`, `in`, `join`, and integer rendering.
- `Sorting`: Python's stable `sort(reverse=True)` as `SortDesc`.
- `Merge`: the dict keyed by id, as `MergeById`.

Every loop of the source is a method proved against the function that specifies it. Every Python dict that a loop fills is a `map`, or the sequence of its values.

## Model

| member | source | states |
|---|---|---|
| Candidates.Take | rerank.py:43 | `s[:n]` with Python's semantics for any `n`: a prefix of length `min(n, len)`, or all but the last `-n` elements |
| Candidates.MaxScore | query.py:65 | the result bounds every score and is one of them |
| Candidates.MinScore | rerank.py:20 | the result is at most every score and is one of them |
| Text.NatToStringValue | rag.py:75-80 | the rendered block number is a non-empty string of decimal digits whose value is the number, with no leading zero: it starts with `0` only for 0 |
| Text.LowerChars | approach_c_hybrid.py:18 | `lower()` keeps the length, leaves no capital letter and keeps every character that is not a capital |
| Text.UpperChars | approach_b_conditional.py:19 | `upper()` keeps the length, leaves no small letter and keeps every character that is not a small letter |
| Text.Strip | approach_b_conditional.py:19 | the stripped reply is no longer than the reply and neither starts nor ends with whitespace |
| Text.StripSlice | approach_d_router.py:18 | the stripped reply is a contiguous piece of the reply with only whitespace before and after it |
| Text.StripEmpty | approach_d_router.py:18 | the stripped reply is empty exactly when the reply is all whitespace |
| Text.StripLeftSpaces | rag.py:96 | stripping removes nothing but whitespace from the front |
| Text.StripRightSpaces | rag.py:96 | stripping removes nothing but whitespace from the back |
| Text.WordsShape | approach_c_hybrid.py:18 | every word of `split()` is non-empty and holds no whitespace |
| Text.WordsFrom | approach_c_hybrid.py:18 | every character of a word of `split()` is a character of the split string |
| Text.WordsEmpty | approach_c_hybrid.py:18 | `split()` gives no words exactly when the string is all whitespace |
| Text.WordsRun | approach_c_hybrid.py:18 | a non-empty whitespace-free run that ends at whitespace or at the end of the string is one whole word of `split()` |
| Text.WordsSkipSpace | approach_c_hybrid.py:18 | `split()` skips leading whitespace |
| Text.ContainsAt | approach_b_conditional.py:20 | `needle in hay` holds exactly when the needle starts at some position of the hay |
| Text.Join | rag.py:83 | joining no parts gives ""; one part gives that part; otherwise the result starts with the first part |
| Text.UpperStripCase | approach_d_router.py:18 | the stripped, upper-cased reply is the same for two replies that differ only in case |
| Merge.Upsert | approach_c_hybrid.py:35 | `merged[p.id] = p` adds one value exactly when the id is new |
| Merge.UpsertIds | approach_c_hybrid.py:35 | assigning an existing key keeps the key order; a new key goes last |
| Merge.UpsertMembers | approach_c_hybrid.py:35 | after the assignment the dict holds `p`, every value it held under another key, and nothing else |
| Merge.UpsertFresh | approach_c_hybrid.py:35 | assigning a key the dict lacks appends the value |
| Merge.DistinctMembers | approach_c_hybrid.py:34-36 | the first-occurrence key list holds exactly the input keys, each once |
| Merge.DistinctLength | approach_c_hybrid.py:34 | the dict never holds more keys than points were written |
| Merge.WithoutMembers | approach_c_hybrid.py:34-36 | the keys of one list missing from another are exactly those |
| Merge.MergeById | approach_c_hybrid.py:34-36 | reading back the dict never yields more values than were written |
| Merge.MergeStep | approach_c_hybrid.py:35 | writing one more point is one more `Upsert` on the dict built so far |
| Merge.MergeIds | approach_c_hybrid.py:34-36 | the merged ids are the distinct input ids, in first-occurrence order |
| Merge.MergeNoDup | approach_c_hybrid.py:34-36 | no two merged values share an id |
| Merge.MergeMembers | approach_e_multiquery.py:51-54 | every merged value is one of the written points |
| Merge.MergeKeepsLast | approach_e_multiquery.py:54 | the last point written under an id is the value kept |
| Merge.MergeUnique | approach_c_hybrid.py:34 | a list whose ids are unique comes back unchanged |
| Merge.DistinctAppend | approach_c_hybrid.py:34-35 | merging `a` then `b` orders the keys of `a` first, then the keys found only in `b` |
| Sorting.SortDesc | approach_c_hybrid.py:25 | the sort keeps the length of its input |
| Sorting.SortDescSpec | rerank.py:41 | the sort is a permutation of its input, in non-increasing key order |
| Sorting.SortDescStable | rerank.py:41 | elements with equal keys keep their input order |
| Sorting.SortDescMembers | rerank.py:41 | every sorted element comes from the input |
| Sorting.SortDescSorted | rerank.py:41 | an input already in non-increasing order is left unchanged |
| Sorting.SortMap | query.py:125-129 | sorting `(item, score)` pairs and keeping the items equals sorting the items by that score |
| Rerank.LexicalSimilarity | rerank.py:10-13 | 0 when either string is empty; in [0, 1] for any ratio in [0, 1] |
| Rerank.LexicalCaseInsensitive | rerank.py:13 | the score depends only on the lower-cased arguments |
| Rerank.LexicalIdentical | rerank.py:13 | non-empty strings equal up to case score 1 |
| Rerank.RescaleAll | rerank.py:23-26 | the dict the loop fills has exactly the hit ids as keys |
| Rerank.NormalizedScores | rerank.py:15-26 | the keys are the hit ids; no hits give the empty map |
| Rerank.NormalizedRange | rerank.py:18-26 | every normalised value is in [0, 1]; equal min and max map every id to 1 |
| Rerank.NormalizedValue | rerank.py:23-26 | an id maps to the rescaled score of its last hit; a max-score hit maps to 1 and a min-score hit to 0 |
| Rerank.RescaleEnds | rerank.py:25 | the rescaling sends the maximum to 1 and the minimum to 0 |
| Rerank.NormalizeScores | rerank.py:15-26 | the method returns `NormalizedScores`, keyed by the hit ids, with values in [0, 1] |
| Rerank.RescaleScores | rerank.py:23-26 | the loop that fills `out` computes `RescaleAll` |
| Rerank.Annotate | rerank.py:35-39 | scoring a hit sets its `final_score` and changes nothing else |
| Rerank.Annotated | rerank.py:33-40 | the scored list has one entry per hit |
| Rerank.AnnotateAll | rerank.py:34-40 | one scored hit per input hit |
| Rerank.AnnotatedHits | rerank.py:38-39 | scoring keeps every hit, in order, and only sets its `final_score` |
| Rerank.ScoreHits | rerank.py:34-40 | the loop that builds `scored` computes `AnnotateAll` |
| Rerank.RerankHits | rerank.py:28-43 | the result is the first `top_k` of the stable sort of the scored hits: `len(hits[:top_k])` hits, each a scored input hit, in non-increasing final score |
| Rerank.TakeSorted | rerank.py:41-43 | a prefix of the sorted hits is sorted and drawn from the input |
| Rerank.RerankFinalBounds | rerank.py:34-37 | with 0 <= alpha <= 1 every final score is in [0, 1] |
| Rerank.ConvexBound | rerank.py:37 | a convex combination of two values in [0, 1] is in [0, 1] |
| Rerank.RerankDegenerate | rerank.py:37-41 | alpha = 1 orders by normalised vector score alone, alpha = 0 by lexical score alone |
| Rerank.AnnotatedKey | rerank.py:37 | with alpha 1 (0) a hit's final score is its vector (lexical) score |
| Rerank.WeightedEnds | rerank.py:37 | the weighted sum is the vector score for alpha 1 and the lexical score for alpha 0 |
| Query.QueryPoints | query.py:46-53 | the store answers a prefix of its ranking, of at most `limit` points |
| Query.RequestLimit | query.py:49 | the store is asked for twice `top_k` when reranking and for `top_k` otherwise, never fewer than `top_k` |
| Query.Threshold | query.py:73 | the threshold is the larger of the floor and the best score less 0.15 |
| Query.Above | query.py:74 | the comprehension keeps at most all of the input |
| Query.AboveMembers | query.py:74 | the comprehension keeps exactly the candidates at or above the threshold |
| Query.AbovePrefix | query.py:74 | when exactly the first `k` candidates reach the threshold, the comprehension keeps those `k`, in order |
| Query.RelevanceFilter | query.py:53-74 | no candidates, or a best score below the floor, give an empty result |
| Query.FilterExact | query.py:73-74 | past the floor, the kept candidates are exactly those at or above the threshold |
| Query.FilterBounds | query.py:73-74 | every kept candidate reaches the floor and lies within 0.15 of the best score |
| Query.FilterKeepsTop | query.py:65-86 | when the best score reaches the floor, the best candidate passes, so the "no results above threshold" branch is unreachable |
| Query.FilterExample | query.py:73-74 | scores 0.9, 0.8, 0.76, 0.7, 0.3 with floor 0.5 keep the first three |
| Query.RerankResults | query.py:113-129 | the result is the stable sort by similarity: a permutation of the input in non-increasing similarity |
| Query.Search | query.py:34-86 | the store is asked for `2 * top_k` points when reranking and `top_k` otherwise; the result is empty exactly when the store returns nothing or the best score is below the floor; otherwise it is the filtered points, re-sorted when reranking; every returned point is a stored point at or above the floor |
| Rag.RetrieveContext | rag.py:46-66 | the store is always asked for 5 points: the result is a prefix of the ranking of at most 5 |
| Rag.RetrieveIgnoresTopK | rag.py:46-63 | `top_k` has no effect |
| Rag.Block | rag.py:75-81 | a block opens with the `[Document` header carrying its number, then the filename ("unknown" when the payload has none) and then `score=`, and ends with `]` and a line break followed by the point's text |
| Rag.ContextString | rag.py:83 | no points give ""; one point gives its block alone; otherwise the context opens with the first point's block |
| Rag.PromptFor | rag.py:85-96 | the prompt is the header, the context string, then the question and the closing instruction, with no surrounding line breaks |
| Rag.PromptShape | rag.py:85-96 | the stripped prompt is the header, the context, then the question |
| Rag.ContextAppend | rag.py:75-83 | blocks are numbered from 1 in input order and separated by a blank line |
| Rag.MissingFilename | rag.py:76-80 | a point without a filename, at any position, is rendered with "unknown" in its header |
| Rag.MissingText | rag.py:76-80 | a point without a text, at any position, is rendered as its header ending in `]` and a line break |
| Rag.MissingPayload | rag.py:76-83 | a lone point with neither key gives a context that is just its header, numbered 1, with the filename "unknown", and a line break |
| Rag.BuildPrompt | rag.py:69-98 | the loop builds the prompt `PromptFor` describes |
| Rag.SourcesOf | rag.py:147-155 | one source per point, in order, with its id, score and filename |
| Rag.AnswerQuestion | rag.py:127-162 | no points give the fixed "not found" answer and no sources; otherwise the model's answer to the prompt over the points, and one source per point when sources are requested, none otherwise |
| Rag.NoPointsNoModel | rag.py:136-141 | with nothing retrieved the answer does not depend on the model |
| Hybrid.ScoredPairs | approach_c_hybrid.py:20-24 | every pair holds a point of the scan and its positive keyword score |
| Hybrid.Matching | approach_c_hybrid.py:21-24 | the kept points are exactly the scanned points with a positive keyword score |
| Hybrid.QueryWords | approach_c_hybrid.py:18 | the query words are non-empty, hold no whitespace and no capital letter; there are none exactly when the query is all whitespace |
| Hybrid.KeywordScore | approach_c_hybrid.py:22-23 | the score is at most the number of query words, and positive exactly when some query word occurs in the lower-cased text |
| Hybrid.FoundWords | approach_c_hybrid.py:23 | the words found in a text are at most all the words, and some are found exactly when one occurs |
| Hybrid.ScoredPoints | approach_c_hybrid.py:20-27 | the points of the scored pairs are the matching points, in scroll order |
| Hybrid.MapTake | approach_c_hybrid.py:27 | projecting then cutting equals cutting then projecting |
| Hybrid.ScorePoints | approach_c_hybrid.py:20-24 | the loop that builds `scored` computes `ScoredPairs` |
| Hybrid.KeywordSearch | approach_c_hybrid.py:10-27 | the result is the stable sort by keyword score of the matching points among the first 500 scrolled, cut to `limit` |
| Hybrid.KeywordRankingFacts | approach_c_hybrid.py:16-27 | at most `limit` points, each among the first 500 and sharing a word with the query, in non-increasing keyword score |
| Hybrid.HybridRetrieve | approach_c_hybrid.py:29-36 | the loop over the keyword points yields the merge of the vector points then the keyword points, cut to `limit` |
| Hybrid.HybridNoDup | approach_c_hybrid.py:34-36 | no two points share an id, and there are at most `limit` |
| Hybrid.HybridOrder | approach_c_hybrid.py:34-36 | the vector ids come first in vector order, then the keyword-only ids in keyword order, cut to `limit` |
| Hybrid.HybridKeywordWins | approach_c_hybrid.py:34-35 | on an id collision the keyword point is the value kept |
| Hybrid.AnswerHybrid | approach_c_hybrid.py:38-42 | with every point rendered with a score: the points are those of `hybrid_retrieve(q)` (the merge of the 5 vector and the 5 keyword results, cut to 5), with distinct ids and at most 5, and the answer is the model's reply to the prompt over them |
| Hybrid.AnswerHybridAsWritten | approach_c_hybrid.py:38-42 | as written, a reply either is the answer `AnswerHybrid` gives, over points no keyword scan found, or is the `AttributeError` raised because a point of the context is a keyword record |
| Hybrid.SharedPointFails | approach_c_hybrid.py:34-41 | a point found by both the vector search and the keyword scan makes `answer_hybrid` as written fail |
| MultiQuery.ExpandQuery | approach_e_multiquery.py:41-46 | an unparsable reply gives `[q]`; a parsable one gives the parsed list |
| MultiQuery.GatheredFrom | approach_e_multiquery.py:52-54 | every gathered point was retrieved for one of the sub-queries |
| MultiQuery.MultiQueryRetrieve | approach_e_multiquery.py:48-55 | the nested loops yield the merge of every sub-query's retrieval, cut to `top_k` |
| MultiQuery.MultiNoDup | approach_e_multiquery.py:51-55 | no two points share an id, and there are at most `top_k` |
| MultiQuery.MultiFromSubQueries | approach_e_multiquery.py:52-54 | every returned point was retrieved for some expanded query |
| MultiQuery.MultiLastWins | approach_e_multiquery.py:54-55 | for an id seen under several sub-queries the last point wins, at the id's first position |
| MultiQuery.MultiSingle | approach_e_multiquery.py:49-55 | a single expanded query gives its retrieval, deduplicated and cut; unchanged when its ids are unique |
| MultiQuery.AnswerMulti | approach_e_multiquery.py:57-60 | the points are those of `multi_query_retrieve(q)` over the expanded queries, with distinct ids and at most 5, and the answer is the model's reply to the prompt over them |
| Ingest.ChunksFrom | ingest.py:31-38 | the chunks from a start are non-empty and the first begins at that start |
| Ingest.Chunks | ingest.py:23-39 | never empty, even for the empty text; the first chunk is the first `chunk_size` characters (the whole text when it fits) at offset 0 |
| Ingest.ChunkText | ingest.py:23-39 | the while loop computes `Chunks` |
| Ingest.ChunksShort | ingest.py:28-29 | a text of at most `chunk_size` characters, the empty text included, gives exactly `[(text, 0)]` |
| Ingest.ChunksFromLayout | ingest.py:31-38 | each chunk is the window at its start, and consecutive starts are `chunk_size - overlap` apart |
| Ingest.ChunksFromLast | ingest.py:36-37 | the last chunk's window reaches the end of the text |
| Ingest.ChunksLayout | ingest.py:31-38 | first start 0; each chunk `text[start:start+chunk_size]` with a start inside the text; starts `chunk_size - overlap` apart; all chunks but the last of length `chunk_size`; the last ends at the end of the text |
| Ingest.LayoutSizes | ingest.py:33-35 | every chunk holds at most `chunk_size` characters, and all but the last exactly that many |
| Ingest.ChunksFromCover | ingest.py:31-38 | every offset from a start on lies inside some chunk |
| Ingest.ChunksCover | ingest.py:31-38 | every offset of the text lies inside some chunk |
| Ingest.ReassembleFrom | ingest.py:33-38 | the chunks from a start reassemble into the text from that start |
| Ingest.ChunksRoundTrip | ingest.py:33-38 | the first chunk, then each later chunk minus its first `overlap` characters, is the text |
| Conditional.RequiresRagIgnoresCase | approach_b_conditional.py:19 | the decision does not depend on the case of the reply |
| Conditional.RequiresRag | approach_b_conditional.py:19-20 | the reply asks for retrieval exactly when "RAG_REQUIRED" starts at some position of the stripped, upper-cased reply |
| Conditional.NeedsRag | approach_b_conditional.py:16-20 | retrieval is needed exactly when the marker occurs in the cleaned reply to the decision prompt |
| Conditional.RequiresRagExample | approach_b_conditional.py:19-20 | "rag_required because" asks for retrieval |
| Conditional.RequiresRagNegative | approach_b_conditional.py:20 | an empty reply and "NO_RAG" do not ask for retrieval |
| Conditional.AnswerConditional | approach_b_conditional.py:22-29 | without retrieval, the model's answer to the question and no sources; with it, exactly the retrieved points and the model's answer over them |
| Conditional.DirectIgnoresStore | approach_b_conditional.py:28-29 | without retrieval the store is never consulted |
| Router.Route | approach_d_router.py:18-19 | a tool other than RAG is selected exactly when the stripped, upper-cased reply is "SQL", "API" or "DIRECT", and then it is the tool of that name |
| Router.RouteQuery | approach_d_router.py:4-19 | the question goes to SQL, API or DIRECT exactly when the cleaned reply to the routing prompt is that name, and to RAG otherwise |
| Router.SqlTool | approach_d_router.py:40-41 | the fixed simulated database text, whatever the question |
| Router.ApiTool | approach_d_router.py:43-44 | the fixed simulated API text, whatever the question |
| Router.RouteIgnoresCase | approach_d_router.py:18 | the route does not depend on the case of the reply |
| Router.RouteTrimmed | approach_d_router.py:18-19 | " sql\n" selects SQL |
| Router.RouteFallback | approach_d_router.py:19 | "banana" and "SQL query" select RAG |
| Router.AnswerRouterAsWritten | approach_d_router.py:21-38 | the RAG route, and only it, raises `TypeError`; the other routes return a dict with no sources; the final tuple is never returned |
| Router.RouterRagFails | approach_d_router.py:28-29 | a model replying "banana" makes the router raise for every question |
| Router.AnswerRouter | approach_d_router.py:21-38 | the RAG route answers over the retrieved points, which are its sources; every other route returns what the dict holds |
| Router.AnswerRouterRoutes | approach_d_router.py:25-35 | DIRECT gives the model's answer to the bare question; SQL and API give their fixed strings; all three have no sources |
| UnifiedAgent.RunModeAsWritten | UnifiedAgent.py:37-49 | an unknown mode raises "Unknown mode"; hybrid mode raises `AttributeError` exactly when `answer_hybrid` as written does; router mode either raises or has the answer "answer" and the sources "sources" |
| UnifiedAgent.HybridModeFails | UnifiedAgent.py:41-42 | a point found by both the vector search and the keyword scan makes hybrid mode raise `AttributeError` |
| UnifiedAgent.UnpackRouterReply | UnifiedAgent.py:43-44 | `ans,src = ...` raises exactly on the raised reply; a dict unpacks to its two key names; a pair unpacks to its parts |
| UnifiedAgent.RouterModeUnpacksKeys | UnifiedAgent.py:43-44 | with a model that answers "DIRECT", router mode reports the dict's key names as answer and sources |
| UnifiedAgent.RunMode | UnifiedAgent.py:37-49 | raises "Unknown mode" exactly for modes outside the four; otherwise reports the lower-cased mode, the unchanged question and the approach's sources |
| UnifiedAgent.RunModeDispatch | UnifiedAgent.py:39-46 | each recognised mode reports the answer and sources of its own approach |
| UnifiedAgent.RunModeIgnoresCase | UnifiedAgent.py:38 | modes that differ only in case give the same result |

## Left out

- HTTP calls to the embedding service and the chat model (`embed_text`, `embed_texts`, `call_llm`) are function parameters. So are the Qdrant client calls (`query_points`, `scroll`, `upsert`, `recreate_collection`, `create_collection`). The stripping of the chat reply inside `call_llm`, and its `str(data)` fallback, are part of `llm`.
- The embedding and nearest-neighbour search of `retrieve_context` and `search`, including the flattening of a nested query vector, are the function `rank`.
- The NumPy cosine in `rerank_results` is the function `similarity`. A zero-norm vector and NaN ordering are not modelled.
- difflib's matching algorithm is the function `ratio`. Two assumptions are stated as `Rerank.IsRatio` and used only where a lemma requires them: values in [0, 1], and 1 on equal non-empty strings.
- `math.isclose(min_s, max_s)` is exact equality of reals. Floating-point rounding is not modelled anywhere.
- The score rendering `:.3f`, `textwrap.shorten`, every `print`, the `__main__` blocks, argparse, environment configuration, and the `importlib` loading in `UnifiedAgent` are not modelled. With loading left out, a module that fails to import is not modelled either.
- `eval` of the expansion reply is the function `parse`. A reply that evaluates to something other than a list of strings is not modelled.
- `ingest.py`'s `main` and `data_loader.py` are not part of this model: batching, uuid ids, upserts, sleeps and file parsing.
- Rerank.RerankHits: hits are values. The in-place assignment `h.final_score = ...` becomes a copy with the field set, so the caller's hit objects are not shown changing.
- Rerank.RerankHits, Query.RerankResults, Query.Search: a point whose `payload` is `None` raises `AttributeError` at rerank.py:35, query.py:115 and query.py:61, which call `.payload.get` without the `or {}` guard. The model reads a missing payload as one without text or filename, so these members return a result where the source raises.
- Hybrid.AnswerHybrid: a keyword record carries no score of its own in the source. The corrected model renders the `score` that the stored point carries in `stored`; see the finding below for the as-written failure.
- Query.Search: `top_k` is a natural number. The store's handling of a negative limit is not modelled.
- Ingest.ChunkText: requires `0 < chunk_size` and `overlap < chunk_size` when the text is longer than one chunk. With `overlap >= chunk_size` the source loops forever. With `chunk_size <= 0` the slices use Python's negative-index semantics, which are not modelled. The layout and round-trip lemmas additionally require `0 <= overlap`; a negative overlap leaves gaps between chunks.
- Case mapping covers ASCII letters only. Python's full Unicode case mapping is not modelled.

## Findings

| source | as written | input that shows it | evidently intended | confidence | as-written member | corrected member |
|---|---|---|---|---|---|---|
| approach_d_router.py:28-29 | the RAG route returns `build_prompt(question)`, a call to a two-parameter function with one argument, so it raises `TypeError`; lines 36-38 are unreachable | any question when the routing reply is not exactly a tool name, e.g. a model that replies "banana" | the RAG route retrieves the points, builds the prompt over them, asks the model, and returns the answer with the points, as lines 36-38 do | high; not executed | Router.RouterRagFails | Router.AnswerRouter |
| approach_c_hybrid.py:38-42 | the keyword scan returns records from `scroll`, which have no `score` attribute. Each keyword point replaces the vector point of the same id, and `build_prompt` reads `pt.score` of every point (rag.py:80), so `answer_hybrid` raises `AttributeError` whenever a keyword point is among the 5 returned | a question one of whose 5 vector matches is also among the keyword scan's top 5 (approach_c_hybrid.py:27), ranked by the number of query words its text contains, over the first 500 scrolled points (line 16): that point reaches the prompt as its keyword record | the answer is built over the whole hybrid context, each point rendered with a score | high that it raises; the repair shown is one of several; not executed | Hybrid.SharedPointFails | Hybrid.AnswerHybrid |
| UnifiedAgent.py:43-44 | `ans,src = self.answer_router(q)` unpacks the dict `{"answer": ..., "sources": ...}` the router returns, which yields its two keys | mode "router" with a model that replies "DIRECT" to the routing prompt: the result has answer "answer" and sources "sources" | the answer and the sources are read from the router's reply | high; not executed | UnifiedAgent.RouterModeUnpacksKeys | UnifiedAgent.RunMode |
