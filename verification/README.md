# learn-dapr-agents examples, modelled in Dafny

The repository is a set of lessons and pattern samples for Dapr Agents. The part
modelled here is the deterministic logic those scripts hold:

- the workflow bodies: chaining, routing, evaluator-optimizer, orchestrator-workers,
  the movie-night fan-out, the recipe builder and the learning-path chain;
- the plain-Python tools the agents call: `match_skills`, `recommend_books`,
  `suggest_recipes`, `add_quote` and `search_quotes`;
- the regular-expression JSON extraction `parse_json_from_response`;
- the streaming tool-call accumulator of `streaming_with_tools.py` and the tool
  dispatch that follows it.

A Dapr workflow body is a generator that yields activity calls and receives their
results. Each workflow is modelled as a pure function over an *oracle* record, with one
total function per activity. Each oracle receives the call's position in the trace as
well as its input, so two calls with equal inputs may answer differently, as an LLM
does. A workflow returns `Run(calls, outcome)`:

- `calls` is the ordered list of activity calls issued;
- `outcome` is `Completed(value)` or `Failed(error)`.

`Failed` carries the Python exception the body raises: `KeyError`, `TypeError`,
`AttributeError`, a pydantic `ValidationError` or a `JSONDecodeError`. Values that
cross activity boundaries are `Common.Json`, the JSON data model with integral
numbers.

Some Python library functions become parameters of the model, because their exact
output is outside it:

- `json.loads`, as `string -> Option<Json>`;
- `json.dumps`;
- Python's `str()` of a non-string;
- the pydantic constructors `Evaluation(**d)` and `OrchestratorPlan(**d)`.

The random choices in `pick_genres` and `pick_dish` are modelled exactly: the draws of
`random.sample` and `random.choice` are inputs, so every outcome is reachable. For a
population of five, `random.sample` uses CPython's pool algorithm: draw an index below
the pool size, take that element, and move the last element into its place.

Behaviours of the code that the contracts pin down, as written:

- **Bracket matching in `parse_json_from_response`.** The bare pattern's `.*?` is lazy.
  A reply without a code fence whose object nests another object is cut at the first
  `}`, so the candidate is not valid JSON and the raw reply comes back
  (`JsonExtraction.NestedObjectIsTruncated`).
- **Evaluator `iterations` field.** When the evaluator never accepts,
  `recipe_refinement_workflow` reports `iterations` as one more than the number of
  evaluations that ran (`Evaluator.NeverAcceptedRunsToBound`).
- **Documents without metadata.** `search_quotes` zips documents with metadatas. A
  store answer with documents but no metadata therefore yields the empty string, not
  the not-found sentence (`Quotes.SearchQuotesCases`).
- **Routing `other` category.** A routing decision with an unknown category is
  rejected by `RoutingDecision`. Only the four enum values reach the dispatch, and
  `other` goes to `handle_other` (`Routing.ToDecision`, `Routing.DispatchIsOneToOne`).

## Model

| member | source | states |
|---|---|---|
| Common.Strings | lessons/llm-workflows/movie_night_planner.py:23 | a list of Python strings as a JSON list: same length, element i is string i |
| Text.LowerChar | patterns/chaining/app.py:43 | an ASCII capital becomes its own lower-case letter (code point + 32); every other character is left alone |
| Text.Lower | patterns/chaining/app.py:38 | ASCII lower-casing, the part of `str.lower()` modelled here, keeps the length and treats every character independently |
| Text.LowerIdempotent | patterns/stateful-llm/app.py:35 | lower-casing twice is lower-casing once, so a lookup keyed on `lower()` cannot tell a string from its lower-cased form |
| Text.Join | lessons/llm-workflows/movie_night_planner.py:45 | `sep.join(parts)` is empty for no parts and the part itself for one |
| Text.JoinSnoc | lessons/llm-workflows/recipe_builder.py:38 | joining one more part appends the separator and that part |
| Text.Strip | lessons/basic-agents/simple_agent_workflow.py:23 | `str.strip()` is the slice between the first and last non-whitespace characters; no whitespace at either end; empty when the string is all whitespace |
| Text.JoinSplit | lessons/llm-workflows/movie_night_planner.py:45 | splitting on the separator and joining back gives the original text |
| Text.SplitJoin | lessons/llm-workflows/movie_night_planner.py:45 | joining separator-free parts and splitting again gives the parts back |
| Text.JoinContains | lessons/basic-agents/simple_agent_vector_store.py:32 | every part occurs in the joined text |
| JsonExtraction.FindFenced | lessons/basic-agents/simple_agent_workflow.py:13 | the scanner returns the leftmost fence with a match, and the shortest group end for it; `None` exactly when the fenced pattern matches nowhere |
| JsonExtraction.FindBare | lessons/basic-agents/simple_agent_workflow.py:18 | the scanner returns the leftmost bracket with a match and its nearest closer; `None` exactly when the bare pattern matches nowhere |
| JsonExtraction.FindFenceEnd | lessons/basic-agents/simple_agent_workflow.py:13 | the lazy group of a fenced match ends at the first closing bracket that whitespace and a closing fence follow |
| JsonExtraction.FindClose | lessons/basic-agents/simple_agent_workflow.py:18 | the first index holding the closing bracket, with none before it |
| JsonExtraction.BracketStart | lessons/basic-agents/simple_agent_workflow.py:13 | the group of a fenced match starts after the fence, the optional `json` tag and the whitespace run |
| JsonExtraction.Candidate | lessons/basic-agents/simple_agent_workflow.py:12-23 | the text handed to `json.loads` is never longer than the reply; its value in each of the three stages is stated by the `JsonExtraction.CandidateFenced`, `JsonExtraction.CandidateBare` and `JsonExtraction.CandidateStripped` rows |
| JsonExtraction.CandidateFenced | lessons/basic-agents/simple_agent_workflow.py:13-15 | when the fenced pattern matches, the candidate is the group of the leftmost match |
| JsonExtraction.CandidateBare | lessons/basic-agents/simple_agent_workflow.py:16-20 | with no fenced match, the candidate is the leftmost bare bracket span |
| JsonExtraction.CandidateStripped | lessons/basic-agents/simple_agent_workflow.py:21-23 | with neither pattern matching, the candidate is the stripped reply |
| JsonExtraction.LeftmostFencedExists | lessons/basic-agents/simple_agent_workflow.py:13-14 | if any fenced match exists, `re.search` reports one |
| JsonExtraction.LeftmostFencedUnique | lessons/basic-agents/simple_agent_workflow.py:13 | the reported fenced match is unique |
| JsonExtraction.LeftmostBareUnique | lessons/basic-agents/simple_agent_workflow.py:18 | the reported bare match is unique |
| JsonExtraction.ParseJsonFromResponse | lessons/basic-agents/simple_agent_workflow.py:10-29 | the parsed candidate when `json.loads` accepts it, else the original reply unchanged as a string |
| JsonExtraction.NestedObjectIsTruncated | lessons/basic-agents/simple_agent_workflow.py:18 | the lazy bare pattern cuts a nested object at its first `}`, so the reply comes back unparsed |
| JsonExtraction.FencedBlockCandidate | lessons/basic-agents/simple_agent_workflow.py:13-15 | a reply that is just a ```` ```json ```` block around a bracketed, backtick-free text yields that whole text, inner closing brackets included |
| LearningPath.BuildLearningPath | lessons/basic-agents/simple_agent_workflow.py:48-62 | three calls in order; each later call receives `json.dumps` of the previous reply after extraction; the result is the extracted schedule |
| LearningPath.FencedRepliesChain | lessons/basic-agents/simple_agent_workflow.py:48-62 | when each agent answers with a fenced JSON block the parser accepts, each step receives `json.dumps` of exactly the previous block's value and the workflow returns the last block's value |
| Chaining.RoleRequirements | patterns/chaining/app.py:32-36 | unknown roles have no requirements; each known role lists at least five |
| Chaining.MatchSkills | patterns/chaining/app.py:29-46 | the loop keeps exactly the skills the reference filter `Kept` keeps against the lower-cased role's requirements; nothing for an unknown role |
| Chaining.AnyMatch | patterns/chaining/app.py:42-45 | the inner loop reports a match exactly when some requirement contains the lower-cased skill or is contained in it, stopping at the first |
| Chaining.KeptNone | patterns/chaining/app.py:38-46 | with no requirements no skill is kept |
| Chaining.KeptIsSubsequence | patterns/chaining/app.py:40-46 | the matched skills are a subsequence of the input skills, in input order, so never more of them |
| Chaining.KeptCounts | patterns/chaining/app.py:41-45 | a skill that matches some requirement is kept as many times as it occurs; any other skill is dropped |
| Chaining.RoleCaseInsensitive | patterns/chaining/app.py:37-38 | the role lookup ignores the letter case of the role |
| Chaining.JobApplication | patterns/chaining/app.py:69-91 | three calls in order; the profile's dict goes to the outline step, the unwrapped outline to the letter step; the result is the unwrapped letter |
| Chaining.UnwrapEnvelope | patterns/chaining/app.py:81 | `UnwrapContent` takes exactly one `{"content": v}` envelope off and leaves a reply without a `content` entry alone |
| Chaining.JobApplicationIgnoresEnvelope | patterns/chaining/app.py:69-91 | agents that wrap each reply in a `content` envelope give the same calls and the same letter as agents that answer with the bare value |
| Routing.BatchSeesOnlyContent | patterns/routing/app.py:36-90 | the batch reads replies only through `Unwrap`: oracles whose replies carry the same content, as response objects or bare values, give the same calls and results |
| Routing.ProcessTicketsSeesContent | patterns/routing/app.py:40-88 | the same, for the loop from any ticket on |
| Routing.ParseQueryType | patterns/routing/app.py:21-25 | exactly the four enum string values parse, each to its own member |
| Routing.ToDecision | patterns/routing/app.py:31-33 | a non-mapping raises TypeError; a mapping is accepted exactly when `query_type` is one of the four enum values and `reason` is a string, giving that category and reason; a missing field, an unknown category or a non-string reason is a ValidationError |
| Routing.DecisionRoundTrip | patterns/routing/app.py:31-33 | validation reads every decision back from its `{"query_type", "reason"}` JSON form |
| Routing.ItSupportBatch | patterns/routing/app.py:36-90 | no tickets give no calls and an empty result list |
| Routing.ProcessTicketsSpec | patterns/routing/app.py:40-88 | the loop, from any handled prefix, keeps every ticket handled in order; a rejected decision stops it right after that ticket's route call |
| Routing.ItSupportBatchSpec | patterns/routing/app.py:36-90 | a completed batch has two calls per ticket: route, then the handler of its category. It has one record per ticket: 1-based number, query, category value and unwrapped reply. A failed batch stopped at the first ticket whose decision raised that error |
| Routing.DispatchIsOneToOne | patterns/routing/app.py:62-69 | each category reaches its own handler and `handle_other` serves exactly `other` |
| Evaluator.RecipeRefinement | patterns/evaluator/app.py:24-68 | missing `request` or `criteria` raises KeyError before any call; a non-numeric `max_iterations` raises TypeError after the first draft |
| Evaluator.ExtendTrace | patterns/evaluator/app.py:39-62 | a call that follows from the last one keeps the generate/evaluate alternation well formed |
| Evaluator.StopAfterEvaluation | patterns/evaluator/app.py:46-55 | a run that stops at an evaluation (rejected reply or acceptance) satisfies the loop's promise |
| Evaluator.RefineSpec | patterns/evaluator/app.py:39-68 | from any consistent loop state, the calls alternate generate/evaluate and each follows from the one before. At most max(max_iterations, 0) evaluations run. A completed run returns the latest draft, with the accepting evaluation's count and score, or bound + 1 and the last score (0 if none). A failure comes from the last evaluation's conversion |
| Evaluator.ExhaustedBound | patterns/evaluator/app.py:39-68 | once the iteration counter passes the bound the loop ends with the last draft, and `iterations` is bound + 1 |
| Evaluator.RejectStep | patterns/evaluator/app.py:39-62 | a rejecting evaluation followed by a regeneration with its feedback keeps the trace well formed and adds one evaluation, one generation and one rejection |
| Evaluator.EvaluateAndStop | patterns/evaluator/app.py:41-55 | an evaluation that is rejected as malformed or accepts the draft ends the loop within the promise |
| Evaluator.RefineAgain | patterns/evaluator/app.py:39-62 | after a rejection inside the bound, the loop continues with the regenerated draft and the whole run still meets the promise |
| Evaluator.RecipeRefinementSpec | patterns/evaluator/app.py:24-68 | the whole workflow meets that promise, starting from the unprompted first draft |
| Evaluator.NeverAcceptedRunsToBound | patterns/evaluator/app.py:39-67 | an evaluator that never accepts yields 2·bound + 1 calls and `iterations` = bound + 1 |
| Evaluator.DefaultIsTwo | patterns/evaluator/app.py:28 | leaving `max_iterations` out behaves exactly as passing 2 |
| Orchestrator.DispatchSpec | patterns/orchestrator/app.py:52-58 | the worker loop issues one `execute_task` per task in plan order; each output carries its task's id and that call's reply; earlier calls are kept |
| Orchestrator.ConferencePlanningSpec | patterns/orchestrator/app.py:31-69 | `create_plan` comes first and once, with the request. A rejected plan ends the run there. Otherwise there is one worker call per task, then `synthesize_plan` last with the request and one output per task, in order. Tasks + 2 calls |
| PyRandom.Remove | lessons/llm-workflows/movie_night_planner.py:29 | taking index j from the pool leaves one element fewer |
| PyRandom.RemoveTakesOne | lessons/llm-workflows/movie_night_planner.py:29 | the pool after a draw, plus the drawn element, is the pool before, as a multiset |
| PyRandom.Sample | lessons/llm-workflows/movie_night_planner.py:29 | `random.sample` returns one element per draw, all drawn from the population without replacement (a sub-multiset) |
| PyRandom.DistinctCountsOne | lessons/llm-workflows/movie_night_planner.py:29 | in a list of distinct elements each element occurs once |
| PyRandom.SubMultisetDistinct | lessons/llm-workflows/movie_night_planner.py:29 | a sample from a population of distinct options has no repeats |
| Common.IndexOf | lessons/llm-workflows/recipe_builder.py:25 | the position of the first occurrence of an element of the list |
| PyRandom.SampleReaches | lessons/llm-workflows/movie_night_planner.py:29 | every sub-multiset arrangement of the population is some sequence of valid draws' sample |
| PyRandom.SampleReachesDistinct | lessons/llm-workflows/movie_night_planner.py:29 | every arrangement of distinct population members is the sample of some draws |
| PyRandom.Choice | lessons/llm-workflows/recipe_builder.py:25 | `random.choice` returns an element of the list |
| MovieNight.PickGenres | lessons/llm-workflows/movie_night_planner.py:27-30 | three genres, each one of the five options, no two alike |
| MovieNight.OptionsDistinct | lessons/llm-workflows/movie_night_planner.py:28 | the five genre options are pairwise different |
| MovieNight.PickGenresCoversAll | lessons/llm-workflows/movie_night_planner.py:29 | every ordered triple of different options is the pick of some draws |
| MovieNight.RecommendMovie | lessons/llm-workflows/movie_night_planner.py:33-41 | the reply is the genre, `": "`, then the table's title |
| MovieNight.RecommendMovieTable | lessons/llm-workflows/movie_night_planner.py:34-41 | the title is `Unknown` exactly for genres outside the five options, and different options get different titles |
| MovieNight.TitleUnknown | lessons/llm-workflows/movie_night_planner.py:34-41 | `Unknown` is the title of exactly the genres outside the table |
| MovieNight.RecommendMovieInjective | lessons/llm-workflows/movie_night_planner.py:33-41 | two different options never get the same recommendation |
| MovieNight.SummarizePlan | lessons/llm-workflows/movie_night_planner.py:44-45 | the plan is the header followed by the recommendations joined by newlines |
| MovieNight.SummaryListsRecommendations | lessons/llm-workflows/movie_night_planner.py:45 | splitting the plan's body on newlines gives back the newline-free recommendations |
| MovieNight.GenreItems | lessons/llm-workflows/movie_night_planner.py:21 | `genres["genres"]` on a non-dict raises TypeError and on a dict without the key raises KeyError; a list is iterated item by item; an empty str or dict gives no items; any other value raises TypeError before any call |
| MovieNight.Name | lessons/llm-workflows/movie_night_planner.py:21 | `g["name"]` is the entry's name; KeyError without one, TypeError on a non-dict |
| MovieNight.FanOutSpec | lessons/llm-workflows/movie_night_planner.py:21-22 | one `recommend_movie` call per genre entry, in list order, with that entry's name; replies gathered in task order; the first nameless entry raises its error |
| MovieNight.MovieNightSpec | lessons/llm-workflows/movie_night_planner.py:18-24 | `pick_genres` first and once. On a genre list, one recommendation call per genre, then `summarize_plan` with the replies in task order; its reply is the result. A malformed list or entry raises Python's error |
| MovieNight.GenresJson | lessons/llm-workflows/movie_night_planner.py:30 | the `Genres` model as JSON: one entry per name, each carrying that name |
| MovieNight.Recommendations | lessons/llm-workflows/movie_night_planner.py:21-22 | one recommendation per genre, in order |
| MovieNight.MovieNightWithScriptActivities | lessons/llm-workflows/movie_night_planner.py:18-45 | with the script's own tasks, the run recommends one film per picked genre and returns the header plus those recommendations |
| MovieNight.ThreeGenresThreeRecommendations | lessons/llm-workflows/movie_night_planner.py:18-24 | three distinct picked genres give five calls, the middle three recommending those genres in pick order |
| MovieNight.MovieNightPicksThree | lessons/llm-workflows/movie_night_planner.py:18-45 | end to end: five calls, and the middle three recommend three different option genres |
| RecipeBuilder.PickDish | lessons/llm-workflows/recipe_builder.py:24-25 | the picked dish is one of the three dishes |
| RecipeBuilder.PickDishCoversAll | lessons/llm-workflows/recipe_builder.py:25 | every dish is some draw's pick |
| RecipeBuilder.GetIngredients | lessons/llm-workflows/recipe_builder.py:28-34 | unknown dishes get no ingredients; each listed dish gets three |
| RecipeBuilder.PickedDishHasIngredients | lessons/llm-workflows/recipe_builder.py:24-34 | whatever is drawn, the picked dish has ingredients |
| RecipeBuilder.SummarizeRecipe | lessons/llm-workflows/recipe_builder.py:37-38 | the sentence is `To make `, the dish, `, you'll need: `, the ingredients joined by `, `, and a full stop, each segment at its place |
| RecipeBuilder.SummaryNamesEverything | lessons/llm-workflows/recipe_builder.py:37-38 | the sentence contains the dish and every ingredient |
| RecipeBuilder.RecipeBuilderWorkflow | lessons/llm-workflows/recipe_builder.py:16-21 | three calls; each activity's reply feeds the next unchanged; the summary is the result |
| RecipeBuilder.RecipeBuilderWithScriptActivities | lessons/llm-workflows/recipe_builder.py:16-38 | with the script's own tasks, the run returns the sentence for the drawn dish and its three ingredients |
| SuggestRecipes.Suggest | lessons/basic-agents/durable_agents.py:19-36 | vegetarian recipes exactly for `vegetarian`, keto exactly for `keto` (any case), the fallback otherwise; always two recipes of three ingredients |
| SuggestRecipes.SuggestIgnoresCase | lessons/basic-agents/durable_agents.py:22-27 | a preference and its lower-cased form get the same suggestions |
| Books.RecommendBooks | patterns/stateful-llm/app.py:29-46 | the genre's shelf for the three known genres (any case), nothing otherwise; always zero or two books |
| Books.RecommendBooksIgnoresCase | patterns/augmented-llm/app.py:18-35 | a genre and its lower-cased form get the same books |
| Books.ShelvesAreDisjoint | patterns/stateful-llm/app.py:32-45 | no book sits on two shelves |
| Quotes.AddedReply | lessons/basic-agents/simple_agent_vector_store.py:44 | the fallback sentence exactly when no id came back; otherwise the prefix followed by the first id |
| Quotes.AddedReplyIdentifies | lessons/basic-agents/simple_agent_vector_store.py:44 | two equal replies come from store answers that agree on whether an id came back and on the first id |
| Quotes.AddQuote | lessons/basic-agents/simple_agent_vector_store.py:35-44 | the stored document holds the content and the metadata `QuoteMetadata` derives (`{}` for an empty string, the parsed value, or `{"info": metadata}` when `json.loads` fails), and the reply is `AddedReply` of the ids the store returned for that document |
| Quotes.SearchQuotes | lessons/basic-agents/simple_agent_vector_store.py:24-32 | no documents give the not-found sentence; otherwise the blocks joined by the divider |
| Quotes.SearchQuotesCases | lessons/basic-agents/simple_agent_vector_store.py:28-32 | with `results.get(key, [])` as `Field`: the not-found sentence appears exactly when there are no documents; documents without metadata give ""; otherwise the reply opens with `Quote: ` |
| Quotes.SearchQuotesShowsEveryPair | lessons/basic-agents/simple_agent_vector_store.py:32 | every zipped document/metadata pair appears in the reply as its `Blocks` entry, `Quote: ` and the document then `\nMetadata: ` and the metadata, each rendered by `Str` as an f-string does |
| Streaming.Find | lessons/llm-calls/streaming_with_tools.py:52 | `tool_call.index not in tool_calls`: the position of the entry with that index, or none exists |
| Streaming.Contents | lessons/llm-calls/streaming_with_tools.py:67-68 | only non-empty content pieces are collected |
| Streaming.AbsorbChunk | lessons/llm-calls/streaming_with_tools.py:51-64 | the inner loop folds one chunk's tool-call fragments into the accumulated entries |
| Streaming.Accumulate | lessons/llm-calls/streaming_with_tools.py:43-69 | the chunk loop's tool-call table equals the reference `Expected` over all fragments, and its content list is the non-empty contents in order |
| Streaming.FirstPos | lessons/llm-calls/streaming_with_tools.py:52-60 | the first fragment carrying an index, or no fragment carries it |
| Streaming.Expected | lessons/llm-calls/streaming_with_tools.py:43-64 | the reference table: one entry per distinct index in first-seen order, each built from that index's fragments |
| Streaming.FirstPosSnoc | lessons/llm-calls/streaming_with_tools.py:52 | a new fragment changes no index's first position except its own, which it sets only if the index is new |
| Streaming.ArgsOfUnseen | lessons/llm-calls/streaming_with_tools.py:58 | an index never seen has accumulated no arguments |
| Streaming.IndicesFacts | lessons/llm-calls/streaming_with_tools.py:52-53 | the table's indices are distinct, are exactly the indices seen, and are ordered by first appearance |
| Streaming.FindInExpected | lessons/llm-calls/streaming_with_tools.py:52 | looking up a seen index in the reference table finds it at its first-seen position |
| Streaming.EntryForKnown | lessons/llm-calls/streaming_with_tools.py:62-64 | a fragment for a seen index adds no index and extends that entry's arguments by its own |
| Streaming.FoldSnoc | lessons/llm-calls/streaming_with_tools.py:51-64 | folding one more fragment is absorbing it into the table built so far |
| Streaming.EntryForOther | lessons/llm-calls/streaming_with_tools.py:64 | a fragment leaves the other indices' entries unchanged |
| Streaming.AbsorbKnown | lessons/llm-calls/streaming_with_tools.py:63-64 | a fragment for a known index appends its arguments to that entry only |
| Streaming.AbsorbNew | lessons/llm-calls/streaming_with_tools.py:52-64 | a fragment for a new index adds one entry at the end, from its id, type, name and arguments |
| Streaming.FoldIsExpected | lessons/llm-calls/streaming_with_tools.py:46-64 | folding fragments one by one yields the reference table |
| Streaming.AccumulatedCalls | lessons/llm-calls/streaming_with_tools.py:43-64 | every entry has a distinct index. Its id and type come from its index's first fragment, and its name is that fragment's name or `''` (`NameOf`). Its arguments are all that index's non-null argument fragments (`Fragment`) in arrival order. Entries follow first appearance |
| Streaming.AssistantMessageListsStreamedCalls | lessons/llm-calls/streaming_with_tools.py:43-91 | the assistant message's k-th record (`Records`) carries the id, type and name of the first fragment of the k-th index seen and all that index's arguments |
| Streaming.DispatchTellsBranches | lessons/llm-calls/streaming_with_tools.py:101-104 | a successful `Dispatch` reply starts with the unknown-function text exactly when the name is not `get_weather` |
| Streaming.DispatchNamesCity | lessons/llm-calls/streaming_with_tools.py:101-102 | a successful `get_weather` dispatch had a `city` argument, and its reply minus the fixed lead and tail is that city as an f-string renders it |
| Streaming.GetWeatherReadsBack | lessons/llm-calls/streaming_with_tools.py:14-16 | the weather sentence gives its city back, so different cities get different sentences |
| Streaming.ExecuteCalls | lessons/llm-calls/streaming_with_tools.py:94-113 | the tool loop only appends to the conversation: the messages it started from are kept unchanged as a prefix |
| Streaming.Finish | lessons/llm-calls/streaming_with_tools.py:74-127 | with tool calls the script takes the tool round, without them it only prints content |
| Streaming.ExecuteCallsSpec | lessons/llm-calls/streaming_with_tools.py:94-113 | from any answered prefix, every call gets one tool message in order, answering its id with its `ToolOutput` (`json.loads` of the arguments, JSONDecodeError when that fails, then the dispatch); an exception stops at the call that raised it |
| Streaming.FinishSpec | lessons/llm-calls/streaming_with_tools.py:74-127 | with no tool calls the printed text is the content pieces run together, or nothing. With tool calls the conversation gains the assistant message, then one tool message per call in order. An exception stops the loop at the call that raised it |
| Streaming.PrintedContentIsAllContent | lessons/llm-calls/streaming_with_tools.py:66-127 | the pieces joined at the end print the same text the chunks streamed |

## Left out

- Dapr's workflow runtime is not modelled: replay, durability, `when_all` scheduling and
  the conversion of activity inputs and outputs (`model_dump`, re-validation of a
  returned model). A workflow is the order of the calls it yields and how it uses their
  replies.
- The LLM-backed activities, agents and prompts (`@task` functions without a body,
  `Agent`/`DurableAgent`, `OpenAIChatClient`) are left out. They are the oracles.
- `streaming_with_tools.py` lines 115-123 are not modelled: the final streamed LLM call
  after the tool round only prints. Printing, logging and the console output of the
  routing loop are not modelled either.
- Floating-point values are not modelled: JSON numbers are integers, and
  `Evaluation.score` is an `int`.
- Evaluator.RecipeRefinement: pydantic's `Evaluation(**d)` is a parameter, so its lax
  coercions and the exact set of dicts it accepts are not stated.
- Orchestrator.ConferencePlanningSpec: the same holds for `OrchestratorPlan(**d)`.
- Routing.ToDecision: follows pydantic 2's default mode for this model: the four enum
  strings and a string `reason`; extra keys are ignored. No other coercion into
  `reason` is modelled.
- Quotes.AddQuote: the vector store and its `Document` class are not part of this
  model. The store's `add_documents` and `search_similar` are inputs; `Document`
  validation is not modelled.
- Text.Lower: lower-cases ASCII letters only; Python's full Unicode case mapping is
  not modelled. The same holds for `Chaining.MatchSkills`, `SuggestRecipes.Suggest` and
  `Books.RecommendBooks`, which use it.
- Streaming.Dispatch: `str()` of the arguments and the weather sentence's `°C` are
  plain text; the keyword-argument binding of `get_weather(**args)` is modelled only as
  "exactly the key `city`".
- MovieNight.PickGenres: the random generator itself (`randbelow`) is not modelled.
  Its draws are inputs constrained to their ranges.
- The agent-configuration scripts (stock tools, MCP server and client, chainlit
  document agent, observability, memory) are context, not part of this model.
