# Finance chatbot core in Dafny

This project models the deterministic core of a finance chatbot. The chatbot
routes each user query to one of three crewai "expert" tasks, asks an LLM
crew for an answer, and passes that answer to a refiner task that formats it
as a report. There are three front ends: a Gradio app built in two versions
(`interface.py`, `app.py`) and a terminal loop (`main.py`). All three share
the helpers in `utils.py` and the task builders in `tasks.py`.

What is modelled:

- **Classifier reply parse** (`utils.py`, `determine_question_type`). The
  reply is stripped and split on `"\n"`. The label comes from line 0 and the
  extra data from line 1. The parse fails open to
  `("finance_knowledge", query)`.
- **News and quote shaping** (`search_news`, `get_stock_data`). Each takes
  the outcome of its HTTP request as an input: a decoded payload, or one of
  the failure kinds the code catches.
- **Retrieved contexts** (module `Contexts`). Texts are shortened to 150 or
  300 characters and rendered as `Source:/Content:` blocks. There are two
  usefulness heuristics:
  - the token test of the two Gradio versions;
  - the whole-query test of `main.py` and `tasks.py`.
- **The four task builders of `tasks.py`** (module `Tasks`). A `Task`
  records which builder made it and the data its prompt is built from. It
  also records the template choice where the builder chooses one.
- **crewai's `Crew`** (module `Crews`). It is a class with a mutable
  `tasks` list and a `Kickoff` method. The LLM is a parameter: a function
  from the task list to either an output or a raised exception.
- **`get_response` in `interface.py`**. It uses a fresh crew per call, the
  150-character shortening, two RAG flags and a note with three states.
- **`get_response` in `app.py`**. It uses one shared crew, the
  300-character shortening and a note with two states.
- **The `main()` loop of `main.py`**. It runs over a finite sequence of
  input lines, whose end stands for `EOFError`. The call at `main.py:46`
  passes a keyword argument (`rag_insufficient=`) that
  `get_response_refiner_task` does not declare. Python therefore raises
  `TypeError` on every query that reaches it, and the loop's handler prints
  an error. The model proves that no final report is ever printed.

Python's string operations (`strip`, `split`, `replace`, `lower`, `join`,
`in`) are modelled in module `PyStr`. `split`, `replace`, `join` and `in`
are modelled exactly on any characters. The whitespace set that `strip()`
and `split()` use, and the case mapping of `lower()`, are restricted to
ASCII.

The Dafny side is organised as six module layers:

- `PyStr`;
- `Utils`;
- `Contexts`;
- `Tasks`;
- `Crews` and `Routing`;
- the three front ends `Interface`, `App` and `MainLoop`.

## Model

| member | source | states |
|---|---|---|
| PyStr.Strip | utils.py:156 | `strip()` is `rstrip()` of `lstrip()`; its properties are the lemmas below |
| PyStr.StripFacts | utils.py:156 | `strip()` leaves no whitespace at either end; it leaves nothing exactly when the text is all whitespace, and returns a text with no whitespace at its ends unchanged |
| PyStr.StripDropsTrailingSpace | utils.py:156 | `strip()` ignores an all-whitespace suffix: `(x + w).strip() == x.strip()` |
| PyStr.StripKeepsAbsent | utils.py:156 | stripping introduces no character, so a reply without a line break stays without one |
| PyStr.SplitOn | utils.py:156 | `split("\n")` yields at least one piece, no piece holds the separator, and joining the pieces with the separator gives back the text |
| PyStr.Join | interface.py:41 | `sep.join(parts)`: the parts in order with the separator between neighbours; every part occurs in the result (`PyStr.JoinContainsPart`) |
| PyStr.JoinContainsPart | interface.py:41 | every part occurs in the joined text |
| PyStr.SplitOnJoin | utils.py:156 | splitting undoes joining for pieces that hold no separator |
| PyStr.Replace | utils.py:159-160 | `replace(p, "")` changes nothing when `p` does not occur and never lengthens the text |
| PyStr.ReplaceFirst | utils.py:159-160 | the leftmost occurrence is the one replaced: for `a + p + b` where no occurrence of `p` starts inside `a`, the result is `a`, the replacement, then the replace of `b` |
| PyStr.FirstOccurrenceExists | utils.py:159-160 | every text that contains `p` splits as `a + p + b` at its first occurrence; with `ReplaceFirst` and the no-occurrence clause of `Replace` this fixes the result of `replace` on every text |
| PyStr.Words | interface.py:42 | `split()` gives non-empty, whitespace-free tokens that occur in the text, and none exactly when the text is all whitespace |
| PyStr.WordsSkipsBlanks | interface.py:42 | leading whitespace yields no token |
| PyStr.WordsLeadingRun | interface.py:42 | a maximal whitespace-free run at the start is the first token and the tokens of the rest follow; with `WordsSkipsBlanks` this makes the tokens exactly the maximal runs, in order |
| PyStr.WordLengthOfRun | interface.py:42 | the first token's length is that of the whitespace-free run ended by the end of the text or a blank |
| PyStr.Lower | interface.py:42 | `lower()` keeps the length and maps each character on its own (`PyStr.LowerConcat`), keeping whitespace as whitespace (`PyStr.LowerKeepsSpace`) |
| PyStr.ContainsLower | interface.py:42 | an occurrence survives lower-casing both sides |
| Utils.ParseClassifierReply | utils.py:153-165 | the category is always one of the three labels (never `out_of_scope`); fewer than two lines gives the fallback; an unknown label gives the fallback; otherwise the result is the cleaned label of line 0 and the cleaned extra data of line 1 |
| Utils.DetermineQuestionType | utils.py:153-165 | a classifier kickoff that raises gives `("finance_knowledge", query)`; the category is always a known label |
| Utils.SingleLineReplyFallsBack | utils.py:156-158 | a reply without a line break falls back to `("finance_knowledge", query)` |
| Utils.CategoryLine | utils.py:159 | the line `Category: c` yields the label `c` for each of the three labels |
| Utils.ExtraDataLine | utils.py:160 | the line `Extra Data: d` yields `d.strip()` when `d` holds no further prefix |
| Utils.ParseWellFormedReply | utils.py:156-163 | round trip: a reply written in the requested two-line format parses back to its label and stripped extra data, whatever lines follow (blank or not), whenever something after the `Extra Data: ` prefix is not blank |
| Utils.EmptyExtraDataKeepsLabel | utils.py:156-163 | the complementary case: when everything after the `Extra Data: ` prefix is blank, the strip removes the prefix's own blank, so the prefix no longer matches and the extra data is the text `Extra Data:` itself |
| Utils.ReplyLinesWithContent | utils.py:156-163 | a reply whose lines after the second are not all blank parses from its first two lines; trailing blanks go to the strip |
| Utils.ReplyTrailingBlanks | utils.py:156-163 | a reply whose second line ends in a non-blank and is followed only by whitespace parses from its first two lines, as if the whitespace were absent |
| Utils.ReplyMoreLines | utils.py:156-163 | lines after the second are ignored as long as they are not all blank |
| Utils.EmptySecondLineAccepted | utils.py:156-160 | an empty second line is not a failure; it yields empty extra data |
| Utils.ParseOfStripped | utils.py:156 | the parse depends on the reply only through its stripped form |
| Utils.SearchNews | utils.py:64-87 | the answer never holds more than `max_results` items (one when `max_results` is 0) |
| Utils.SearchNewsReceived | utils.py:64-76 | with organic results: the first `max_results` of them in order, missing title/link/snippet read as ""; with none: exactly the single placeholder item |
| Utils.SearchNewsFailed | utils.py:78-87 | a failed request gives exactly one error item, with an empty url |
| Utils.NewsErrorTitle | utils.py:78-87 | the title of the error item for each failure kind: "Connection Error", "Timeout Error", "Rate Limit Exceeded" for status 429, "HTTP Error" for any other status, "Error" otherwise; used by `Utils.SearchNewsFailed` |
| Utils.NewsErrorSnippet | utils.py:78-87 | the snippet of the error item for each failure kind; only the non-429 HTTP failure shows the error text |
| Utils.SearchNewsRateLimited | utils.py:82-84 | status 429 gives the "Rate Limit Exceeded" item |
| Utils.SearchNewsNeverEmpty | utils.py:64-87 | the answer is empty only when organic results exist and `max_results` is 0 |
| Utils.GetStockData | utils.py:95-113 | the symbol asked for is always in the answer; it has an "error" key exactly when no non-empty quote came back; otherwise it has price, change and change_percent |
| Utils.GetStockDataError | utils.py:96-97 | without a quote the answer is exactly `{symbol, error}` with the message for the failure kind |
| Utils.StockErrorMessage | utils.py:96-113 | the "error" text for a missing quote (lines 96-97) and for each failure kind (lines 104-113), with status 429 told apart from other HTTP errors; used by `Utils.GetStockDataError` |
| Utils.GetStockDataQuote | utils.py:98-103 | with a quote the answer has exactly the four keys, each quote field defaulting to "N/A" |
| Contexts.Shorten | interface.py:34-35 | the text is unchanged exactly when it fits; its length becomes min(length, limit); a longer text keeps its first limit-3 characters and ends in "..." |
| Contexts.ShortenIdempotent | app.py:35-36 | shortening twice is shortening once |
| Contexts.ShortenAll | interface.py:31-39 | one entry per context, in order, each keeping its source and fitting the limit |
| Contexts.ShortenContexts | interface.py:31-39 | the loop builds exactly the list of shortened contexts |
| Contexts.ShortenAllKeepsShort | interface.py:34-35 | contexts that already fit are kept as they are |
| Contexts.Render | interface.py:41 | the rendering is empty exactly when there are no contexts |
| Contexts.RenderContainsContext | interface.py:41 | every context's text and source occur in the rendering |
| Contexts.RenderStartsWithLabel | interface.py:41 | a non-empty rendering starts with "Source: " |
| Contexts.TokenUseful | interface.py:42 | the token test (the same test is at line 42 of app.py): the rendering is longer than 30 characters and some whitespace token of the lower-cased query occurs in the lower-cased rendering; its properties are the two lemmas below |
| Contexts.BlankQueryNeverTokenUseful | interface.py:42 | an all-whitespace query has no tokens, so the token test fails for it |
| Contexts.SourceTokenAlwaysMatches | interface.py:41-42 | the token "source" in a query makes any rendering longer than 30 characters useful, because the rendering's own labels match it |
| Contexts.WholeQueryUseful | main.py:33 | the whole-query test: the rendering is longer than 50 characters and the whole lower-cased query occurs in some lower-cased context text; related to the token test by `Contexts.WholeQueryImpliesTokenUseful` |
| Contexts.EmptyQueryWholeUseful | main.py:33 | for an empty query the whole-query test passes exactly when the rendering is longer than 50 characters |
| Contexts.WholeQueryImpliesTokenUseful | main.py:33 | on the same contexts, a non-blank query that passes the whole-query test also passes the token test |
| Tasks.ItemsText | tasks.py:14 | a non-empty item list renders as text starting with "Title: "; `Tasks.ItemsTextContainsItem` states that every item reaches the text |
| Tasks.ItemsTextContainsItem | tasks.py:14 | each item's title and snippet occur in the text built from the item list |
| Tasks.ItemsTextOr | tasks.py:60 | the fallback text is used exactly for an empty list |
| Tasks.FinanceKnowledgeTask | tasks.py:9-16 | the knowledge task keeps the query and carries the three contexts retrieved for it |
| Tasks.NoContextsNoRag | tasks.py:9-16 | with no contexts the "RAG insufficient" prompt is chosen, over empty RAG data |
| Tasks.MarketNewsTask | tasks.py:57-60 | the news task keeps the query |
| Tasks.StockPromptOf | tasks.py:86-101 | the error prompt is chosen exactly when the dictionary has an "error" key, and shows that error |
| Tasks.StockAnalysisTask | tasks.py:83-85 | the stock task keeps the symbol |
| Tasks.StockPromptBranches | tasks.py:85-101 | the stock prompt shows the fetch error exactly when no quote came back; otherwise it shows `Price: p\nChange: c (cp)` with the quote's fields or "N/A" |
| Tasks.RagMessage | tasks.py:126-134 | the message is non-empty exactly for RAG_NOT_USED, and is then the fixed note |
| Tasks.RefinerTaskOf | tasks.py:122-181 | the refiner keeps query, initial response and type; it uses the out-of-scope template exactly for `out_of_scope` |
| Tasks.RefinerCarriesMessage | tasks.py:161-167 | the generic template carries the message of the given note |
| Tasks.DefaultNoteShowsNoMessage | tasks.py:122 | without a note (default NO_RAG_NEEDED) the refiner shows no message |
| Tasks.FallbackTextsUnreachable | tasks.py:13-14 | because `search_news` never returns an empty list for three results, the "No additional info" and "No recent news" texts are never used |
| Crews.Crew.constructor | interface.py:11-16 | a new crew has no tasks and has never been kicked off |
| Crews.Crew.Kickoff | interface.py:59 | kickoff answers what the LLM answers for the current task list, records that list, and leaves the list as it was |
| Routing.InitialTask | interface.py:50-56 | only `stock_analysis` builds a stock task, which gets the extra data; `market_news` builds the news task; every other category builds the knowledge task; all but the stock task get the query as typed |
| Routing.ExtraDataOnlyForStocks | main.py:35-41 | outside `stock_analysis` the first task does not depend on the extra data |
| Routing.ErrorReport | interface.py:77-78 | the error answer starts with "Error: " and is the message plus the fixed prefix and suffix |
| Routing.ErrorReportInjective | app.py:64-65 | different exception messages give different error answers |
| Interface.InterfaceFlags | interface.py:23-48 | the flags `rag_used`, `rag_insufficient` the retrieval step leaves for a category, its contexts and the query; its cases are stated by `Interface.InterfaceNoteStates` |
| Interface.ChooseNote | interface.py:62-70 | the if-chain computes the note that `NoteOfFlags` defines |
| Interface.NoteOfFlags | interface.py:62-70 | the note chosen from the category and the two flags; its cases are stated by `Interface.InterfaceNoteStates` |
| Interface.InterfaceNoteStates | interface.py:23-70 | `rag_used` holds exactly when a finance question found contexts, and `rag_insufficient` exactly when it found none or none that passed the token test; no contexts means RAG_NOT_USED; contexts give RAG_SUFFICIENT when the token test passes and RAG_LIMITED when it fails; other categories give NO_RAG_NEEDED |
| Interface.InterfaceRefinerMessage | interface.py:62-72 | the refiner always uses the generic template, and shows the RAG note exactly when a finance question found no contexts |
| Interface.InterfaceReport | interface.py:50-78 | the answer of `get_response` as a function of the query, the services and the LLM; its cases are stated by `Interface.InterfaceErrors` |
| Interface.InterfaceErrors | interface.py:59-78 | whichever kickoff raises, the answer is the error text naming its exception; otherwise it is the second kickoff's report |
| Interface.RetrieveFlags | interface.py:23-48 | the retrieval step leaves the two flags as a function of the category, the two contexts and the query |
| Interface.GetResponse | interface.py:9-78 | the answer is the report of the two kickoffs or the error text; the crew is kicked off with the initial task alone and then, only if that returned, with the refiner built from its output alone |
| App.AppNote | app.py:28-52 | the note chosen from the category, its contexts and the query; its cases are stated by `App.AppNoteStates` |
| App.AppNoteStates | app.py:28-52 | RAG_LIMITED is never produced; a finance question gets RAG_SUFFICIENT exactly when it has contexts that pass the 300-character token test, and RAG_NOT_USED otherwise; news and stock questions get NO_RAG_NEEDED; any other category keeps RAG_SUFFICIENT |
| App.AppReport | app.py:56-65 | the answer of `get_response` as a function of the query, the services and the LLM; its cases are stated by `App.AppErrors` |
| App.AppErrors | app.py:56-65 | whichever kickoff raises, the answer is the error text naming its exception; otherwise it is the refiner's report |
| App.AppFinalTasks | app.py:56-61 | the shared crew's task list when `get_response` returns; its shape is stated by `App.AppFinalTasksShape` |
| App.AppFinalTasksShape | app.py:56-61 | the shared crew is left with one task, the refiner exactly when the first kickoff returned, and never with the out-of-scope template |
| App.AppRefinerMessage | app.py:28-59 | the RAG note reaches the refiner exactly when a finance question found no contexts or none that passed the token test |
| App.DetermineRagNote | app.py:28-52 | the branch chain and the shortening loop compute the note that `AppNote` defines |
| App.GetResponse | app.py:20-65 | the answer is the refiner's report or the error text; the shared crew is emptied first, its history grows by exactly the initial task alone and, only if that returned, the refiner built from its output alone, and it ends with the task list `AppFinalTasks` describes |
| MainLoop.IsExit | main.py:21 | the exit test compares the lower-cased query with "exit"; its effect is stated by `MainLoop.ExitLineEndsSession` |
| MainLoop.IterationOutput | main.py:44-53 | the two lines one iteration prints: the error lines for the first kickoff's exception, or for the refiner call's `TypeError`; see `MainLoop.IterationPrintsError` |
| MainLoop.Transcript | main.py:19-53 | the lines a session prints for a sequence of stripped queries, and whether it ended on "exit"; its properties are the lemmas below |
| MainLoop.MainRagInsufficient | main.py:29-34 | `rag_insufficient` is false outside `finance_knowledge`; for it, true exactly when the whole-query test fails, so always true with no contexts |
| MainLoop.Queries | main.py:20 | one query per input line: the line stripped |
| MainLoop.IterationPrintsError | main.py:44-53 | every iteration that gets past the exit test prints exactly the two lines of the error handler: first a line with the "Error processing query: " prefix, then the retry prompt, and never "Goodbye!" |
| MainLoop.TranscriptAllPrinted | main.py:19-53 | if every iteration prints only error lines, so does the whole session |
| MainLoop.NoFinalReport | main.py:46-53 | no "Final Report" is ever printed: every line is "Goodbye!" or part of an error message |
| MainLoop.ExitLineEndsSession | main.py:20-23 | an exit line prints "Goodbye!" and ends the session, whatever the services or the LLM would answer |
| MainLoop.StopsAtExit | main.py:19-23 | queries after the first exit query are never read |
| MainLoop.InputsAfterExitIgnored | main.py:19-23 | input lines after the first exit line make no difference to what is printed |
| MainLoop.TranscriptLength | main.py:19-53 | without an exit query, each query adds exactly two printed lines and the session ends by running out of input |
| MainLoop.TranscriptErrorPairs | main.py:19-53 | without an exit query, the transcript is a run of error-line / retry-line pairs when each iteration prints one such pair |
| MainLoop.EveryQueryAnswered | main.py:51-53 | an error does not end the loop: without an exit line every input line gets its two error lines, as alternating error and retry lines, and "Goodbye!" is never printed |
| MainLoop.ProcessQuery | main.py:25-53 | one iteration resets the task list, kicks off the initial task alone, leaves it in place, and prints the error lines for that kickoff's exception or for the refiner call |
| MainLoop.Run | main.py:8-53 | the loop prints exactly the session transcript of its input lines and reports whether it ended on "exit" |

## Left out

- The Gradio UI, its CSS and HTML strings, and the banner and input-prompt lines of `main.py` are presentation. They are not modelled.
- crewai's agents, the prompt wording and the expected-output texts are not modelled. A `Task` records the builder, the data its prompt is made of and the template choice. The LLM is a deterministic function of the task list it is given.
- `agents.py` is not part of this model. It is configuration only, and it imports `gemini_llm`, which `utils.py` does not define.
- Qdrant, the HuggingFace embeddings, Mistral, `requests` and `load_dotenv` are network or foreign clients.
  - The vector search and the classifier kickoff are uninterpreted functions of the query.
  - Each HTTP request is an input outcome: a decoded payload, a connection failure, a timeout, an HTTP error with status and message, or any other exception.
  - The text of a caught `HTTPError` is that message.
  - `search_qdrant`'s own exception handler is folded into the search function, which may return an empty list.
- The `lru_cache` memoisation of `search_qdrant` and `determine_question_type` is left out. Both are modelled as functions of their arguments, so "same input, same result" holds by construction.
- `search_news` and `get_stock_data` are not memoised and make live HTTP calls. The model takes their answers as fixed functions of the request (the `newsResponse` and `quoteResponse` fields of `Env`), so it assumes a service answers the same request the same way within one session. A service whose answer changes between two calls for the same query is not modelled.
- App.GetResponse: the model assumes calls never overlap on the shared `finance_crew` of `app.py`. Each request runs to completion before the next begins. Gradio may serve requests concurrently. If two requests share the crew, one request's reset of the task list can land between another's append and its kickoff. That interleaving, and the lost or mixed-up tasks it would cause, is not modelled.
- Whitespace, `lower()` and `split()` are modelled over ASCII only. Unicode whitespace and case mapping are not modelled.
- `response.raw` versus `str(response)` is left out: a kickoff's output is one string.
- The end of the input sequence stands for `EOFError` from `input()`. That exception propagates out of `main()` and is not modelled further.
- Kickoff outcomes are modelled as output text or exception text. Other failures inside crewai are not separated from these.
- Nothing about the classifier reply is dropped as "blank": the code splits on every `"\n"` and keeps empty lines, and the model does the same (see `Utils.EmptySecondLineAccepted`).
