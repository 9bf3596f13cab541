/**
 * tasks.py: the four task builders. A `Task` records which builder made it
 * and the values its prompt is built from; the prompt wording, the agent and
 * the expected-output text are not modelled, except where the builder
 * chooses between two of them.
 */
module Tasks {
  import opened PyStr
  import opened Utils
  import opened Contexts

  /** What `get_stock_analysis_task` tells the agent: the fetch error, or the data text. */
  datatype StockPrompt = StockError(message: string) | StockData(dataText: string)

  /**
   * The refiner's two templates: the fixed out-of-scope report, or the
   * generic refine prompt carrying the RAG message.
   */
  datatype RefinerTemplate = OutOfScopeReport | RefineReport(ragMessage: string)

  /**
   * A crewai `Task`, as the builder that made it and the values its prompt
   * is made from: the retrieved contexts and web results, the news items,
   * the stock dictionary, or the refiner's inputs and template.
   */
  datatype Task =
    | KnowledgeTask(query: string, contexts: seq<Context>, webResults: seq<NewsItem>)
    | NewsTask(query: string, news: seq<NewsItem>)
    | StockTask(symbol: string, stockData: Fields)
    | RefinerTask(query: string, initialResponse: string, questionType: string, template: RefinerTemplate)

  /** Results and page sizes the builders ask the services for. */
  const KnowledgeTopK: nat := 3
  const TaskMaxResults: nat := 3

  const NoWebInfo: string := "No additional info from the web."
  const NoNewsFound: string := "No recent news found."

  // ---------------------------------------------------------------------------
  // News items as prompt text (tasks.py, lines 14 and 60)

  function ItemBlock(item: NewsItem): string {
    "Title: " + item.title + "\nSummary: " + item.snippet
  }

  function ItemBlocks(items: seq<NewsItem>): seq<string> {
    seq(|items|, k requires 0 <= k < |items| => ItemBlock(items[k]))
  }

  /** The items as `Title:/Summary:` blocks joined by a blank line. */
  function ItemsText(items: seq<NewsItem>): (r: string)
    ensures items != [] ==> StartsWith(r, "Title: ")
  {
    var blocks := ItemBlocks(items);
    if blocks == [] then []
    else
      var r := Join(blocks, "\n\n");
      assert r == blocks[0] || r == blocks[0] + "\n\n" + Join(blocks[1..], "\n\n");
      assert r[..7] == blocks[0][..7];
      r
  }

  /** Every item's title and snippet reach the prompt text. */
  lemma ItemsTextContainsItem(items: seq<NewsItem>, k: nat)
    requires k < |items|
    ensures Contains(ItemsText(items), items[k].title)
    ensures Contains(ItemsText(items), items[k].snippet)
  {
    var item := items[k];
    var block := ItemBlock(item);
    JoinContainsPart(ItemBlocks(items), "\n\n", k);
    assert ItemBlocks(items)[k] == block;
    assert block == ("Title: " + item.title + "\nSummary: ") + item.snippet + [];
    ContainsInfix("Title: " + item.title + "\nSummary: ", item.snippet, []);
    assert block == "Title: " + item.title + ("\nSummary: " + item.snippet);
    ContainsInfix("Title: ", item.title, "\nSummary: " + item.snippet);
    ContainsTransitive(ItemsText(items), block, item.title);
    ContainsTransitive(ItemsText(items), block, item.snippet);
  }

  /** The joined items, or `fallback` when the list is empty. */
  function ItemsTextOr(items: seq<NewsItem>, fallback: string): (r: string)
    ensures items == [] ==> r == fallback
    ensures items != [] ==> StartsWith(r, "Title: ")
  {
    if items != [] then ItemsText(items) else fallback
  }

  // ---------------------------------------------------------------------------
  // The builders

  /** `get_finance_knowledge_task(query)`: three contexts and three web results. */
  function FinanceKnowledgeTask(query: string, env: Env): (t: Task)
    ensures t.KnowledgeTask? && t.query == query
    ensures t.contexts == env.vectorSearch(query, KnowledgeTopK)
  {
    KnowledgeTask(query, env.vectorSearch(query, KnowledgeTopK),
                  SearchNews(env.newsResponse(query, TaskMaxResults), TaskMaxResults))
  }

  /** The "use RAG" prompt is chosen exactly when the whole-query test passes (line 16). */
  predicate UsesRag(t: Task)
    requires t.KnowledgeTask?
  {
    WholeQueryUseful(t.contexts, t.query)
  }

  /** `context_text` of the finance prompt. */
  function RagData(t: Task): string
    requires t.KnowledgeTask?
  {
    Render(t.contexts)
  }

  /** `web_text` of the finance prompt. */
  function WebText(t: Task): string
    requires t.KnowledgeTask?
  {
    ItemsTextOr(t.webResults, NoWebInfo)
  }

  /** With no contexts the finance prompt is the "RAG insufficient" one, over empty RAG data. */
  lemma NoContextsNoRag(query: string, env: Env)
    requires env.vectorSearch(query, KnowledgeTopK) == []
    ensures !UsesRag(FinanceKnowledgeTask(query, env)) && RagData(FinanceKnowledgeTask(query, env)) == []
  {
  }

  /** `get_market_news_task(query)`. */
  function MarketNewsTask(query: string, env: Env): (t: Task)
    ensures t.NewsTask? && t.query == query
  {
    NewsTask(query, SearchNews(env.newsResponse(query, TaskMaxResults), TaskMaxResults))
  }

  /** `news_text` of the news prompt. */
  function NewsText(t: Task): string
    requires t.NewsTask?
  {
    ItemsTextOr(t.news, NoNewsFound)
  }

  /** `data_text` of the stock prompt. */
  function StockDataText(price: string, change: string, changePercent: string): string {
    "Price: " + price + "\nChange: " + change + " (" + changePercent + ")"
  }

  /**
   * The branch of `get_stock_analysis_task` on the stock dictionary: the error
   * prompt iff it has an "error" key. Without one, the three quote keys must
   * be present (Python would raise `KeyError` otherwise).
   */
  function StockPromptOf(data: Fields): (p: StockPrompt)
    requires "error" in data || {"price", "change", "change_percent"} <= data.Keys
    ensures p.StockError? <==> "error" in data
    ensures p.StockError? ==> p.message == data["error"]
  {
    if "error" in data then StockError(data["error"])
    else StockData(StockDataText(data["price"], data["change"], data["change_percent"]))
  }

  /** `get_stock_analysis_task(symbol)`. */
  function StockAnalysisTask(symbol: string, env: Env): (t: Task)
    ensures t.StockTask? && t.symbol == symbol
  {
    StockTask(symbol, GetStockData(symbol, env.quoteResponse(symbol)))
  }

  /** The prompt of a stock task built by `StockAnalysisTask`. */
  function StockPromptOfTask(t: Task): StockPrompt
    requires t.StockTask?
    requires "error" in t.stockData || {"price", "change", "change_percent"} <= t.stockData.Keys
  {
    StockPromptOf(t.stockData)
  }

  /**
   * The error prompt is taken exactly when the quote request gave no usable
   * quote; a usable quote reaches the prompt as `Price: p\nChange: c (cp)`,
   * "N/A" standing in for a missing field.
   */
  lemma StockPromptBranches(symbol: string, env: Env)
    ensures var t := StockAnalysisTask(symbol, env);
      var response := env.quoteResponse(symbol);
      && (StockPromptOfTask(t).StockError? <==> !HasQuote(response))
      && (StockPromptOfTask(t).StockError? ==> StockPromptOfTask(t).message == StockErrorMessage(response))
      && (HasQuote(response) ==>
            var quote := GlobalQuote(response.payload);
            StockPromptOfTask(t) == StockData(StockDataText(
              GetOr(quote, "05. price", "N/A"), GetOr(quote, "09. change", "N/A"), GetOr(quote, "10. change percent", "N/A"))))
  {
    if HasQuote(env.quoteResponse(symbol)) {
      GetStockDataQuote(symbol, env.quoteResponse(symbol));
    } else {
      GetStockDataError(symbol, env.quoteResponse(symbol));
    }
  }

  // ---------------------------------------------------------------------------
  // The refiner (tasks.py, lines 122-181)

  const RagNotUsed: string := "RAG_NOT_USED"
  const RagLimited: string := "RAG_LIMITED"
  const RagSufficient: string := "RAG_SUFFICIENT"
  const NoRagNeeded: string := "NO_RAG_NEEDED"

  const RagNotUsedMessage: string :=
    "Note: No relevant information found in RAG system, web search results were used."

  /** `rag_message`: the note shown to the refiner, empty for every note but RAG_NOT_USED. */
  function RagMessage(note: string): (m: string)
    ensures m != [] <==> note == RagNotUsed
    ensures m != [] ==> m == RagNotUsedMessage
  {
    if note == RagNotUsed then RagNotUsedMessage
    else if note == RagLimited then []
    else if note == RagSufficient then []
    else []
  }

  /**
   * `get_response_refiner_task(query, initial_response, question_type,
   * rag_note="NO_RAG_NEEDED")`.
   */
  function RefinerTaskOf(query: string, initialResponse: string, questionType: string,
                         ragNote: string := NoRagNeeded): (t: Task)
    ensures t.RefinerTask? && t.query == query && t.initialResponse == initialResponse
    ensures t.questionType == questionType
    ensures t.template.OutOfScopeReport? <==> questionType == OutOfScope
  {
    var ragMessage := RagMessage(ragNote);
    if questionType == OutOfScope then RefinerTask(query, initialResponse, questionType, OutOfScopeReport)
    else RefinerTask(query, initialResponse, questionType, RefineReport(ragMessage))
  }

  /** The generic template carries the note's message. */
  lemma RefinerCarriesMessage(query: string, initialResponse: string, questionType: string, ragNote: string)
    requires questionType != OutOfScope
    ensures RefinerTaskOf(query, initialResponse, questionType, ragNote).template == RefineReport(RagMessage(ragNote))
  {
  }

  /** Called without a note, the refiner shows no RAG message. */
  lemma DefaultNoteShowsNoMessage(query: string, initialResponse: string, questionType: string)
    requires questionType != OutOfScope
    ensures RefinerTaskOf(query, initialResponse, questionType).template == RefineReport([])
  {
  }

  // ---------------------------------------------------------------------------
  // Unreachable fallbacks

  /**
   * `search_news` with `max_results=3` never returns an empty list (an empty
   * result is replaced by a placeholder item), so the web-text and news-text
   * fallbacks of lines 14 and 60 are never used.
   */
  lemma FallbackTextsUnreachable(query: string, env: Env)
    ensures WebText(FinanceKnowledgeTask(query, env)) != NoWebInfo
    ensures NewsText(MarketNewsTask(query, env)) != NoNewsFound
  {
    SearchNewsNeverEmpty(env.newsResponse(query, TaskMaxResults), TaskMaxResults);
    assert NoWebInfo[0] != 'T' && NoNewsFound[0] != 'T';
  }
}
