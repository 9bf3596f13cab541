/**
 * utils.py: the service boundary of the chatbot.
 *
 * The vector store, the classifier's LLM call and the two HTTP APIs are
 * external; `Env` stands for what they answer. What is modelled is the
 * deterministic code around them: the parse of the classifier's reply with
 * its fail-open default, and the shaping of the news and quote payloads into
 * the lists and dictionaries the prompt builders consume.
 */
module Utils {
  import opened PyStr

  datatype Option<T> = None | Some(value: T)

  /** A JSON object whose values are strings, as a Python dict. */
  type Fields = map<string, string>

  /** Python's `d.get(key, default)`. */
  function GetOr(d: Fields, key: string, default: string): string {
    if key in d then d[key] else default
  }

  // ---------------------------------------------------------------------------
  // External services

  /** One document returned by `search_qdrant`. */
  datatype Context = Context(text: string, source: string)

  /**
   * How a `requests` call ended: with a decoded JSON payload, or with one of
   * the exception classes the fetchers catch (`Failed` is any other
   * exception, a body that is not JSON included).
   */
  datatype HttpOutcome<P> =
    | Received(payload: P)
    | ConnectionFailed
    | TimedOut
    | HttpFailed(status: int, reason: string)
    | Failed

  type SearchPayload = map<string, seq<Fields>>
  type QuotePayload = map<string, Fields>

  /**
   * The answers of the external collaborators, each taken as a fixed
   * function of its request. Only `search_qdrant` and
   * `determine_question_type` are memoised with `lru_cache`; the Serper and
   * Alpha Vantage calls are live, so modelling them as functions assumes the
   * services answer the same request the same way during one session.
   * - classifierReply(query): the classifier crew's reply text, or None when kickoff raised;
   * - vectorSearch(query, topK): `search_qdrant(query, top_k)`, which never raises;
   * - newsResponse(query, maxResults): the outcome of the Serper POST;
   * - quoteResponse(symbol): the outcome of the Alpha Vantage GET.
   */
  datatype Env = Env(
    classifierReply: string -> Option<string>,
    vectorSearch: (string, nat) -> seq<Context>,
    newsResponse: (string, nat) -> HttpOutcome<SearchPayload>,
    quoteResponse: string -> HttpOutcome<QuotePayload>)

  // ---------------------------------------------------------------------------
  // determine_question_type: parsing the classifier's reply

  const FinanceKnowledge: string := "finance_knowledge"
  const MarketNews: string := "market_news"
  const StockAnalysis: string := "stock_analysis"
  /** Handled by the refiner, but never produced by the classifier. */
  const OutOfScope: string := "out_of_scope"

  /** The three labels the parse accepts. */
  const Categories: seq<string> := [FinanceKnowledge, MarketNews, StockAnalysis]

  const CategoryPrefix: string := "Category: "
  const ExtraDataPrefix: string := "Extra Data: "

  /** The pair `(question_type, processed_query)` returned by `determine_question_type`. */
  datatype QuestionType = QuestionType(category: string, extraData: string)

  /** The fail-open answer: every failure becomes a knowledge question about the query itself. */
  function Fallback(query: string): QuestionType {
    QuestionType(FinanceKnowledge, query)
  }

  function CategoryField(line: string): string {
    Strip(Replace(line, CategoryPrefix, []))
  }

  function ExtraDataField(line: string): string {
    Strip(Replace(line, ExtraDataPrefix, []))
  }

  /**
   * The `try` block of `determine_question_type` after the kickoff: strip the
   * reply, split it on "\n", take the label from line 0 and the extra data
   * from line 1, and fall back on any failure.
   */
  function ParseClassifierReply(reply: string, query: string): (r: QuestionType)
    ensures r.category in Categories && r.category != OutOfScope
    ensures var lines := SplitOn(Strip(reply), '\n');
      |lines| < 2 ==> r == Fallback(query)
    ensures var lines := SplitOn(Strip(reply), '\n');
      |lines| >= 2 && CategoryField(lines[0]) !in Categories ==> r == Fallback(query)
    ensures var lines := SplitOn(Strip(reply), '\n');
      |lines| >= 2 && CategoryField(lines[0]) in Categories ==>
        r == QuestionType(CategoryField(lines[0]), ExtraDataField(lines[1]))
  {
    var lines := SplitOn(Strip(reply), '\n');
    if |lines| < 2 then Fallback(query)
    else
      var category := CategoryField(lines[0]);
      var extraData := ExtraDataField(lines[1]);
      if category in Categories then QuestionType(category, extraData) else Fallback(query)
  }

  /** `determine_question_type(query)`, given what the classifier crew's kickoff produced. */
  function DetermineQuestionType(query: string, reply: Option<string>): (r: QuestionType)
    ensures r.category in Categories
    ensures reply.None? ==> r == Fallback(query)
  {
    match reply
    case None => Fallback(query)
    case Some(text) => ParseClassifierReply(text, query)
  }

  /** The facts about the three labels that the parse relies on. */
  lemma CategoryFacts(c: string)
    requires c in Categories
    ensures c != [] && !IsSpace(c[0]) && !IsSpace(c[|c| - 1])
    ensures '\n' !in c && CategoryPrefix[0] !in c
  {
  }

  /** The label line `Category: <c>` yields the label `c`. */
  lemma CategoryLine(c: string)
    requires c in Categories
    ensures CategoryField(CategoryPrefix + c) == c
  {
    CategoryFacts(c);
    ReplaceLeading(CategoryPrefix, c, []);
    NotContainsHead(c, CategoryPrefix);
    var r := Replace(c, CategoryPrefix, []);
    assert r == c;
    assert [] + r == c;
    assert Replace(CategoryPrefix + c, CategoryPrefix, []) == c;
  }

  /** The line `Extra Data: <d>` yields `d.strip()` when `d` holds no further prefix. */
  lemma ExtraDataLine(d: string)
    requires !Contains(d, ExtraDataPrefix)
    ensures ExtraDataField(ExtraDataPrefix + d) == Strip(d)
  {
    ReplaceLeading(ExtraDataPrefix, d, []);
    assert [] + d == d;
  }

  /** A reply whose first two lines are `first` and `second` parses from those two lines alone. */
  lemma ParseFirstTwoLines(reply: string, query: string, first: string, second: string)
    requires |SplitOn(Strip(reply), '\n')| >= 2
    requires SplitOn(Strip(reply), '\n')[0] == first && SplitOn(Strip(reply), '\n')[1] == second
    requires CategoryField(first) in Categories
    ensures ParseClassifierReply(reply, query) == QuestionType(CategoryField(first), ExtraDataField(second))
  {
  }

  /** A reply that starts and ends with a non-blank character is left alone by the initial strip. */
  lemma StripOfReply(first: string, second: string, tail: string)
    requires first != [] && !IsSpace(first[0])
    requires tail == [] ==> second != [] && !IsSpace(second[|second| - 1])
    requires tail != [] ==> !IsSpace(tail[|tail| - 1])
    ensures Strip(first + ['\n'] + second + tail) == first + ['\n'] + second + tail
  {
    var reply := first + ['\n'] + second + tail;
    assert reply[0] == first[0];
    assert !IsSpace(reply[|reply| - 1]) by {
      if tail == [] {
        assert reply[|reply| - 1] == second[|second| - 1];
      } else {
        assert reply[|reply| - 1] == tail[|tail| - 1];
      }
    }
  }

  /** With a tail that is empty or starts a new line, `first` and `second` are the first two lines. */
  lemma ReplyFirstLines(first: string, second: string, tail: string)
    requires '\n' !in first && '\n' !in second
    requires tail != [] ==> tail[0] == '\n'
    ensures |SplitOn(first + ['\n'] + second + tail, '\n')| >= 2
    ensures SplitOn(first + ['\n'] + second + tail, '\n')[0] == first
    ensures SplitOn(first + ['\n'] + second + tail, '\n')[1] == second
  {
    var reply := first + ['\n'] + second + tail;
    assert reply == first + ['\n'] + (second + tail);
    SplitOnFirst(first, '\n', second + tail);
    if tail == [] {
      assert second + tail == second;
      SplitOnWithoutSep(second, '\n');
    } else {
      assert second + tail == second + ['\n'] + tail[1..];
      SplitOnFirst(second, '\n', tail[1..]);
    }
  }

  /**
   * The reply `first + "\n" + second + tail`, whose tail is empty or starts a
   * further line, parses from `first` and `second`.
   */
  lemma ReplyLines(first: string, second: string, tail: string, query: string)
    requires '\n' !in first && '\n' !in second
    requires first != [] && !IsSpace(first[0])
    requires tail == [] ==> second != [] && !IsSpace(second[|second| - 1])
    requires tail != [] ==> tail[0] == '\n' && !IsSpace(tail[|tail| - 1])
    requires CategoryField(first) in Categories
    ensures ParseClassifierReply(first + ['\n'] + second + tail, query)
         == QuestionType(CategoryField(first), ExtraDataField(second))
  {
    StripOfReply(first, second, tail);
    ReplyFirstLines(first, second, tail);
    ParseFirstTwoLines(first + ['\n'] + second + tail, query, first, second);
  }

  /** The label line `Category: <c>` is one line, starts with a non-blank and yields `c`. */
  lemma CategoryLineFacts(c: string)
    requires c in Categories
    ensures var first := CategoryPrefix + c;
      '\n' !in first && first != [] && !IsSpace(first[0]) && CategoryField(first) == c
  {
    CategoryLine(c);
    CategoryFacts(c);
    assert (CategoryPrefix + c)[0] == 'C';
  }

  /** The line `Extra Data: <d>` is one line when `d` is, and ends where `d` ends. */
  lemma ExtraDataLineFacts(d: string)
    requires '\n' !in d && !Contains(d, ExtraDataPrefix)
    ensures var second := ExtraDataPrefix + d;
      && '\n' !in second && ExtraDataField(second) == Strip(d)
      && (d != [] ==> second[|second| - 1] == d[|d| - 1])
  {
    ExtraDataLine(d);
  }

  /** The parse sees the reply only through its stripped form. */
  lemma ParseOfStripped(reply: string, stripped: string, query: string)
    requires Strip(reply) == Strip(stripped)
    ensures ParseClassifierReply(reply, query) == ParseClassifierReply(stripped, query)
  {
  }

  /**
   * A reply `first + "\n" + second + tail` whose tail starts a further line
   * and holds a non-blank character parses from `first` and `second`; the
   * blanks that end the tail go to the initial strip.
   */
  lemma ReplyLinesWithContent(first: string, second: string, tail: string, query: string)
    requires '\n' !in first && '\n' !in second
    requires first != [] && !IsSpace(first[0])
    requires tail != [] && tail[0] == '\n' && !AllSpace(tail)
    requires CategoryField(first) in Categories
    ensures ParseClassifierReply(first + ['\n'] + second + tail, query)
         == QuestionType(CategoryField(first), ExtraDataField(second))
  {
    var lines := first + ['\n'] + second;
    var reply := lines + tail;
    var kept := TrimEnd(tail);
    TrimEndFacts(tail);
    assert kept != [] && kept[0] == '\n' by {
      var k :| 0 <= k < |tail| && !IsSpace(tail[k]);
      assert k < |kept|;
    }
    TrimEndConcat(lines, tail);
    assert reply[0] == first[0];
    assert Strip(reply) == lines + kept;
    ReplyLines(first, second, kept, query);
    StripOfReply(first, second, kept);
    ParseOfStripped(reply, lines + kept, query);
  }

  /**
   * A reply `first + "\n" + second + blanks` whose second line ends in a
   * non-blank character parses from `first` and `second`: the blanks go to
   * the initial strip.
   */
  lemma ReplyTrailingBlanks(first: string, second: string, blanks: string, query: string)
    requires '\n' !in first && '\n' !in second
    requires first != [] && !IsSpace(first[0])
    requires second != [] && !IsSpace(second[|second| - 1])
    requires AllSpace(blanks)
    requires CategoryField(first) in Categories
    ensures ParseClassifierReply(first + ['\n'] + second + blanks, query)
         == QuestionType(CategoryField(first), ExtraDataField(second))
  {
    var lines := first + ['\n'] + second;
    StripDropsTrailingSpace(lines, blanks);
    assert lines + [] == lines;
    ReplyLines(first, second, [], query);
    ParseOfStripped(lines + blanks, lines, query);
  }

  /**
   * Round trip: a reply in the requested format, `Category: <c>` and
   * `Extra Data: <d>` on the first two lines, parses to `(c, d.strip())`
   * whatever lines follow, as long as something after the prefix is not
   * blank (the all-blank case is `EmptyExtraDataKeepsLabel`).
   */
  lemma ParseWellFormedReply(reply: string, c: string, d: string, tail: string, query: string)
    requires c in Categories
    requires '\n' !in d && !Contains(d, ExtraDataPrefix)
    requires tail == [] || tail[0] == '\n'
    requires !AllSpace(d + tail)
    requires reply == (CategoryPrefix + c) + "\n" + (ExtraDataPrefix + d) + tail
    ensures ParseClassifierReply(reply, query) == QuestionType(c, Strip(d))
  {
    var first := CategoryPrefix + c;
    CategoryLineFacts(c);
    if !AllSpace(tail) {
      ExtraDataLineFacts(d);
      ReplyLinesWithContent(first, ExtraDataPrefix + d, tail, query);
    } else {
      WellFormedTrailingBlanks(reply, c, d, tail, query);
    }
  }

  /**
   * When the lines after `Extra Data: <d>` are blank, the strip ends the
   * reply at the last non-blank character of `d`, which leaves a shorter
   * `d` with the same `strip()`.
   */
  lemma TrailingBlanksSplit(d: string, tail: string)
    requires '\n' !in d && !Contains(d, ExtraDataPrefix)
    requires AllSpace(tail) && !AllSpace(d + tail)
    ensures |TrimEnd(d)| <= |d|
    ensures var kept := TrimEnd(d); var trailing := d[|kept|..];
      && d == kept + trailing && kept != [] && !IsSpace(kept[|kept| - 1])
      && '\n' !in kept && !Contains(kept, ExtraDataPrefix)
      && AllSpace(trailing + tail) && Strip(d) == Strip(kept)
  {
    var kept := TrimEnd(d);
    TrimEndFacts(d);
    var trailing := d[|kept|..];
    assert d == kept + trailing;
    assert kept != [] by {
      var k :| 0 <= k < |d + tail| && !IsSpace((d + tail)[k]);
      assert k < |kept|;
    }
    assert AllSpace(trailing) by {
      assert forall k :: 0 <= k < |trailing| ==> trailing[k] == d[|kept| + k];
    }
    AllSpaceConcat(trailing, tail);
    assert '\n' !in kept by {
      assert forall k :: 0 <= k < |kept| ==> kept[k] == d[k];
    }
    assert !Contains(kept, ExtraDataPrefix) by {
      if Contains(kept, ExtraDataPrefix) {
        ContainsInfix([], kept, trailing);
        assert [] + kept + trailing == d;
        ContainsTransitive(d, kept, ExtraDataPrefix);
      }
    }
    StripDropsTrailingSpace(kept, trailing);
  }

  /** Proof helper for WellFormedTrailingBlanks, modelling nothing: regroups a five-part concatenation. */
  lemma Regroup(a: string, p: string, k: string, t: string, tail: string)
    ensures a + (p + (k + t)) + tail == a + (p + k) + (t + tail)
  {
  }

  /** The case of `ParseWellFormedReply` whose following lines are all blank. */
  lemma WellFormedTrailingBlanks(reply: string, c: string, d: string, tail: string, query: string)
    requires c in Categories
    requires '\n' !in d && !Contains(d, ExtraDataPrefix)
    requires AllSpace(tail) && !AllSpace(d + tail)
    requires reply == (CategoryPrefix + c) + "\n" + (ExtraDataPrefix + d) + tail
    ensures ParseClassifierReply(reply, query) == QuestionType(c, Strip(d))
  {
    TrailingBlanksSplit(d, tail);
    var first := CategoryPrefix + c;
    var kept := TrimEnd(d);
    var trailing := d[|kept|..];
    CategoryLineFacts(c);
    ExtraDataLineFacts(kept);
    Regroup(first + "\n", ExtraDataPrefix, kept, trailing, tail);
    ReplyTrailingBlanks(first, ExtraDataPrefix + kept, trailing + tail, query);
  }

  /** A reply of three or more lines parses from its first two when the later lines are not all blank. */
  lemma ReplyMoreLines(first: string, second: string, more: string, query: string)
    requires '\n' !in first && '\n' !in second
    requires first != [] && !IsSpace(first[0])
    requires !AllSpace(more)
    requires CategoryField(first) in Categories
    ensures ParseClassifierReply(first + "\n" + second + "\n" + more, query)
         == QuestionType(CategoryField(first), ExtraDataField(second))
  {
    var tail := "\n" + more;
    assert !AllSpace(tail) by {
      var k :| 0 <= k < |more| && !IsSpace(more[k]);
      assert tail[k + 1] == more[k];
    }
    ReplyLinesWithContent(first, second, tail, query);
    assert first + ['\n'] + second + tail == first + "\n" + second + "\n" + more;
  }

  /**
   * Splitting is on "\n" alone, so an empty second line is not a failure: it
   * gives empty extra data.
   */
  lemma EmptySecondLineAccepted(c: string, rest: string, query: string)
    requires c in Categories
    requires !AllSpace(rest)
    ensures ParseClassifierReply((CategoryPrefix + c) + "\n" + "" + "\n" + rest, query) == QuestionType(c, [])
  {
    CategoryLineFacts(c);
    assert ExtraDataField([]) == [];
    ReplyMoreLines(CategoryPrefix + c, [], rest, query);
  }

  /**
   * "Extra Data:" is shorter than the prefix "Extra Data: ", so the replace
   * leaves it alone; a blank extra-data line is that text and blanks.
   */
  lemma BlankExtraDataLine(first: string, blanks: string)
    requires AllSpace(blanks)
    ensures var shown := "Extra Data:";
      && first + "\n" + ExtraDataPrefix + blanks == first + ['\n'] + shown + (" " + blanks)
      && AllSpace(" " + blanks)
      && '\n' !in shown && shown != [] && !IsSpace(shown[|shown| - 1])
      && ExtraDataField(shown) == shown
  {
    var shown := "Extra Data:";
    assert |shown| < |ExtraDataPrefix|;
    assert Replace(shown, ExtraDataPrefix, []) == shown;
    assert AllSpace(" ");
    AllSpaceConcat(" ", blanks);
  }

  /**
   * A reply whose extra data is left blank, `Category: <c>\nExtra Data: `
   * followed by nothing but blanks, loses the blanks to the initial strip,
   * so the prefix no longer matches and the extra data is the text
   * "Extra Data:" itself.
   */
  lemma EmptyExtraDataKeepsLabel(reply: string, c: string, blanks: string, query: string)
    requires c in Categories
    requires AllSpace(blanks)
    requires reply == (CategoryPrefix + c) + "\n" + ExtraDataPrefix + blanks
    ensures ParseClassifierReply(reply, query) == QuestionType(c, "Extra Data:")
  {
    var first := CategoryPrefix + c;
    var shown := "Extra Data:";
    BlankExtraDataLine(first, blanks);
    CategoryLineFacts(c);
    ReplyTrailingBlanks(first, shown, " " + blanks, query);
  }

  /** A reply without a line break is a one-line reply and falls back. */
  lemma SingleLineReplyFallsBack(reply: string, query: string)
    requires '\n' !in reply
    ensures ParseClassifierReply(reply, query) == Fallback(query)
  {
    StripKeepsAbsent(reply, '\n');
    SplitOnWithoutSep(Strip(reply), '\n');
  }

  // ---------------------------------------------------------------------------
  // search_news: shaping the Serper payload

  datatype NewsItem = NewsItem(title: string, url: string, snippet: string)

  const NoNewsItem: NewsItem :=
    NewsItem("No recent news available", "", "Could not fetch news. Please try again later.")

  function OrganicResults(data: SearchPayload): seq<Fields> {
    if "organic" in data then data["organic"] else []
  }

  /** One organic result, with a missing field read as "". */
  function NewsItemOf(item: Fields): NewsItem {
    NewsItem(GetOr(item, "title", ""), GetOr(item, "link", ""), GetOr(item, "snippet", ""))
  }

  /** The single placeholder item that stands for a failed request. */
  function NewsErrorItem(response: HttpOutcome<SearchPayload>): NewsItem
    requires !response.Received?
  {
    NewsItem(NewsErrorTitle(response), "", NewsErrorSnippet(response))
  }

  function NewsErrorTitle(response: HttpOutcome<SearchPayload>): string
    requires !response.Received?
  {
    match response
    case ConnectionFailed => "Connection Error"
    case TimedOut => "Timeout Error"
    case HttpFailed(status, _) => if status == 429 then "Rate Limit Exceeded" else "HTTP Error"
    case Failed => "Error"
  }

  function NewsErrorSnippet(response: HttpOutcome<SearchPayload>): string
    requires !response.Received?
  {
    match response
    case ConnectionFailed => "Failed to connect to the news API. Please check your internet connection."
    case TimedOut => "News API request timed out. Please try again later."
    case HttpFailed(status, reason) =>
      if status == 429 then "Too many requests to the news API. Please try again later."
      else "Failed to fetch news due to HTTP error: " + reason
    case Failed => "An unexpected error occurred while fetching news. Please try again later."
  }

  function Min(a: nat, b: nat): nat {
    if a <= b then a else b
  }

  /**
   * `search_news(query, max_results)` given the outcome of its request. The
   * first `max_results` organic results in order; one placeholder item when
   * there are none or the request failed.
   */
  function SearchNews(response: HttpOutcome<SearchPayload>, maxResults: nat): (r: seq<NewsItem>)
    ensures |r| <= if maxResults == 0 then 1 else maxResults
  {
    match response
    case Received(data) =>
      var results := OrganicResults(data);
      if results == [] then [NoNewsItem]
      else
        var shown := results[..Min(maxResults, |results|)];
        seq(|shown|, k requires 0 <= k < |shown| => NewsItemOf(shown[k]))
    case _ => [NewsErrorItem(response)]
  }

  /**
   * A received answer: the first `max_results` organic results in order,
   * missing fields read as ""; exactly one placeholder when there are none.
   */
  lemma SearchNewsReceived(data: SearchPayload, maxResults: nat)
    ensures var r := SearchNews(Received(data), maxResults);
      var results := OrganicResults(data);
      && (results != [] ==>
            |r| == Min(maxResults, |results|) &&
            forall k :: 0 <= k < |r| ==> r[k] == NewsItemOf(results[k]))
      && (results == [] ==> r == [NoNewsItem])
  {
  }

  /** A failed request: one error item, with an empty url. */
  lemma SearchNewsFailed(response: HttpOutcome<SearchPayload>, maxResults: nat)
    requires !response.Received?
    ensures |SearchNews(response, maxResults)| == 1 && SearchNews(response, maxResults)[0].url == []
  {
    assert SearchNews(response, maxResults) == [NewsErrorItem(response)];
  }

  /** Status 429 gets the rate-limit item rather than the generic HTTP error. */
  lemma SearchNewsRateLimited(reason: string, maxResults: nat)
    ensures SearchNews(HttpFailed(429, reason), maxResults) == [NewsErrorItem(HttpFailed(429, reason))]
    ensures NewsErrorItem(HttpFailed(429, reason)).title == "Rate Limit Exceeded"
  {
  }

  /** The answer is empty only when results exist and none were asked for. */
  lemma SearchNewsNeverEmpty(response: HttpOutcome<SearchPayload>, maxResults: nat)
    ensures SearchNews(response, maxResults) == [] <==>
      response.Received? && OrganicResults(response.payload) != [] && maxResults == 0
  {
  }

  // ---------------------------------------------------------------------------
  // get_stock_data: shaping the Alpha Vantage payload

  function GlobalQuote(payload: QuotePayload): Fields {
    if "Global Quote" in payload then payload["Global Quote"] else map[]
  }

  function StockErrorMessage(response: HttpOutcome<QuotePayload>): string {
    match response
    case Received(_) => "No data found for this symbol."
    case ConnectionFailed => "Failed to connect to the stock API. Please check your internet connection."
    case TimedOut => "Stock API request timed out. Please try again later."
    case HttpFailed(status, reason) =>
      if status == 429 then "Too many requests to the stock API. Please try again later."
      else "Failed to fetch stock data due to HTTP error: " + reason
    case Failed => "An unexpected error occurred while fetching stock data. Please try again later."
  }

  /** True when the quote request returned a non-empty "Global Quote" object. */
  predicate HasQuote(response: HttpOutcome<QuotePayload>) {
    response.Received? && GlobalQuote(response.payload) != map[]
  }

  /**
   * `get_stock_data(symbol)` given the outcome of its request: either a quote
   * `{symbol, price, change, change_percent}` with "N/A" for a missing field,
   * or `{symbol, error}`; the symbol asked for is in both.
   */
  function GetStockData(symbol: string, response: HttpOutcome<QuotePayload>): (d: Fields)
    ensures "symbol" in d && d["symbol"] == symbol
    ensures "error" in d <==> !HasQuote(response)
    ensures "error" !in d ==> {"price", "change", "change_percent"} <= d.Keys
  {
    if HasQuote(response) then
      var quote := GlobalQuote(response.payload);
      map[
        "symbol" := symbol,
        "price" := GetOr(quote, "05. price", "N/A"),
        "change" := GetOr(quote, "09. change", "N/A"),
        "change_percent" := GetOr(quote, "10. change percent", "N/A")]
    else
      map["symbol" := symbol, "error" := StockErrorMessage(response)]
  }

  /** Without a quote, `get_stock_data` answers `{symbol, error}` with the message for the failure. */
  lemma GetStockDataError(symbol: string, response: HttpOutcome<QuotePayload>)
    requires !HasQuote(response)
    ensures GetStockData(symbol, response) == map["symbol" := symbol, "error" := StockErrorMessage(response)]
    ensures GetStockData(symbol, response).Keys == {"symbol", "error"}
  {
  }

  /** With a quote, it answers `{symbol, price, change, change_percent}`, "N/A" for a field the quote lacks. */
  lemma GetStockDataQuote(symbol: string, response: HttpOutcome<QuotePayload>)
    requires HasQuote(response)
    ensures var d := GetStockData(symbol, response);
      var quote := GlobalQuote(response.payload);
      && d.Keys == {"symbol", "price", "change", "change_percent"}
      && d["price"] == GetOr(quote, "05. price", "N/A")
      && d["change"] == GetOr(quote, "09. change", "N/A")
      && d["change_percent"] == GetOr(quote, "10. change percent", "N/A")
  {
  }
}
