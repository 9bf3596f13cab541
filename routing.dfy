/**
 * The per-query routing shared by interface.py, app.py and main.py, and the
 * catch-all error text of the two `get_response` functions.
 */
module Routing {
  import opened PyStr
  import opened Utils
  import opened Tasks

  /**
   * The `if/elif/else` that picks the first task: only `stock_analysis`
   * receives the classifier's extra data; every other category gets the
   * query as typed, and any category other than the news and stock ones gets
   * the finance-knowledge task.
   */
  function InitialTask(qt: QuestionType, query: string, env: Env): (t: Task)
    ensures t.StockTask? <==> qt.category == StockAnalysis
    ensures t.NewsTask? <==> qt.category == MarketNews
    ensures t.KnowledgeTask? <==> qt.category != MarketNews && qt.category != StockAnalysis
    ensures t.StockTask? ==> t.symbol == qt.extraData
    ensures !t.StockTask? ==> t.query == query
  {
    if qt.category == FinanceKnowledge then FinanceKnowledgeTask(query, env)
    else if qt.category == MarketNews then MarketNewsTask(query, env)
    else if qt.category == StockAnalysis then StockAnalysisTask(qt.extraData, env)
    else FinanceKnowledgeTask(query, env)
  }

  /** The first task never depends on the extra data unless the category is `stock_analysis`. */
  lemma ExtraDataOnlyForStocks(category: string, extra1: string, extra2: string, query: string, env: Env)
    requires category != StockAnalysis
    ensures InitialTask(QuestionType(category, extra1), query, env) == InitialTask(QuestionType(category, extra2), query, env)
  {
  }

  const ErrorPrefix: string := "Error: "
  const ErrorSuffix: string := "\nPlease try again."

  /** The report returned on an exception: "Error: ", the message, then a line asking to try again. */
  function ErrorReport(message: string): (r: string)
    ensures StartsWith(r, ErrorPrefix)
    ensures |r| == |message| + |ErrorPrefix| + |ErrorSuffix|
  {
    ErrorPrefix + message + ErrorSuffix
  }

  /** The error text names the exception: two different messages give two different reports. */
  lemma ErrorReportInjective(m1: string, m2: string)
    requires ErrorReport(m1) == ErrorReport(m2)
    ensures m1 == m2
  {
    var r := ErrorReport(m1);
    assert r[|ErrorPrefix|..|ErrorPrefix| + |m1|] == m1;
    assert ErrorReport(m2)[|ErrorPrefix|..|ErrorPrefix| + |m2|] == m2;
  }
}
