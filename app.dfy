/**
 * app.py: `get_response(query)` of the deployed front end. One crew is shared
 * by every call; contexts are shortened to 300 characters; the RAG state is a
 * single note with a default.
 */
module App {
  import opened PyStr
  import opened Utils
  import opened Contexts
  import opened Tasks
  import opened Crews
  import opened Routing

  /** app.py asks the vector store for two contexts. */
  const AppTopK: nat := 2

  /** `rag_note` as lines 28-52 leave it. */
  function AppNote(category: string, contexts: seq<Context>, query: string): string {
    if category == FinanceKnowledge then
      if contexts != [] then
        if TokenUseful(Render(ShortenAll(contexts, AppLimit)), query) then RagSufficient else RagNotUsed
      else RagNotUsed
    else if category == MarketNews || category == StockAnalysis then NoRagNeeded
    else RagSufficient
  }

  /**
   * The two-state note: RAG_LIMITED is never produced; a finance question
   * gets RAG_SUFFICIENT exactly when it has contexts whose 300-character
   * rendering passes the token test; news and stock questions need no RAG;
   * any other category keeps the default RAG_SUFFICIENT.
   */
  lemma AppNoteStates(category: string, contexts: seq<Context>, query: string)
    ensures var note := AppNote(category, contexts, query);
      && note != RagLimited
      && (category == FinanceKnowledge ==>
            (note == RagSufficient <==> contexts != [] && TokenUseful(Render(ShortenAll(contexts, AppLimit)), query)) &&
            (note != RagSufficient ==> note == RagNotUsed))
      && (category == MarketNews || category == StockAnalysis ==> note == NoRagNeeded)
      && (category !in Categories ==> note == RagSufficient)
  {
  }

  function AppContexts(query: string, env: Env, category: string): seq<Context> {
    if category == FinanceKnowledge then env.vectorSearch(query, AppTopK) else []
  }

  function AppRefiner(query: string, env: Env, initialResponse: string): Task {
    var qt := DetermineQuestionType(query, env.classifierReply(query));
    RefinerTaskOf(query, initialResponse, qt.category, AppNote(qt.category, AppContexts(query, env, qt.category), query))
  }

  function AppInitial(query: string, env: Env): Task {
    InitialTask(DetermineQuestionType(query, env.classifierReply(query)), query, env)
  }

  /** What `get_response(query)` returns. */
  function AppReport(query: string, env: Env, llm: seq<Task> -> KickoffResult): string {
    match llm([AppInitial(query, env)])
    case Raised(m) => ErrorReport(m)
    case Finished(initialResponse) =>
      match llm([AppRefiner(query, env, initialResponse)])
      case Raised(m) => ErrorReport(m)
      case Finished(finalReport) => finalReport
  }

  /**
   * Whichever kickoff raises, the answer is the error text naming its
   * exception; when both return, it is the refiner's output.
   */
  lemma AppErrors(query: string, env: Env, llm: seq<Task> -> KickoffResult, initialResponse: string)
    ensures var first := llm([AppInitial(query, env)]);
      var second := llm([AppRefiner(query, env, initialResponse)]);
      && (first.Raised? ==> AppReport(query, env, llm) == ErrorReport(first.message))
      && (first == Finished(initialResponse) && second.Raised? ==>
            AppReport(query, env, llm) == ErrorReport(second.message))
      && (first == Finished(initialResponse) && second.Finished? ==>
            AppReport(query, env, llm) == second.output)
  {
  }

  /** The shared crew's task list when `get_response(query)` returns. */
  function AppFinalTasks(query: string, env: Env, llm: seq<Task> -> KickoffResult): seq<Task> {
    match llm([AppInitial(query, env)])
    case Raised(_) => [AppInitial(query, env)]
    case Finished(initialResponse) => [AppRefiner(query, env, initialResponse)]
  }

  /**
   * The crew is left holding one task; it is the refiner exactly when the
   * first kickoff succeeded, and that refiner never uses the out-of-scope
   * template.
   */
  lemma AppFinalTasksShape(query: string, env: Env, llm: seq<Task> -> KickoffResult)
    ensures var tasks := AppFinalTasks(query, env, llm);
      && |tasks| == 1
      && (tasks[0].RefinerTask? <==> llm([AppInitial(query, env)]).Finished?)
      && (tasks[0].RefinerTask? ==> tasks[0].template.RefineReport?)
  {
    assert !AppInitial(query, env).RefinerTask?;
  }

  /** The RAG message reaches the refiner exactly when a finance question found nothing, or nothing useful. */
  lemma AppRefinerMessage(query: string, env: Env, initialResponse: string)
    ensures var qt := DetermineQuestionType(query, env.classifierReply(query));
      var contexts := env.vectorSearch(query, AppTopK);
      var t := AppRefiner(query, env, initialResponse);
      t.template.RefineReport? &&
      (t.template.ragMessage != [] <==>
        qt.category == FinanceKnowledge && !(contexts != [] && TokenUseful(Render(ShortenAll(contexts, AppLimit)), query)))
  {
    var qt := DetermineQuestionType(query, env.classifierReply(query));
    AppNoteStates(qt.category, AppContexts(query, env, qt.category), query);
  }

  /** Lines 28-52 of `get_response`: retrieval, shortening, the token test and the note. */
  method DetermineRagNote(category: string, query: string, env: Env) returns (ragNote: string)
    ensures ragNote == AppNote(category, AppContexts(query, env, category), query)
  {
    ragNote := RagSufficient;
    if category == FinanceKnowledge {
      var contexts := env.vectorSearch(query, AppTopK);
      if |contexts| > 0 {
        var shortened := ShortenContexts(contexts, AppLimit);
        var contextText := Render(shortened);
        var isContextUseful := TokenUseful(contextText, query);
        ragNote := if isContextUseful then RagSufficient else RagNotUsed;
      } else {
        ragNote := RagNotUsed;
      }
    } else if category == MarketNews {
      ragNote := NoRagNeeded;
    } else if category == StockAnalysis {
      ragNote := NoRagNeeded;
    }
  }

  /**
   * `get_response(query)` on the shared `finance_crew`: the task list is
   * emptied, holds only the initial task at the first kickoff and only the
   * refiner at the second.
   */
  method GetResponse(financeCrew: Crew, query: string, env: Env, llm: seq<Task> -> KickoffResult)
    returns (report: string)
    modifies financeCrew
    ensures report == AppReport(query, env, llm)
    ensures financeCrew.tasks == AppFinalTasks(query, env, llm)
    ensures |financeCrew.history| > |old(financeCrew.history)|
    ensures financeCrew.history[|old(financeCrew.history)|] == [AppInitial(query, env)]
    ensures forall k :: |old(financeCrew.history)| <= k < |financeCrew.history| ==> |financeCrew.history[k]| == 1
    ensures var initial := llm([AppInitial(query, env)]);
      financeCrew.history == old(financeCrew.history) + [[AppInitial(query, env)]]
        + (if initial.Finished? then [[AppRefiner(query, env, initial.output)]] else [])
  {
    financeCrew.tasks := [];
    var qt := DetermineQuestionType(query, env.classifierReply(query));

    var ragNote := DetermineRagNote(qt.category, query, env);
    var initialTask := InitialTask(qt, query, env);

    financeCrew.tasks := financeCrew.tasks + [initialTask];
    assert financeCrew.tasks == [initialTask];
    ghost var before := financeCrew.history;
    var initialResponse := financeCrew.Kickoff(llm);
    assert financeCrew.history == before + [[initialTask]];
    if initialResponse.Raised? {
      return ErrorReport(initialResponse.message);
    }

    var refinerTask := RefinerTaskOf(query, initialResponse.output, qt.category, ragNote);
    assert refinerTask == AppRefiner(query, env, initialResponse.output);
    financeCrew.tasks := [refinerTask];
    var finalReport := financeCrew.Kickoff(llm);
    assert financeCrew.history == before + [[initialTask]] + [[refinerTask]];
    if finalReport.Raised? {
      return ErrorReport(finalReport.message);
    }
    report := finalReport.output;
  }
}
