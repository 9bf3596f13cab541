/**
 * interface.py: `get_response(query)` of the Gradio front end. A fresh crew
 * per call; contexts are shortened to 150 characters; the RAG state is kept
 * in two flags and turned into one of three notes for the refiner.
 */
module Interface {
  import opened PyStr
  import opened Utils
  import opened Contexts
  import opened Tasks
  import opened Crews
  import opened Routing

  /** interface.py asks the vector store for two contexts. */
  const InterfaceTopK: nat := 2

  /** The flags `rag_used` and `rag_insufficient` after the retrieval step. */
  datatype RagFlags = RagFlags(used: bool, insufficient: bool)

  /** The flags as lines 23-48 leave them. */
  function InterfaceFlags(category: string, contexts: seq<Context>, query: string): RagFlags {
    if category != FinanceKnowledge then RagFlags(false, false)
    else if contexts != [] then
      RagFlags(true, !TokenUseful(Render(ShortenAll(contexts, InterfaceLimit)), query))
    else RagFlags(false, true)
  }

  /** The note chosen from the flags (lines 62-70). */
  function NoteOfFlags(category: string, flags: RagFlags): string {
    if category == FinanceKnowledge then
      if !flags.used then RagNotUsed
      else if flags.insufficient then RagLimited
      else RagSufficient
    else NoRagNeeded
  }

  /** The note as a function of what was retrieved. */
  function InterfaceNote(category: string, contexts: seq<Context>, query: string): string {
    NoteOfFlags(category, InterfaceFlags(category, contexts, query))
  }

  /**
   * The two flags: `rag_used` exactly when a finance question found
   * contexts, `rag_insufficient` exactly when it found none or none that
   * passed the token test. The three states of the note: no contexts means
   * RAG_NOT_USED; contexts mean RAG_SUFFICIENT when the token test passes
   * on their shortened rendering and RAG_LIMITED when it fails; other
   * categories need no RAG.
   */
  lemma InterfaceNoteStates(category: string, contexts: seq<Context>, query: string)
    ensures var flags := InterfaceFlags(category, contexts, query);
      && (flags.used <==> category == FinanceKnowledge && contexts != [])
      && (flags.insufficient <==>
            category == FinanceKnowledge
            && (contexts == [] || !TokenUseful(Render(ShortenAll(contexts, InterfaceLimit)), query)))
    ensures var note := InterfaceNote(category, contexts, query);
      && (category != FinanceKnowledge ==> note == NoRagNeeded)
      && (category == FinanceKnowledge && contexts == [] ==> note == RagNotUsed)
      && (category == FinanceKnowledge && contexts != [] ==>
            var useful := TokenUseful(Render(ShortenAll(contexts, InterfaceLimit)), query);
            (useful ==> note == RagSufficient) && (!useful ==> note == RagLimited))
  {
  }

  /** The refiner task built after the first kickoff produced `initialResponse`. */
  function InterfaceRefiner(query: string, env: Env, initialResponse: string): Task {
    var qt := DetermineQuestionType(query, env.classifierReply(query));
    var contexts := if qt.category == FinanceKnowledge then env.vectorSearch(query, InterfaceTopK) else [];
    RefinerTaskOf(query, initialResponse, qt.category, InterfaceNote(qt.category, contexts, query))
  }

  /** What `get_response(query)` returns. */
  function InterfaceReport(query: string, env: Env, llm: seq<Task> -> KickoffResult): string {
    var qt := DetermineQuestionType(query, env.classifierReply(query));
    match llm([InitialTask(qt, query, env)])
    case Raised(m) => ErrorReport(m)
    case Finished(initialResponse) =>
      match llm([InterfaceRefiner(query, env, initialResponse)])
      case Raised(m) => ErrorReport(m)
      case Finished(finalReport) => finalReport
  }

  /**
   * The refiner always gets the generic template (the classifier never says
   * `out_of_scope`), and its RAG message is shown exactly when a
   * finance-knowledge query found no contexts.
   */
  lemma InterfaceRefinerMessage(query: string, env: Env, initialResponse: string)
    ensures var t := InterfaceRefiner(query, env, initialResponse);
      var qt := DetermineQuestionType(query, env.classifierReply(query));
      && t.template.RefineReport?
      && (t.template.ragMessage != [] <==>
           qt.category == FinanceKnowledge && env.vectorSearch(query, InterfaceTopK) == [])
  {
    var qt := DetermineQuestionType(query, env.classifierReply(query));
    ghost var contexts := if qt.category == FinanceKnowledge then env.vectorSearch(query, InterfaceTopK) else [];
    InterfaceNoteStates(qt.category, contexts, query);
  }

  /** Whichever kickoff raises, the answer is the error text naming its exception. */
  lemma InterfaceErrors(query: string, env: Env, llm: seq<Task> -> KickoffResult, initialResponse: string)
    ensures var qt := DetermineQuestionType(query, env.classifierReply(query));
      var first := llm([InitialTask(qt, query, env)]);
      var second := llm([InterfaceRefiner(query, env, initialResponse)]);
      && (first.Raised? ==> InterfaceReport(query, env, llm) == ErrorReport(first.message))
      && (first == Finished(initialResponse) && second.Raised? ==>
            InterfaceReport(query, env, llm) == ErrorReport(second.message))
      && (first == Finished(initialResponse) && second.Finished? ==>
            InterfaceReport(query, env, llm) == second.output)
  {
  }

  /**
   * Lines 23-48 of `get_response`: retrieval, shortening, the token test,
   * and the flags `rag_used` and `rag_insufficient` they leave.
   */
  method RetrieveFlags(category: string, query: string, env: Env) returns (ragUsed: bool, ragInsufficient: bool)
    ensures RagFlags(ragUsed, ragInsufficient) ==
      InterfaceFlags(category, if category == FinanceKnowledge then env.vectorSearch(query, InterfaceTopK) else [], query)
  {
    ragInsufficient := false;
    ragUsed := false;
    var contextText := "";
    if category == FinanceKnowledge {
      var contexts := env.vectorSearch(query, InterfaceTopK);
      if contexts != [] && |contexts| > 0 {
        var shortened := ShortenContexts(contexts, InterfaceLimit);
        contextText := Render(shortened);
        var isContextUseful := TokenUseful(contextText, query);
        ragInsufficient := !isContextUseful;
        ragUsed := true;
      } else {
        ragInsufficient := true;
        ragUsed := false;
      }
    }
  }

  /** Lines 62-70 of `get_response`: the note chosen from the category and the two flags. */
  method ChooseNote(category: string, ragUsed: bool, ragInsufficient: bool) returns (note: string)
    ensures note == NoteOfFlags(category, RagFlags(ragUsed, ragInsufficient))
  {
    if category == FinanceKnowledge {
      if !ragUsed {
        note := RagNotUsed;
      } else if ragInsufficient {
        note := RagLimited;
      } else {
        note := RagSufficient;
      }
    } else {
      note := NoRagNeeded;
    }
  }

  /**
   * `get_response(query)`. `kickoffs` records the task lists its fresh crew
   * was kicked off with: the initial task alone, then, if that kickoff
   * returned, the refiner alone.
   */
  method GetResponse(query: string, env: Env, llm: seq<Task> -> KickoffResult)
    returns (report: string, ghost kickoffs: seq<seq<Task>>)
    ensures report == InterfaceReport(query, env, llm)
    ensures var qt := DetermineQuestionType(query, env.classifierReply(query));
      && |kickoffs| >= 1 && kickoffs[0] == [InitialTask(qt, query, env)]
      && (|kickoffs| == 2 <==> llm([InitialTask(qt, query, env)]).Finished?)
      && (|kickoffs| == 2 ==>
            kickoffs[1] == [InterfaceRefiner(query, env, llm([InitialTask(qt, query, env)]).output)])
      && |kickoffs| <= 2
      && forall k :: 0 <= k < |kickoffs| ==> |kickoffs[k]| == 1
  {
    var financeCrew := new Crew();
    var qt := DetermineQuestionType(query, env.classifierReply(query));
    financeCrew.tasks := [];

    ghost var contexts := if qt.category == FinanceKnowledge then env.vectorSearch(query, InterfaceTopK) else [];
    var ragUsed, ragInsufficient := RetrieveFlags(qt.category, query, env);
    var initialTask := InitialTask(qt, query, env);

    financeCrew.tasks := financeCrew.tasks + [initialTask];
    assert financeCrew.tasks == [initialTask];
    var initialResponse := financeCrew.Kickoff(llm);
    assert financeCrew.history == [[initialTask]];
    kickoffs := financeCrew.history;
    if initialResponse.Raised? {
      return ErrorReport(initialResponse.message), kickoffs;
    }

    var note := ChooseNote(qt.category, ragUsed, ragInsufficient);
    assert note == InterfaceNote(qt.category, contexts, query);
    var refinerTask := RefinerTaskOf(query, initialResponse.output, qt.category, note);
    assert refinerTask == InterfaceRefiner(query, env, initialResponse.output);
    financeCrew.tasks := [refinerTask];
    var finalReport := financeCrew.Kickoff(llm);
    assert financeCrew.history == [[initialTask], [refinerTask]];
    kickoffs := financeCrew.history;
    if finalReport.Raised? {
      return ErrorReport(finalReport.message), kickoffs;
    }
    report := finalReport.output;
  }
}
