/**
 * main.py: the terminal loop. One crew for the whole session; each line read
 * is stripped, compared with "exit", classified and routed. The refiner is
 * called with a keyword argument it does not accept, so every query that
 * gets that far ends in the loop's error handler.
 */
module MainLoop {
  import opened PyStr
  import opened Utils
  import opened Contexts
  import opened Tasks
  import opened Crews
  import opened Routing

  /** main.py asks the vector store for three contexts. */
  const MainTopK: nat := 3

  /** The exit sentinel test on the already stripped line: it reads "exit" in any letter case. */
  predicate IsExit(query: string) {
    Lower(query) == "exit"
  }

  /** `rag_insufficient` as lines 29-34 leave it. */
  function MainRagInsufficient(category: string, contexts: seq<Context>, query: string): (r: bool)
    ensures category != FinanceKnowledge ==> !r
    ensures category == FinanceKnowledge ==> (r <==> !WholeQueryUseful(contexts, query))
    ensures category == FinanceKnowledge && contexts == [] ==> r
  {
    if category == FinanceKnowledge then !WholeQueryUseful(contexts, query) else false
  }

  /**
   * The message of the `TypeError` raised by the call at line 46: the refiner
   * builder declares `rag_note`, not `rag_insufficient`.
   */
  const RefinerCallError: string :=
    "get_response_refiner_task() got an unexpected keyword argument 'rag_insufficient'"

  const ErrorLinePrefix: string := "Error processing query: "
  const RetryLine: string := "Please try again with a different query.\n"

  /** The two lines the loop's error handler prints. */
  function ErrorLines(message: string): seq<string> {
    [ErrorLinePrefix + message, RetryLine]
  }

  /** The first task main.py builds for a (stripped) query. */
  function MainInitial(query: string, env: Env): Task {
    InitialTask(DetermineQuestionType(query, env.classifierReply(query)), query, env)
  }

  /**
   * What one non-exit iteration prints, given the outcome of its first
   * kickoff: that kickoff's exception, or else the refiner call's `TypeError`.
   */
  function IterationOutput(first: KickoffResult): seq<string> {
    match first
    case Raised(m) => ErrorLines(m)
    case Finished(_) => ErrorLines(RefinerCallError)
  }

  /** What every non-exit query prints, as one function of the query. */
  function Session(env: Env, llm: seq<Task> -> KickoffResult): string -> seq<string> {
    query => IterationOutput(llm([MainInitial(query, env)]))
  }

  /** The queries main.py works on: each input line stripped. */
  function Queries(inputs: seq<string>): (queries: seq<string>)
    ensures |queries| == |inputs|
  {
    seq(|inputs|, k requires 0 <= k < |inputs| => Strip(inputs[k]))
  }

  /**
   * What the loop prints for the (stripped) queries, given what one
   * iteration prints, and whether it ended on "exit" (false: the input ran
   * out and `input()` raised `EOFError`).
   */
  function Transcript(queries: seq<string>, iteration: string -> seq<string>): (seq<string>, bool)
    decreases |queries|
  {
    if queries == [] then ([], false)
    else if IsExit(queries[0]) then (["Goodbye!"], true)
    else
      var rest := Transcript(queries[1..], iteration);
      (iteration(queries[0]) + rest.0, rest.1)
  }

  /** One printed line of the session is one of these four kinds. */
  predicate IsPrintedLine(line: string) {
    line == "Goodbye!" || line == RetryLine || StartsWith(line, ErrorLinePrefix)
  }

  predicate AllPrinted(lines: seq<string>) {
    forall k :: 0 <= k < |lines| ==> IsPrintedLine(lines[k])
  }

  lemma AllPrintedConcat(a: seq<string>, b: seq<string>)
    requires AllPrinted(a) && AllPrinted(b)
    ensures AllPrinted(a + b)
  {
    forall k | 0 <= k < |a + b|
      ensures IsPrintedLine((a + b)[k])
    {
      if k < |a| {
        assert (a + b)[k] == a[k];
      } else {
        assert (a + b)[k] == b[k - |a|];
      }
    }
  }

  /**
   * Lines printed in error-handler pairs: each even line carries the error
   * prefix and each odd line is the retry prompt.
   */
  predicate ErrorPairs(lines: seq<string>) {
    |lines| % 2 == 0 &&
    forall k :: 0 <= k < |lines| ==>
      if k % 2 == 0 then StartsWith(lines[k], ErrorLinePrefix) else lines[k] == RetryLine
  }

  /** Error-handler lines never include the farewell. */
  lemma ErrorPairsNoFarewell(lines: seq<string>)
    requires ErrorPairs(lines)
    ensures "Goodbye!" !in lines
  {
  }

  lemma ErrorPairsConcat(a: seq<string>, b: seq<string>)
    requires ErrorPairs(a) && ErrorPairs(b)
    ensures ErrorPairs(a + b)
  {
    forall k | 0 <= k < |a + b|
      ensures if k % 2 == 0 then StartsWith((a + b)[k], ErrorLinePrefix) else (a + b)[k] == RetryLine
    {
      if k < |a| {
        assert (a + b)[k] == a[k];
      } else {
        assert (a + b)[k] == b[k - |a|];
        assert (k - |a|) % 2 == k % 2;
      }
    }
  }

  /** Each iteration prints the two lines of the error handler, and never the farewell. */
  lemma IterationPrintsError(first: KickoffResult)
    ensures |IterationOutput(first)| == 2
    ensures AllPrinted(IterationOutput(first))
    ensures StartsWith(IterationOutput(first)[0], ErrorLinePrefix) && IterationOutput(first)[1] == RetryLine
    ensures ErrorPairs(IterationOutput(first))
    ensures "Goodbye!" !in IterationOutput(first)
  {
    var message := if first.Raised? then first.message else RefinerCallError;
    assert IterationOutput(first) == ErrorLines(message);
    assert StartsWith(ErrorLines(message)[0], ErrorLinePrefix);
    assert RetryLine != "Goodbye!";
  }

  lemma {:induction false} TranscriptAllPrinted(queries: seq<string>, iteration: string -> seq<string>)
    requires forall query :: AllPrinted(iteration(query))
    ensures AllPrinted(Transcript(queries, iteration).0)
    decreases |queries|
  {
    var printed := Transcript(queries, iteration).0;
    if queries == [] {
    } else if IsExit(queries[0]) {
      assert printed == ["Goodbye!"];
    } else {
      var rest := Transcript(queries[1..], iteration).0;
      TranscriptAllPrinted(queries[1..], iteration);
      assert printed == iteration(queries[0]) + rest;
      AllPrintedConcat(iteration(queries[0]), rest);
    }
  }

  /** No final report is ever printed: every line is a farewell or part of an error message. */
  lemma NoFinalReport(inputs: seq<string>, env: Env, llm: seq<Task> -> KickoffResult)
    ensures AllPrinted(Transcript(Queries(inputs), Session(env, llm)).0)
  {
    forall query
      ensures AllPrinted(Session(env, llm)(query))
    {
      IterationPrintsError(llm([MainInitial(query, env)]));
    }
    TranscriptAllPrinted(Queries(inputs), Session(env, llm));
  }

  /** An exit line ends the session at once: nothing is classified, retrieved or asked of the LLM. */
  lemma ExitLineEndsSession(exit: string, rest: seq<string>, iteration: string -> seq<string>)
    requires IsExit(Strip(exit))
    ensures Transcript(Queries([exit] + rest), iteration) == (["Goodbye!"], true)
  {
    assert Queries([exit] + rest)[0] == Strip(exit);
  }

  lemma {:induction false} StopsAtExit(before: seq<string>, exit: string, after1: seq<string>, after2: seq<string>,
                                       iteration: string -> seq<string>)
    requires IsExit(exit)
    ensures Transcript(before + [exit] + after1, iteration) == Transcript(before + [exit] + after2, iteration)
    decreases |before|
  {
    var in1 := before + [exit] + after1;
    var in2 := before + [exit] + after2;
    if before == [] {
      assert in1[0] == exit && in2[0] == exit;
    } else {
      assert in1[0] == before[0] && in2[0] == before[0];
      assert in1[1..] == before[1..] + [exit] + after1;
      assert in2[1..] == before[1..] + [exit] + after2;
      StopsAtExit(before[1..], exit, after1, after2, iteration);
    }
  }

  /** Stripping works line by line. */
  lemma QueriesConcat(a: seq<string>, b: seq<string>)
    ensures Queries(a + b) == Queries(a) + Queries(b)
  {
    forall k | 0 <= k < |a + b|
      ensures Queries(a + b)[k] == (Queries(a) + Queries(b))[k]
    {
      if k < |a| {
        assert (a + b)[k] == a[k];
      } else {
        assert (a + b)[k] == b[k - |a|];
      }
    }
  }

  /**
   * The loop stops reading at the first exit line: what follows it makes no
   * difference, whatever the services and the LLM would have answered.
   */
  lemma InputsAfterExitIgnored(before: seq<string>, exit: string, after1: seq<string>, after2: seq<string>,
                               iteration: string -> seq<string>)
    requires IsExit(Strip(exit))
    ensures Transcript(Queries(before + [exit] + after1), iteration) == Transcript(Queries(before + [exit] + after2), iteration)
  {
    QueriesConcat(before + [exit], after1);
    QueriesConcat(before + [exit], after2);
    QueriesConcat(before, [exit]);
    assert Queries([exit]) == [Strip(exit)];
    StopsAtExit(Queries(before), Strip(exit), Queries(after1), Queries(after2), iteration);
  }

  lemma {:induction false} TranscriptLength(queries: seq<string>, iteration: string -> seq<string>)
    requires forall k :: 0 <= k < |queries| ==> !IsExit(queries[k])
    requires forall query :: |iteration(query)| == 2
    ensures |Transcript(queries, iteration).0| == 2 * |queries|
    ensures !Transcript(queries, iteration).1
    decreases |queries|
  {
    if queries != [] {
      assert !IsExit(queries[0]);
      TranscriptLength(queries[1..], iteration);
    }
  }

  lemma {:induction false} TranscriptErrorPairs(queries: seq<string>, iteration: string -> seq<string>)
    requires forall k :: 0 <= k < |queries| ==> !IsExit(queries[k])
    requires forall query :: ErrorPairs(iteration(query))
    ensures ErrorPairs(Transcript(queries, iteration).0)
    decreases |queries|
  {
    if queries != [] {
      assert !IsExit(queries[0]);
      TranscriptErrorPairs(queries[1..], iteration);
      ErrorPairsConcat(iteration(queries[0]), Transcript(queries[1..], iteration).0);
    }
  }

  /**
   * An error does not end the session: without an exit line, every line gets
   * its two error lines, in order, and the farewell is never printed.
   */
  lemma EveryQueryAnswered(inputs: seq<string>, env: Env, llm: seq<Task> -> KickoffResult)
    requires forall k :: 0 <= k < |inputs| ==> !IsExit(Strip(inputs[k]))
    ensures |Transcript(Queries(inputs), Session(env, llm)).0| == 2 * |inputs|
    ensures !Transcript(Queries(inputs), Session(env, llm)).1
    ensures ErrorPairs(Transcript(Queries(inputs), Session(env, llm)).0)
    ensures "Goodbye!" !in Transcript(Queries(inputs), Session(env, llm)).0
  {
    forall query
      ensures |Session(env, llm)(query)| == 2 && ErrorPairs(Session(env, llm)(query))
    {
      IterationPrintsError(llm([MainInitial(query, env)]));
    }
    TranscriptLength(Queries(inputs), Session(env, llm));
    TranscriptErrorPairs(Queries(inputs), Session(env, llm));
    ErrorPairsNoFarewell(Transcript(Queries(inputs), Session(env, llm)).0);
  }

  /**
   * One iteration of the loop body after the exit test (lines 25-53). The
   * task list is reset and then holds the initial task, which it still holds
   * afterwards: the refiner replacement at line 47 is never reached.
   */
  method ProcessQuery(financeCrew: Crew, query: string, env: Env, llm: seq<Task> -> KickoffResult)
    returns (lines: seq<string>)
    modifies financeCrew
    ensures lines == IterationOutput(llm([MainInitial(query, env)]))
    ensures financeCrew.tasks == [MainInitial(query, env)]
    ensures financeCrew.history == old(financeCrew.history) + [[MainInitial(query, env)]]
  {
    var qt := DetermineQuestionType(query, env.classifierReply(query));
    financeCrew.tasks := [];

    var ragInsufficient := false;
    if qt.category == FinanceKnowledge {
      var contexts := env.vectorSearch(query, MainTopK);
      var isContextUseful := WholeQueryUseful(contexts, query);
      ragInsufficient := !isContextUseful;
      assert ragInsufficient == MainRagInsufficient(qt.category, contexts, query);
    }
    var initialTask := InitialTask(qt, query, env);

    financeCrew.tasks := financeCrew.tasks + [initialTask];
    assert financeCrew.tasks == [initialTask];
    var initialResponse := financeCrew.Kickoff(llm);
    if initialResponse.Raised? {
      lines := ErrorLines(initialResponse.message);
    } else {
      lines := ErrorLines(RefinerCallError);
    }
  }

  /**
   * `main()` on a finite sequence of input lines: the lines printed after
   * the banner, and whether the loop ended on "exit".
   */
  method Run(inputs: seq<string>, env: Env, llm: seq<Task> -> KickoffResult) returns (printed: seq<string>, exited: bool)
    ensures (printed, exited) == Transcript(Queries(inputs), Session(env, llm))
  {
    var financeCrew := new Crew();
    ghost var session := Session(env, llm);
    ghost var queries := Queries(inputs);
    printed := [];
    exited := false;
    var i := 0;
    while true
      invariant 0 <= i <= |inputs|
      invariant printed + Transcript(queries[i..], session).0 == Transcript(queries, session).0
      invariant Transcript(queries[i..], session).1 == Transcript(queries, session).1
      invariant !exited
      decreases |inputs| - i
    {
      if i == |inputs| {
        // `input()` raises EOFError, which nothing catches.
        assert queries[i..] == [];
        assert printed == Transcript(queries, session).0;
        break;
      }
      var query := Strip(inputs[i]);
      assert queries[i..][0] == query;
      if IsExit(query) {
        printed := printed + ["Goodbye!"];
        exited := true;
        assert Transcript(queries[i..], session) == (["Goodbye!"], true);
        assert printed == Transcript(queries, session).0;
        break;
      }
      var lines := ProcessQuery(financeCrew, query, env, llm);
      assert queries[i..][1..] == queries[i + 1..];
      assert session(query) == lines;
      assert Transcript(queries[i..], session).0 == lines + Transcript(queries[i + 1..], session).0;
      assert Transcript(queries[i..], session).1 == Transcript(queries[i + 1..], session).1;
      printed := printed + lines;
      i := i + 1;
    }
  }
}
