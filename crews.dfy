/**
 * The part of crewai's `Crew` that the chatbot relies on: a mutable `tasks`
 * list and `kickoff()`, which runs the listed tasks through the LLM and
 * either returns the final output or raises.
 */
module Crews {
  import opened Tasks

  /** The outcome of `kickoff()`: its output as text, or the raised exception as text. */
  datatype KickoffResult = Finished(output: string) | Raised(message: string)

  class Crew {
    /** `crew.tasks`, reassigned and appended to by the callers. */
    var tasks: seq<Task>
    /** The task lists the crew has been kicked off with, oldest first. */
    ghost var history: seq<seq<Task>>

    constructor ()
      ensures tasks == [] && history == []
    {
      tasks := [];
      history := [];
    }

    /**
     * `crew.kickoff()`. The LLM is a parameter: what it answers depends only
     * on the tasks it is given.
     */
    method Kickoff(llm: seq<Task> -> KickoffResult) returns (r: KickoffResult)
      modifies this
      ensures r == llm(tasks)
      ensures tasks == old(tasks) && history == old(history) + [tasks]
    {
      r := llm(tasks);
      history := history + [tasks];
    }
  }
}
