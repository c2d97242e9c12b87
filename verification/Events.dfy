/** What a run's log records, as far as the harness loop and its readers look at it. */
module Events {
  import opened Wrappers

  datatype Status = Passed | FailedRun | ErrorStatus | ReviewRequired | DeploymentRequired | Paused | Cancelled

  // What the loop was doing, as recorded by a cancel or error entry.
  datatype Phase =
    | NoPhase | WorkspacePrepare | AgentNext | PausedPhase | ToolAction | ToolObservation
    | Verifying | Evaluating | Reviewing | MaxIterations

  // Numbers that are absent or not finite are None.
  datatype Usage = Usage(
    promptTokens: Option<real>, completionTokens: Option<real>, totalTokens: Option<real>, costUsd: Option<real>)

  datatype Entry =
    | UserMessage
    | RunMetadata
    | RunPolicy
    | Resume
    | Prepare(passed: bool)
    | AgentRetry
    | ModelUsage(usage: Usage)
    | Assistant(content: string, iteration: nat, actionCount: nat, finishRequested: bool)
    | Action
    | Observation
    | Verification(ok: bool)
    | Evaluation(ok: bool)
    | Reviewer(ok: bool)
    | ReviewGate
    | DeploymentGate
    | Pause
    | Cancel(phase: Phase)
    | Error(phase: Phase)
    | Finish(status: Status)

  type Log = seq<Entry>

  function AssistantCount(log: Log): nat {
    if log == [] then 0
    else AssistantCount(log[..|log| - 1]) + if log[|log| - 1].Assistant? then 1 else 0
  }

  lemma {:induction false} AssistantCountOfConcat(a: Log, b: Log)
    ensures AssistantCount(a + b) == AssistantCount(a) + AssistantCount(b)
  {
    if b == [] {
      assert a + b == a;
    } else {
      AssistantCountOfConcat(a, b[..|b| - 1]);
      assert (a + b)[..|a + b| - 1] == a + b[..|b| - 1];
    }
  }
}
