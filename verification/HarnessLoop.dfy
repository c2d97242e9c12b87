/** One invocation of the harness loop.

What an invocation may append is given by an automaton over log entries (`State`); the loop itself,
with its pauses, gates, exceptions and early returns, is the imperative `HarnessRun`, proved to append
only words that take the automaton to `Closed`.  What those words have in common is proved about the
automaton, in `HarnessRuns`. */
module HarnessLoop {
  import opened Wrappers
  import opened Events
  import opened Agents
  import opened LogFile

  datatype Options = Options(
    resume: bool, hasMetadata: bool, hasPrepare: bool, canPause: bool,
    hasEvaluation: bool, hasReviewer: bool, reviewRequired: bool, deploymentRequired: bool,
    maxIterations: int)

  // `counted` is the number of assistant messages that the invocation finds in the log; `prior` of them
  // are left once it has written its first entry.
  datatype Spec = Spec(o: Options, counted: nat, prior: nat, agent: Behaviour)

  function SpecFor(o: Options, found: File<Entry>, agent: Behaviour): Spec {
    Spec(o, AssistantCount(found.log), AssistantCount(Base(found)), agent)
  }

  /** What a reader sees of the entries an invocation has written: if the file it found did not end at a
  line start, the first one is lost. */
  function Shown(found: File<Entry>, word: Log): Log {
    if word == [] || found.end.LineStart? then word else word[1..]
  }

  lemma ShownGrows(found: File<Entry>, word: Log, e: Entry)
    ensures word != [] ==> Shown(found, word + [e]) == Shown(found, word) + [e]
    ensures Base(found) + Shown(found, [e]) == Appended(found, e).log
  {
    assert [e][1..] == [] && Base(found) + [] == Base(found);
    if word != [] { assert (word + [e])[1..] == word[1..] + [e]; }
  }

  datatype Stage =
    | Start
    | Greeted
    | Described
    | Opened
    | Preparing
    | Asking(done: nat, emitted: bool)                 // `done` messages so far in this invocation
    | Exhausted
    | Acting(done: nat, left: nat, finish: bool)       // `left` actions still to run, at least one
    | Observing(done: nat, left: nat, finish: bool)    // and one that has been started
    | Finishing
    | Evaluated
    | Reviewed
    | ReviewAsked
    | DeploymentAsked
    | Closing(status: Status)
    | Closed(status: Status)
    | Reject

  // Evaluated, Reviewed, ReviewAsked and DeploymentAsked: about to be.

  /** The iteration recorded with the next message: only a resumed invocation counts on from the log. */
  function NextIteration(spec: Spec, done: nat): nat {
    (if spec.o.resume then spec.counted else 0) + done + 1
  }

  predicate Says(spec: Spec, done: nat, e: Entry) {
    && e.Assistant?
    && e.iteration == NextIteration(spec, done)
    && (Known(spec.agent, spec.prior + done) ==>
          match StepOf(spec.agent, spec.prior + done)
          case None => false
          case Some(step) =>
            e.content == step.message && e.actionCount == |step.actions| && e.finishRequested == step.finish)
  }

  /** The step that the agent is known to answer next, if it is known. */
  predicate MaySay(spec: Spec, done: nat, step: AgentStep) {
    Known(spec.agent, spec.prior + done) ==> StepOf(spec.agent, spec.prior + done) == Some(step)
  }

  /** The status of a run that passed its verification and evaluation: it depends on the options alone. */
  function Verdict(o: Options): Status {
    if o.reviewRequired then ReviewRequired else if o.deploymentRequired then DeploymentRequired else Passed
  }

  function Ask(o: Options, done: nat): Stage {
    if done < o.maxIterations then Asking(done, false) else Exhausted
  }

  function AfterActions(o: Options, done: nat, left: nat, finish: bool): Stage {
    if left > 0 then Acting(done, left, finish) else if finish then Finishing else Ask(o, done)
  }

  function AfterVerification(o: Options, ok: bool): Stage {
    if ok && o.hasEvaluation then Evaluated else AfterEvaluation(o, ok)
  }

  function AfterEvaluation(o: Options, ok: bool): Stage {
    if !ok then Closing(FailedRun) else if o.hasReviewer then Reviewed else AfterReviewer(o)
  }

  function AfterReviewer(o: Options): Stage {
    if o.reviewRequired then ReviewAsked else AfterReviewGate(o)
  }

  function AfterReviewGate(o: Options): Stage {
    if o.deploymentRequired then DeploymentAsked else Closing(Verdict(o))
  }

  function Interrupted(e: Entry, phase: Phase): Stage {
    if e == Cancel(phase) then Closing(Cancelled)
    else if e == Error(phase) then Closing(ErrorStatus)
    else Reject
  }

  function Answered(spec: Spec, done: nat, emitted: bool, e: Entry): Stage {
    match e
    case Pause => if spec.o.canPause && !emitted then Closing(Paused) else Reject
    case AgentRetry => if !Known(spec.agent, spec.prior + done) then Asking(done, true) else Reject
    case ModelUsage(_) => if !Known(spec.agent, spec.prior + done) then Asking(done, true) else Reject
    case Assistant(_, _, count, finish) =>
      if Says(spec, done, e) then AfterActions(spec.o, done + 1, count, finish) else Reject
    case _ => Interrupted(e, AgentNext)
  }

  function Next(spec: Spec, q: Stage, e: Entry): Stage {
    match q
    case Start =>
      if spec.o.resume then if e.Resume? then Opened else Reject
      else if e.UserMessage? then if spec.o.hasMetadata then Greeted else Described
      else Reject
    case Greeted => if e.RunMetadata? then Described else Reject
    case Described => if e.RunPolicy? then Opened else Reject
    case Opened =>
      if e == Cancel(NoPhase) then Closing(Cancelled)
      else if spec.o.hasPrepare then if e == Prepare(false) then Preparing else Reject
      else Turned(spec, Ask(spec.o, 0), e)
    case Preparing => if e == Prepare(true) then Ask(spec.o, 0) else Interrupted(e, WorkspacePrepare)
    case Asking(_, _) => Turned(spec, q, e)
    case Exhausted => Turned(spec, q, e)
    case Acting(done, left, finish) =>
      if e.Action? && left > 0 then Observing(done, left - 1, finish)
      else if e == Cancel(ToolAction) then Closing(Cancelled)
      else Reject
    case Observing(done, left, finish) =>
      if e.Observation? then AfterActions(spec.o, done, left, finish) else Interrupted(e, ToolObservation)
    case Finishing => if e.Verification? then AfterVerification(spec.o, e.ok) else Interrupted(e, Verifying)
    case Evaluated => if e.Evaluation? then AfterEvaluation(spec.o, e.ok) else Interrupted(e, Evaluating)
    case Reviewed => if e.Reviewer? then AfterReviewer(spec.o) else Interrupted(e, Reviewing)
    case ReviewAsked => if e.ReviewGate? then AfterReviewGate(spec.o) else Reject
    case DeploymentAsked => if e.DeploymentGate? then Closing(Verdict(spec.o)) else Reject
    case Closing(status) => if e == Finish(status) then Closed(status) else Reject
    case Closed(_) => Reject
    case Reject => Reject
  }

  /** One entry at the head of the loop. */
  function Turned(spec: Spec, q: Stage, e: Entry): Stage {
    match q
    case Asking(done, emitted) => Answered(spec, done, emitted, e)
    case _ => if e == Error(MaxIterations) then Closing(FailedRun) else Reject
  }

  /** Where a word takes the automaton. */
  function State(spec: Spec, word: Log): Stage {
    if word == [] then Start else Next(spec, State(spec, word[..|word| - 1]), word[|word| - 1])
  }

  lemma OneMore(spec: Spec, word: Log, e: Entry)
    ensures State(spec, word + [e]) == Next(spec, State(spec, word), e)
    ensures Recorded(word + [e]) == Record(Recorded(word), e)
  {
    assert (word + [e])[..|word + [e]| - 1] == word;
  }

  lemma NeverBackToStart(spec: Spec, q: Stage, e: Entry)
    ensures !Next(spec, q, e).Start?
  {
  }

  lemma OneMoreCounted(log: Log, e: Entry)
    ensures AssistantCount(log + [e]) == AssistantCount(log) + if e.Assistant? then 1 else 0
  {
    assert (log + [e])[..|log + [e]| - 1] == log;
  }

  // What the invocation's own variables hold when it writes its summary.
  datatype Results = Results(
    verification: Option<bool>, evaluation: Option<bool>, reviewer: Option<bool>,
    review: bool, deployment: bool, failure: Option<Phase>)

  const NO_RESULTS := Results(None, None, None, false, false, None)

  function Record(r: Results, e: Entry): Results {
    match e
    case Verification(ok) => r.(verification := Some(ok))
    case Evaluation(ok) => r.(evaluation := Some(ok))
    case Reviewer(ok) => r.(reviewer := Some(ok))
    case ReviewGate => r.(review := true)
    case DeploymentGate => r.(deployment := true)
    case Error(phase) => r.(failure := Some(phase))
    case _ => r
  }

  /** The last result of each kind that a word records. */
  function Recorded(word: Log): Results {
    if word == [] then NO_RESULTS else Record(Recorded(word[..|word| - 1]), word[|word| - 1])
  }

  // ---------- what ran ----------

  // Commands, a tool or the preparation of the workspace; None when it threw.
  datatype Ran = Ran(what: Phase, ok: Option<bool>)

  predicate IsReport(e: Entry) {
    e == Prepare(true) || e.Observation? || e.Verification? || e.Evaluation? || e.Reviewer?
  }

  /** The entries that report on something that ran to its end. */
  function Reports(word: Log): Log {
    if word == [] then []
    else Reports(word[..|word| - 1]) + if IsReport(word[|word| - 1]) then [word[|word| - 1]] else []
  }

  function ReportOf(r: Ran): Log {
    match r.ok
    case None => []
    case Some(ok) =>
      match r.what
      case WorkspacePrepare => [Prepare(true)]
      case ToolObservation => [Observation]
      case Verifying => [Verification(ok)]
      case Evaluating => [Evaluation(ok)]
      case _ => [Reviewer(ok)]
  }

  /** The reports that are due for what ran. */
  function Due(ran: seq<Ran>): Log {
    if ran == [] then [] else Due(ran[..|ran| - 1]) + ReportOf(ran[|ran| - 1])
  }

  lemma OneMoreReport(word: Log, e: Entry)
    ensures Reports(word + [e]) == Reports(word) + if IsReport(e) then [e] else []
  {
    assert (word + [e])[..|word + [e]| - 1] == word;
  }

  lemma OneMoreDue(ran: seq<Ran>, r: Ran)
    ensures Due(ran + [r]) == Due(ran) + ReportOf(r)
  {
    assert (ran + [r])[..|ran + [r]| - 1] == ran;
  }

  // ---------- single transitions ----------

  predicate MayInterrupt(spec: Spec, q: Stage, phase: Phase) {
    Next(spec, q, Cancel(phase)) == Closing(Cancelled) && Next(spec, q, Error(phase)) == Closing(ErrorStatus)
  }

  lemma FinishCloses(spec: Spec, status: Status)
    ensures Next(spec, Closing(status), Finish(status)) == Closed(status)
  {
  }

  lemma Opens(spec: Spec)
    ensures spec.o.resume ==> Next(spec, Start, Resume) == Opened
    ensures !spec.o.resume ==> Next(spec, Start, UserMessage) == if spec.o.hasMetadata then Greeted else Described
    ensures Next(spec, Greeted, RunMetadata) == Described && Next(spec, Described, RunPolicy) == Opened
  {
  }

  lemma GateTransitions(spec: Spec, gate: Phase, ok: bool)
    requires gate in {Verifying, Evaluating, Reviewing}
    ensures Next(spec, StageOfGate(gate), GateEntry(gate, ok)) == AfterGate(spec.o, gate, ok)
    ensures MayInterrupt(spec, StageOfGate(gate), gate)
  {
  }

  lemma HumanGates(spec: Spec)
    ensures Next(spec, ReviewAsked, ReviewGate) == AfterReviewGate(spec.o)
    ensures Next(spec, DeploymentAsked, DeploymentGate) == Closing(Verdict(spec.o))
  {
  }

  lemma ActionTransitions(spec: Spec, done: nat, left: nat, finish: bool)
    requires left > 0
    ensures Next(spec, Acting(done, left, finish), Action) == Observing(done, left - 1, finish)
    ensures Next(spec, Acting(done, left, finish), Cancel(ToolAction)) == Closing(Cancelled)
    ensures Next(spec, Observing(done, left - 1, finish), Observation) == AfterActions(spec.o, done, left - 1, finish)
    ensures MayInterrupt(spec, Observing(done, left - 1, finish), ToolObservation)
  {
  }

  /** At the head of the loop, with `done` messages behind this invocation. */
  predicate TurnStage(o: Options, q: Stage, done: nat) {
    q == Ask(o, done) || (done == 0 && q == Opened && !o.hasPrepare)
  }

  lemma TurnTransitions(spec: Spec, q: Stage, done: nat, e: Entry)
    requires done < spec.o.maxIterations && (TurnStage(spec.o, q, done) || q == Asking(done, true))
    ensures MayInterrupt(spec, q, AgentNext)
    ensures !Known(spec.agent, spec.prior + done) && (e.AgentRetry? || e.ModelUsage?) ==>
              Next(spec, q, e) == Asking(done, true)
    ensures TurnStage(spec.o, q, done) && spec.o.canPause ==> Next(spec, q, Pause) == Closing(Paused)
    ensures Says(spec, done, e) ==> Next(spec, q, e) == AfterActions(spec.o, done + 1, e.actionCount, e.finishRequested)
  {
    hide StepOf, Known;
  }

  lemma OpenedTransitions(spec: Spec, done: nat)
    ensures Next(spec, Opened, Cancel(NoPhase)) == Closing(Cancelled)
    ensures spec.o.hasPrepare ==> Next(spec, Opened, Prepare(false)) == Preparing
    ensures Next(spec, Preparing, Prepare(true)) == Ask(spec.o, 0) && MayInterrupt(spec, Preparing, WorkspacePrepare)
    ensures done >= spec.o.maxIterations ==> Next(spec, Exhausted, Error(MaxIterations)) == Closing(FailedRun)
    ensures !spec.o.hasPrepare && spec.o.maxIterations <= 0 ==> Next(spec, Opened, Error(MaxIterations)) == Closing(FailedRun)
  {
  }

  datatype Summary = Summary(status: Status, eventCount: nat, results: Results)

  datatype Outcome = Continue | Thrown | Ended(summary: Summary)

  class HarnessRun {
    const o: Options
    const agent: SetupAgent    // with no setup steps in it, just the agent it wraps
    var file: File<Entry>      // the run's log file
    var aborted: bool          // the abort signal; once set it stays set
    var phase: Phase
    var offset: nat            // iteration offset
    var results: Results

    ghost const found: File<Entry>  // the log file as this invocation found it
    ghost const spec: Spec
    ghost var word: Log        // the entries appended so far
    ghost var stage: Stage     // and where they take the automaton
    ghost var recorded: Results
    ghost var reports: Log
    ghost var ran: seq<Ran>    // what ran so far, in order
    ghost var count: nat       // the assistant messages in the log

    constructor (o: Options, agent: SetupAgent, file: File<Entry>)
      ensures this.o == o && this.agent == agent && this.file == file && found == file && word == [] && ran == []
      ensures spec == SpecFor(o, file, BehaviourOf(agent))
      ensures Tracks() && stage == Start && !aborted && results == recorded == NO_RESULTS && reports == Due(ran)
    {
      this.o, this.agent, this.file := o, agent, file;
      aborted, phase, offset, results := false, NoPhase, 0, NO_RESULTS;
      found, word, reports, ran := file, [], [], [];
      spec := SpecFor(o, file, BehaviourOf(agent));
      stage, recorded, count := Start, NO_RESULTS, AssistantCount(file.log);
    }

    /** The ghost fields say what this invocation's own entries amount to. */
    ghost predicate Tracks()
      reads this
    {
      && file == (if word == [] then found else File(Base(found) + Shown(found, word), LineStart))
      && stage == State(spec, word)
      && (stage.Start? <==> word == [])
      && recorded == Recorded(word)
      && reports == Reports(word)
      && count == AssistantCount(file.log)
    }

    method Append(e: Entry)
      requires Tracks()
      modifies this`file, this`word, this`reports, this`stage, this`recorded, this`count
      ensures Tracks()
      ensures file == Appended(old(file), e) && word == old(word) + [e]
      ensures stage == Next(spec, old(stage), e)
      ensures recorded == Record(old(recorded), e)
      ensures reports == old(reports) + if IsReport(e) then [e] else []
      ensures !old(stage).Start? ==> file.log == old(file).log + [e] && count == old(count) + if e.Assistant? then 1 else 0
      ensures old(stage).Start? && !e.Assistant? ==> count == AssistantCount(Base(found))
    {
      hide State, Recorded, AssistantCount, Reports, Due, Next, Record, Reports, IsReport;
      OneMore(spec, word, e);
      OneMoreReport(word, e);
      NeverBackToStart(spec, stage, e);
      ShownGrows(found, word, e);
      OneMoreCounted(Base(file), e);
      assert Base(file) + [] == Base(file);
      word := word + [e];
      file := Appended(file, e);
      stage, recorded := Next(spec, stage, e), Record(recorded, e);
      reports := Reports(word);
      count := AssistantCount(file.log);
    }

    /** The abort signal may be set at any time by others. */
    method Poll()
      modifies this`aborted
      ensures old(aborted) ==> aborted
    {
      if * { aborted := true; }
    }

    /** Every report is on something that ran, and everything that ran to its end is reported. */
    ghost predicate Valid()
      reads this
    {
      && Tracks()
      && results == recorded
      && reports == Due(ran)
      && spec == SpecFor(o, found, BehaviourOf(agent))
    }

    /** The catch clause may follow: what it appends is what the automaton expects here. */
    ghost predicate MayThrow()
      reads this
    {
      && Next(spec, stage, Cancel(phase)) == Closing(Cancelled)
      && (!aborted ==> Next(spec, stage, Error(phase)) == Closing(ErrorStatus))
    }

    /** The summary is the invocation's own variables and the whole log's length. */
    ghost predicate Concludes(summary: Summary)
      reads this
    {
      stage == Closed(summary.status) && summary == Summary(summary.status, |file.log|, results)
    }

    /** The number of this invocation's messages that the log shows, `done`, is kept in step, and the
    agent is not ahead of the log. */
    ghost predicate Counted(done: nat)
      reads this, agent, agent.agent
    {
      && count == spec.prior + done && agent.index <= count
      && (agent.agent != null ==>
            agent.agent.offset == |agent.setup| && Behind(agent.setup, agent.agent.index, count))
    }

    method Open()
      requires Valid() && stage == Start
      modifies this`file, this`word, this`reports, this`stage, this`recorded, this`count, this`offset
      ensures Valid() && stage == Opened && count == spec.prior
      ensures offset + 1 == NextIteration(spec, 0)
    {
      hide State, Recorded, AssistantCount, Reports, Due, Next, Shown, Base, Appended;
      Opens(spec);
      if o.resume {
        offset := AssistantCount(file.log);
        Append(Resume);
      } else {
        Append(UserMessage);
        if o.hasMetadata { Append(RunMetadata); }
        Append(RunPolicy);
        offset := 0;
      }
    }

    /** Commands in the workspace, a tool, or its preparation: they throw, or succeed, or fail. */
    method RunCommands(what: Phase) returns (ok: Option<bool>)
      modifies this`ran
      ensures ran == old(ran) + [Ran(what, ok)] && Due(ran) == old(Due(ran)) + ReportOf(Ran(what, ok))
    {
      if {
        case true => ok := None;
        case true => ok := Some(true);
        case true => ok := Some(false);
      }
      OneMoreDue(ran, Ran(what, ok));
      ran := ran + [Ran(what, ok)];
    }

    method Conclude(status: Status) returns (summary: Summary)
      requires Valid() && stage == Closing(status)
      modifies this`file, this`word, this`reports, this`stage, this`recorded, this`count
      ensures Valid() && Concludes(summary) && summary.status == status
    {
      hide State, Recorded, AssistantCount, Reports, Due, Next, Shown, Base, Appended;
      FinishCloses(spec, status);
      Append(Finish(status));
      summary := Summary(status, |file.log|, results);
    }

    /** One of the three command gates: verification, evaluation, reviewer.  None: it throws. */
    method RunGate(gate: Phase) returns (ok: Option<bool>)
      requires Valid() && stage == StageOfGate(gate) && gate in {Verifying, Evaluating, Reviewing}
      modifies this`file, this`word, this`reports, this`ran, this`stage, this`recorded, this`count, this`results, this`phase, this`aborted
      ensures Valid()
      ensures if ok.None? then MayThrow() else stage == AfterGate(o, gate, ok.value)
    {
      hide State, Recorded, AssistantCount, Reports, Due, Next, Shown, Base, Appended;
      GateTransitions(spec, gate, true);
      GateTransitions(spec, gate, false);
      phase := gate;
      Poll();
      if aborted { return None; }
      ok := RunCommands(gate);
      if ok.Some? {
        var e := GateEntry(gate, ok.value);
        results := Record(results, e);
        Append(e);
      }
    }

    /** From the end of the last turn's actions: verification, evaluation, reviewer, gates, finish. */
    method FinishRun() returns (outcome: Outcome)
      requires Valid() && stage == Finishing
      modifies this`file, this`word, this`reports, this`ran, this`stage, this`recorded, this`count, this`results, this`phase, this`aborted
      ensures Valid() && (outcome.Thrown? || outcome.Ended?)
      ensures outcome.Thrown? ==> MayThrow()
      ensures outcome.Ended? ==> Concludes(outcome.summary)
    {
      hide State, Recorded, AssistantCount, Reports, Due, Next, Shown, Base, Appended;
      var verification := RunGate(Verifying);
      if verification.None? { return Thrown; }
      var gateOk := verification.value;
      if gateOk && o.hasEvaluation {
        var evaluation := RunGate(Evaluating);
        if evaluation.None? { return Thrown; }
        gateOk := evaluation.value;
      }
      if gateOk && o.hasReviewer {
        var reviewer := RunGate(Reviewing);
        if reviewer.None? { return Thrown; }
      }
      if gateOk && o.reviewRequired { RaiseGate(ReviewGate); }
      if gateOk && o.deploymentRequired { RaiseGate(DeploymentGate); }
      var status := if gateOk then
                      if o.reviewRequired then ReviewRequired
                      else if o.deploymentRequired then DeploymentRequired else Passed
                    else FailedRun;
      var summary := Conclude(status);
      outcome := Ended(summary);
    }

    method RaiseGate(gate: Entry)
      requires Valid() && (gate == ReviewGate || gate == DeploymentGate)
      requires stage == if gate == ReviewGate then ReviewAsked else DeploymentAsked
      modifies this`file, this`word, this`reports, this`stage, this`recorded, this`count, this`results
      ensures Valid() && stage == if gate == ReviewGate then AfterReviewGate(o) else Closing(Verdict(o))
    {
      hide State, Recorded, AssistantCount, Reports, Due, Next, Shown, Base, Appended;
      HumanGates(spec);
      results := Record(results, gate);
      Append(gate);
    }

    /** One action and its observation. */
    method RunAction(ghost done: nat, ghost left: nat, ghost finish: bool) returns (thrown: bool)
      requires Valid() && left > 0 && stage == Acting(done, left, finish)
      modifies this`file, this`word, this`reports, this`ran, this`stage, this`recorded, this`count, this`phase, this`aborted
      ensures Valid() && count == old(count)
      ensures if thrown then MayThrow() else stage == AfterActions(o, done, left - 1, finish)
    {
      hide State, Recorded, AssistantCount, Reports, Due, Next, Shown, Base, Appended;
      ActionTransitions(spec, done, left, finish);
      phase := ToolAction;
      Poll();
      if aborted { return true; }
      Append(Action);
      phase := ToolObservation;
      thrown := Observe(done, left, finish);
    }

    /** The tool runs, and its observation is recorded. */
    method Observe(ghost done: nat, ghost left: nat, ghost finish: bool) returns (thrown: bool)
      requires Valid() && left > 0 && stage == Observing(done, left - 1, finish) && phase == ToolObservation
      modifies this`file, this`word, this`reports, this`ran, this`stage, this`recorded, this`count, this`aborted
      ensures Valid() && count == old(count)
      ensures if thrown then MayThrow() else stage == AfterActions(o, done, left - 1, finish)
    {
      hide State, Recorded, AssistantCount, Reports, Due, Next, Shown, Base, Appended;
      ActionTransitions(spec, done, left, finish);
      Poll();
      var observation := RunCommands(ToolObservation);
      if observation.None? { return true; }
      Append(Observation);
      return false;
    }

    ghost predicate AtTurn(done: nat)
      reads this
    {
      TurnStage(o, stage, done)
    }

    /** What an agent about which nothing is known may emit before it answers. */
    method Emissions(ghost done: nat)
      requires Valid() && !Known(spec.agent, spec.prior + done) && done < o.maxIterations && AtTurn(done)
      modifies this`file, this`word, this`reports, this`stage, this`recorded, this`count
      ensures Valid() && count == old(count)
      ensures AtTurn(done) || stage == Asking(done, true)
    {
      hide State, Recorded, AssistantCount, Reports, Due, Next, Shown, Base, Appended;
      var emissions: nat := *;
      while emissions > 0
        invariant Valid() && count == old(count)
        invariant AtTurn(done) || stage == Asking(done, true)
      {
        var usage: Usage := *;
        var retry: bool := *;
        var e := if retry then AgentRetry else ModelUsage(usage);
        TurnTransitions(spec, stage, done, e);
        Append(e);
        emissions := emissions - 1;
      }
    }

    /** The agent's next step.  None: it throws. */
    method AskAgent(ghost done: nat) returns (step: Option<AgentStep>)
      requires Valid() && Counted(done) && done < o.maxIterations && AtTurn(done) && phase == AgentNext
      modifies this`file, this`word, this`reports, this`stage, this`recorded, this`count, this`aborted, agent, agent.agent
      ensures Valid() && count == old(count)
      ensures AtTurn(done) || stage == Asking(done, true)
      ensures step.None? ==> MayThrow()
      ensures Known(spec.agent, count) ==> StepOf(spec.agent, count) == step
      ensures agent.index <= count + 1 && (agent.agent != null ==> Behind(agent.setup, agent.agent.index, count + 1))
    {
      hide State, Recorded, AssistantCount, Reports, Due, Next, Shown, Base, Appended, SetupTurn, Normalize, Answer, Position;
      ghost var index, inner, script := agent.index, 0, [];
      if agent.agent != null { inner, script := agent.agent.index, agent.agent.steps; }
      SetupAnswersNextStep(agent.setup, script, index, inner, file.log);
      step := agent.Next(file.log);
      if agent.agent == null && !Plays(agent.setup, agent.index - 1) { Emissions(done); }
      TurnTransitions(spec, stage, done, Pause);
      Poll();
    }

    /** One round of the loop, message number `done + 1` of this invocation. */
    method TakeTurn(done: nat) returns (outcome: Outcome)
      requires Valid() && Counted(done) && done < o.maxIterations && AtTurn(done)
      requires offset + 1 == NextIteration(spec, 0)
      modifies this`file, this`word, this`reports, this`ran, this`stage, this`recorded, this`count, this`results, this`phase, this`aborted, agent, agent.agent
      ensures Valid()
      ensures match outcome
              case Continue => Counted(done + 1) && stage == Ask(o, done + 1)
              case Thrown => MayThrow()
              case Ended(summary) => Concludes(summary)
    {
      hide State, Recorded, AssistantCount, Reports, Due, Next, Shown, Base, Appended;
      var read := BeginTurn(done);
      if read.None? { return Thrown; }
      if o.canPause && read == Some(false) {
        var summary := PauseRun(done);
        return Ended(summary);
      }
      var answer := AskAgent(done);
      if answer.None? { return Thrown; }
      Say(done, answer.value);
      outcome := PlayStep(done + 1, |answer.value.actions|, answer.value.finish);
    }

    /** The abort check, the log read and the pause control.  Some(false): a pause is requested. */
    method BeginTurn(ghost done: nat) returns (read: Option<bool>)
      requires Valid() && AtTurn(done) && done < o.maxIterations
      modifies this`phase, this`aborted
      ensures Valid() && phase == AgentNext
      ensures read.None? ==> MayThrow()
    {
      hide State, Recorded, AssistantCount, Reports, Due, Next, Shown, Base, Appended;
      TurnTransitions(spec, stage, done, Pause);
      phase := AgentNext;
      Poll();
      if aborted { return None; }
      read := *;
    }

    method PauseRun(ghost done: nat) returns (summary: Summary)
      requires Valid() && AtTurn(done) && done < o.maxIterations && o.canPause
      modifies this`file, this`word, this`reports, this`stage, this`recorded, this`count, this`phase
      ensures Valid() && Concludes(summary)
    {
      hide State, Recorded, AssistantCount, Reports, Due, Next, Shown, Base, Appended;
      TurnTransitions(spec, stage, done, Pause);
      phase := PausedPhase;
      Append(Pause);
      summary := Conclude(Paused);
    }

    method Say(done: nat, step: AgentStep)
      requires Valid() && count == spec.prior + done && done < o.maxIterations
      requires AtTurn(done) || stage == Asking(done, true)
      requires offset + 1 == NextIteration(spec, 0)
      requires MaySay(spec, done, step)
      modifies this`file, this`word, this`reports, this`stage, this`recorded, this`count
      ensures Valid() && count == old(count) + 1
      ensures stage == AfterActions(o, done + 1, |step.actions|, step.finish)
    {
      hide State, Recorded, AssistantCount, Reports, Due, Next, Shown, Base, Appended;
      var e := Assistant(step.message, offset + done + 1, |step.actions|, step.finish);
      TurnTransitions(spec, stage, done, e);
      Append(e);
    }

    /** The rest of a round: the step's actions, and the finish if it asks for one. */
    method PlayStep(ghost done: nat, actions: nat, finish: bool) returns (outcome: Outcome)
      requires Valid() && stage == AfterActions(o, done, actions, finish)
      modifies this`file, this`word, this`reports, this`ran, this`stage, this`recorded, this`count, this`results, this`phase, this`aborted
      ensures Valid()
      ensures match outcome
              case Continue => stage == Ask(o, done) && count == old(count)
              case Thrown => MayThrow()
              case Ended(summary) => Concludes(summary)
    {
      hide State, Recorded, AssistantCount, Reports, Due, Next, Shown, Base, Appended;
      var left := actions;
      while left > 0
        invariant Valid() && count == old(count) && stage == AfterActions(o, done, left, finish)
      {
        var thrown := RunAction(done, left, finish);
        if thrown { return Thrown; }
        left := left - 1;
      }
      if !finish { return Continue; }
      outcome := FinishRun();
    }

    /** The body of the try block. */
    method Body() returns (outcome: Outcome)
      requires Valid() && stage == Opened && Counted(0) && phase == NoPhase
      requires offset + 1 == NextIteration(spec, 0)
      modifies this`file, this`word, this`reports, this`ran, this`stage, this`recorded, this`count, this`results, this`phase, this`aborted, agent, agent.agent
      ensures Valid()
      ensures match outcome
              case Continue => false
              case Thrown => MayThrow()
              case Ended(summary) => Concludes(summary)
    {
      hide State, Recorded, AssistantCount, Reports, Due, Next, Shown, Base, Appended;
      OpenedTransitions(spec, 0);
      Poll();
      if aborted { return Thrown; }
      if o.hasPrepare {
        var thrown := PrepareWorkspace();
        if thrown { return Thrown; }
      }
      var done: nat := 0;
      while done < o.maxIterations
        invariant Valid() && Counted(done) && AtTurn(done)
      {
        outcome := TakeTurn(done);
        if !outcome.Continue? { return; }
        done := done + 1;
      }
      var summary := GiveUp(done);
      return Ended(summary);
    }

    method PrepareWorkspace() returns (thrown: bool)
      requires Valid() && stage == Opened && o.hasPrepare
      modifies this`file, this`word, this`reports, this`ran, this`stage, this`recorded, this`count, this`phase, this`aborted
      ensures Valid() && count == old(count)
      ensures if thrown then MayThrow() else stage == Ask(o, 0)
    {
      hide State, Recorded, AssistantCount, Reports, Due, Next, Shown, Base, Appended;
      OpenedTransitions(spec, 0);
      phase := WorkspacePrepare;
      Append(Prepare(false));
      Poll();
      var prepared := RunCommands(WorkspacePrepare);
      if prepared.None? { return true; }
      Append(Prepare(true));
      return false;
    }

    method GiveUp(ghost done: nat) returns (summary: Summary)
      requires Valid() && AtTurn(done) && done >= o.maxIterations
      modifies this`file, this`word, this`reports, this`stage, this`recorded, this`count, this`results, this`phase
      ensures Valid() && Concludes(summary)
    {
      hide State, Recorded, AssistantCount, Reports, Due, Next, Shown, Base, Appended;
      OpenedTransitions(spec, done);
      phase := MaxIterations;
      results := Record(results, Error(MaxIterations));
      Append(Error(MaxIterations));
      summary := Conclude(FailedRun);
    }

    /** The whole invocation.  Its entries take the automaton to Closed, and the summary says where:
    with the finish status, the whole log's length and the last results that those entries record.  Its
    reports are exactly the outcomes of what ran, in order. */
    method Run() returns (summary: Summary)
      requires Valid() && stage == Start && phase == NoPhase
      requires agent.index == 0
      requires agent.agent != null ==> agent.agent.offset == |agent.setup| && agent.agent.index == 0
      modifies this, agent, agent.agent
      ensures State(spec, word) == Closed(summary.status)
      ensures file == File(Base(found) + Shown(found, word), LineStart)
      ensures summary == Summary(summary.status, |file.log|, Recorded(word))
      ensures Reports(word) == Due(ran)
    {
      hide State, Recorded, AssistantCount, Reports, Due, Next, Shown, Base, Appended;
      Open();
      var outcome := Body();
      if outcome.Ended? { return outcome.summary; }
      summary := Catch();
    }

    /** The catch clause. */
    method Catch() returns (summary: Summary)
      requires Valid() && MayThrow()
      modifies this`file, this`word, this`reports, this`stage, this`recorded, this`count, this`results, this`aborted
      ensures Valid() && Concludes(summary)
    {
      hide State, Recorded, AssistantCount, Reports, Due, Next, Shown, Base, Appended;
      Poll();
      var abortError: bool := *;
      if aborted || abortError {
        Append(Cancel(phase));
        summary := Conclude(Cancelled);
      } else {
        results := Record(results, Error(phase));
        Append(Error(phase));
        summary := Conclude(ErrorStatus);
      }
    }
  }

  function StageOfGate(gate: Phase): Stage {
    match gate
    case Verifying => Finishing
    case Evaluating => Evaluated
    case _ => Reviewed
  }

  function GateEntry(gate: Phase, ok: bool): Entry {
    match gate
    case Verifying => Verification(ok)
    case Evaluating => Evaluation(ok)
    case _ => Reviewer(ok)
  }

  function AfterGate(o: Options, gate: Phase, ok: bool): Stage {
    match gate
    case Verifying => AfterVerification(o, ok)
    case Evaluating => AfterEvaluation(o, ok)
    case _ => AfterReviewer(o)
  }
}
