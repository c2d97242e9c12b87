/** What the words of the harness loop say entry by entry: how an invocation opens, that the actions of
every message are run, and how it ends. */
module HarnessWords {
  import opened Wrappers
  import opened Events
  import opened Agents
  import opened HarnessLoop
  import opened HarnessRuns

  /** Nothing interrupts the entries behind number i, up to number j. */
  ghost predicate Quiet(word: Log, i: int, j: int) {
    forall k :: i < k <= j && 0 <= k < |word| ==> !Interruption(word[k])
  }

  // ---------- how an invocation opens ----------

  /** The entries before the first turn, when nothing interrupts them. */
  function Opening(o: Options): Log {
    (if o.resume then [Resume] else [UserMessage] + (if o.hasMetadata then [RunMetadata] else []) + [RunPolicy])
      + if o.hasPrepare then [Prepare(false), Prepare(true)] else []
  }

  function OpeningStages(o: Options): seq<Stage> {
    (if o.resume then [Start] else [Start] + (if o.hasMetadata then [Greeted] else []) + [Described])
      + [Opened] + if o.hasPrepare then [Preparing, Ask(o, 0)] else []
  }

  lemma OpeningLengths(o: Options)
    ensures |OpeningStages(o)| == |Opening(o)| + 1 && OpeningStages(o)[0] == Start
  {
  }

  lemma {:induction false} OpensSo(spec: Spec, word: Log, k: nat)
    requires State(spec, word) != Reject && k <= |word| && k <= |Opening(spec.o)| && Quiet(word, -1, k - 1)
    ensures |OpeningStages(spec.o)| == |Opening(spec.o)| + 1
    ensures State(spec, word[..k]) == OpeningStages(spec.o)[k]
    ensures word[..k] == Opening(spec.o)[..k]
  {
    OpeningLengths(spec.o);
    hide Next, Opening, OpeningStages;
    if k == 0 {
      assert word[..0] == [];
    } else {
      hide State;
      OpensSo(spec, word, k - 1);
      Transition(spec, word, k - 1);
      assert !Interruption(word[k - 1]);
      OpeningStep(spec, k - 1, word[k - 1]);
      assert word[..k] == word[..k - 1] + [word[k - 1]];
    }
  }

  lemma OpeningStep(spec: Spec, k: nat, e: Entry)
    requires k < |Opening(spec.o)| && |OpeningStages(spec.o)| == |Opening(spec.o)| + 1
    requires Next(spec, OpeningStages(spec.o)[k], e) != Reject && !Interruption(e)
    ensures e == Opening(spec.o)[k] && Next(spec, OpeningStages(spec.o)[k], e) == OpeningStages(spec.o)[k + 1]
  {
  }

  /** An invocation opens with a resume, or with message, metadata if there is any, and policy; then it
  prepares the workspace if it has to.  Nothing is left out unless it stops or is interrupted there. */
  lemma {:induction false} OpensAsConfigured(spec: Spec, word: Log)
    requires State(spec, word) != Reject && Quiet(word, -1, |Opening(spec.o)| - 1)
    ensures word <= Opening(spec.o) || Opening(spec.o) <= word
  {
    hide State, Opening, OpeningStages;
    if |word| <= |Opening(spec.o)| {
      OpensSo(spec, word, |word|);
      assert word[..|word|] == word;
    } else {
      OpensSo(spec, word, |Opening(spec.o)|);
      assert Opening(spec.o)[..|Opening(spec.o)|] == Opening(spec.o);
    }
  }

  // ---------- actions ----------

  /** Where a message that asks for n actions takes the automaton, j entries later. */
  function BehindMessage(o: Options, done: nat, n: nat, finish: bool, j: nat): Stage
    requires j <= 2 * n
  {
    if j % 2 == 0 then AfterActions(o, done, n - j / 2, finish) else Observing(done, n - (j + 1) / 2, finish)
  }

  lemma MessageTransition(spec: Spec, q: Stage, m: Entry) returns (done: nat)
    requires m.Assistant? && Next(spec, q, m) != Reject
    ensures Next(spec, q, m) == AfterActions(spec.o, done, m.actionCount, m.finishRequested)
  {
    done := if q.Asking? then q.done + 1 else 1;
  }

  lemma ActionStep(spec: Spec, done: nat, n: nat, finish: bool, j: nat, e: Entry)
    requires j < 2 * n && !Interruption(e)
    requires Next(spec, BehindMessage(spec.o, done, n, finish, j), e) != Reject
    ensures if j % 2 == 0 then e.Action? else e.Observation?
    ensures Next(spec, BehindMessage(spec.o, done, n, finish, j), e) == BehindMessage(spec.o, done, n, finish, j + 1)
  {
  }

  lemma {:induction false} StageBehindMessage(spec: Spec, word: Log, i: nat, j: nat) returns (done: nat)
    requires State(spec, word) != Reject && i + j < |word| && word[i].Assistant?
    requires j <= 2 * word[i].actionCount && Quiet(word, i, i + j)
    ensures State(spec, word[..i + j + 1])
         == BehindMessage(spec.o, done, word[i].actionCount, word[i].finishRequested, j)
    ensures j > 0 ==> if j % 2 == 1 then word[i + j].Action? else word[i + j].Observation?
  {
    hide State, Next;
    Transition(spec, word, i + j);
    if j == 0 {
      done := MessageTransition(spec, State(spec, word[..i]), word[i]);
    } else {
      done := StageBehindMessage(spec, word, i, j - 1);
      assert !Interruption(word[i + j]);
      ActionStep(spec, done, word[i].actionCount, word[i].finishRequested, j - 1, word[i + j]);
    }
  }

  /** Behind a message that asks for n actions, as long as nothing interrupts, the next 2n entries are
  action, observation, action, and so on. */
  lemma {:induction false} ActionsAreRun(spec: Spec, word: Log, i: nat, j: nat)
    requires State(spec, word) != Reject && i + j < |word| && word[i].Assistant?
    requires 1 <= j <= 2 * word[i].actionCount && Quiet(word, i, i + j)
    ensures if j % 2 == 1 then word[i + j].Action? else word[i + j].Observation?
  {
    var _ := StageBehindMessage(spec, word, i, j);
  }

  lemma BehindActions(spec: Spec, done: nat, finish: bool, e: Entry)
    requires Next(spec, AfterActions(spec.o, done, 0, finish), e) != Reject && !Interruption(e)
    ensures (e.Verification? <==> finish) && !e.Action? && !e.Finish?
  {
  }

  /** What follows those, if nothing interrupts, is a verification if and only if the message asked for
  the finish; it is never another action. */
  lemma {:induction false} ThenVerifiesIffFinishRequested(spec: Spec, word: Log, i: nat)
    requires State(spec, word) != Reject && i < |word| && word[i].Assistant?
    requires var next := i + 2 * word[i].actionCount + 1; next < |word| && Quiet(word, i, next)
    ensures var next := i + 2 * word[i].actionCount + 1;
            (word[next].Verification? <==> word[i].finishRequested) && !word[next].Action?
  {
    hide State, Next;
    var n := word[i].actionCount;
    var done := StageBehindMessage(spec, word, i, 2 * n);
    Transition(spec, word, i + 2 * n + 1);
    BehindActions(spec, done, word[i].finishRequested, word[i + 2 * n + 1]);
  }

  function Planned(word: Log): nat {
    if word == [] then 0
    else Planned(word[..|word| - 1]) + if word[|word| - 1].Assistant? then word[|word| - 1].actionCount else 0
  }

  function Run(word: Log): nat {
    if word == [] then 0 else Run(word[..|word| - 1]) + if word[|word| - 1].Action? then 1 else 0
  }

  function Left(q: Stage): nat {
    match q
    case Acting(_, left, _) => left
    case Observing(_, left, _) => left
    case _ => 0
  }

  /** The actions asked for by all messages are the actions run and those still left; so no action is ever
  run that no message asked for, and a finished invocation that nothing interrupted has run them all. */
  lemma {:induction false} ActionsAreConserved(spec: Spec, word: Log)
    requires State(spec, word) != Reject
    ensures Run(word) + Left(State(spec, word)) <= Planned(word)
    ensures Quiet(word, -1, |word| - 1) ==> Run(word) + Left(State(spec, word)) == Planned(word)
  {
    if word != [] {
      var init, e := word[..|word| - 1], word[|word| - 1];
      ActionsAreConserved(spec, init);
      LeftNext(spec, State(spec, init), e);
      assert Quiet(word, -1, |word| - 1) ==> Quiet(init, -1, |init| - 1) && !Interruption(e);
    }
  }

  lemma LeftNext(spec: Spec, q: Stage, e: Entry)
    requires Next(spec, q, e) != Reject
    ensures var planned, run := if e.Assistant? then e.actionCount else 0, if e.Action? then 1 else 0;
            && run + Left(Next(spec, q, e)) <= Left(q) + planned
            && (!Interruption(e) ==> run + Left(Next(spec, q, e)) == Left(q) + planned)
  {
  }

  // ---------- how an invocation ends ----------

  function Evaluating(o: Options): Log { if o.hasEvaluation then [Evaluation(true)] else [] }

  function Reviewing(o: Options, ok: bool): Log { if o.hasReviewer then [Reviewer(ok)] else [] }

  function Review(o: Options): Log { if o.reviewRequired then [ReviewGate] else [] }

  function Deployment(o: Options): Log { if o.deploymentRequired then [DeploymentGate] else [] }

  /** How a successful invocation ends: every gate that is configured, in this order, and the status. */
  function Success(o: Options, reviewerOk: bool): Log {
    [Verification(true)] + Evaluating(o) + Reviewing(o, reviewerOk) + Review(o) + Deployment(o)
      + [Finish(if o.reviewRequired then ReviewRequired else if o.deploymentRequired then DeploymentRequired else Passed)]
  }

  /** The part of that behind which a stage is. */
  function SoFar(o: Options, q: Stage, ok: bool): Log {
    match q
    case Evaluated => [Verification(true)]
    case Reviewed => [Verification(true)] + Evaluating(o)
    case ReviewAsked => [Verification(true)] + Evaluating(o) + Reviewing(o, ok)
    case DeploymentAsked => [Verification(true)] + Evaluating(o) + Reviewing(o, ok) + Review(o)
    case Closing(status) =>
      if Succeeded(status) then [Verification(true)] + Evaluating(o) + Reviewing(o, ok) + Review(o) + Deployment(o) else []
    case Closed(status) => if Succeeded(status) then Success(o, ok) else []
    case _ => []
  }

  /** A stage belongs to a gate that is configured. */
  predicate Configured(o: Options, q: Stage) {
    match q
    case Evaluated => o.hasEvaluation
    case Reviewed => o.hasReviewer
    case ReviewAsked => o.reviewRequired
    case DeploymentAsked => o.deploymentRequired
    case Closing(status) => Succeeded(status) ==> status == Verdict(o)
    case _ => true
  }

  lemma ConfiguredNext(spec: Spec, q: Stage, e: Entry)
    requires Next(spec, q, e) != Reject && Configured(spec.o, q)
    ensures Configured(spec.o, Next(spec, q, e))
  {
  }

  lemma SoFarGrows(spec: Spec, q: Stage, e: Entry, ok: bool) returns (ok': bool)
    requires Next(spec, q, e) != Reject && Configured(spec.o, q)
    ensures SoFar(spec.o, Next(spec, q, e), ok') == SoFar(spec.o, q, ok) + [e]
         || SoFar(spec.o, Next(spec, q, e), ok') == []
  {
    ok' := if q.Reviewed? && e.Reviewer? then e.ok else ok;
    var o := spec.o;
    if q.Finishing? && e == Verification(true) {
      FromVerification(o, ok');
      assert SoFar(o, q, ok) + [e] == [e];
    } else if q.Evaluated? && e == Evaluation(true) {
      FromEvaluation(o, ok');
    } else if q.Reviewed? && e.Reviewer? {
      FromReviewer(o, ok');
      assert SoFar(o, q, ok) == SoFar(o, q, ok');
    } else if q.ReviewAsked? && e.ReviewGate? {
      FromReview(o, ok');
    }
  }

  lemma FromReview(o: Options, ok: bool)
    ensures SoFar(o, AfterReviewGate(o), ok)
         == [Verification(true)] + Evaluating(o) + Reviewing(o, ok) + Review(o)
  {
    var end := [Verification(true)] + Evaluating(o) + Reviewing(o, ok) + Review(o);
    assert end + [] == end;
  }

  lemma FromReviewer(o: Options, ok: bool)
    ensures SoFar(o, AfterReviewer(o), ok) == [Verification(true)] + Evaluating(o) + Reviewing(o, ok)
  {
    var end := [Verification(true)] + Evaluating(o) + Reviewing(o, ok);
    assert end + [] == end;
    FromReview(o, ok);
  }

  lemma FromEvaluation(o: Options, ok: bool)
    ensures SoFar(o, AfterEvaluation(o, true), ok) == [Verification(true)] + Evaluating(o)
  {
    var end := [Verification(true)] + Evaluating(o);
    assert end + [] == end;
    FromReviewer(o, ok);
  }

  lemma FromVerification(o: Options, ok: bool)
    ensures SoFar(o, AfterVerification(o, true), ok) == [Verification(true)]
  {
    assert [Verification(true)] + [] == [Verification(true)];
    FromEvaluation(o, ok);
  }

  predicate EndsIn(word: Log, end: Log) {
    |end| <= |word| && word[|word| - |end|..] == end
  }

  lemma EndsInGrows(word: Log, end: Log, e: Entry)
    requires EndsIn(word, end)
    ensures EndsIn(word + [e], end + [e]) && EndsIn(word + [e], [])
  {
    var more := word + [e];
    assert more[|more| - |end + [e]|..] == word[|word| - |end|..] + [e];
  }

  lemma {:induction false} EndsSoFar(spec: Spec, word: Log) returns (ok: bool)
    requires State(spec, word) != Reject
    ensures Configured(spec.o, State(spec, word)) && EndsIn(word, SoFar(spec.o, State(spec, word), ok))
  {
    if word == [] {
      ok := true;
    } else {
      var init, e := word[..|word| - 1], word[|word| - 1];
      var q := State(spec, init);
      assert State(spec, word) == Next(spec, q, e) && init + [e] == word;
      hide State, Next, SoFar, Configured;
      ok := EndsSoFar(spec, init);
      ConfiguredNext(spec, q, e);
      EndsInGrows(init, SoFar(spec.o, q, ok), e);
      ok := SoFarGrows(spec, q, e, ok);
    }
  }

  /** A successful invocation ends in a successful verification, a successful evaluation if there are
  evaluation commands, a reviewer result if there are reviewer commands, the human gates that are
  required, and the status those options call for; nothing comes in between. */
  lemma {:induction false} SuccessEndsInItsGates(spec: Spec, word: Log, status: Status) returns (reviewerOk: bool)
    requires State(spec, word) == Closed(status) && Succeeded(status)
    ensures EndsIn(word, Success(spec.o, reviewerOk))
  {
    hide State;
    reviewerOk := EndsSoFar(spec, word);
  }

  lemma FailureCloses(spec: Spec, q: Stage, e: Entry, next: Entry, last: Entry)
    requires e == Verification(false) || e == Evaluation(false)
    requires Next(spec, Next(spec, q, e), next) != Reject
    ensures next == Finish(FailedRun) && Next(spec, Next(spec, Next(spec, q, e), next), last) == Reject
  {
  }

  /** A failed verification or evaluation is the last thing before the finish, and the run has failed. */
  lemma {:induction false} FailedGateFails(spec: Spec, word: Log, i: nat)
    requires State(spec, word) != Reject && i + 1 < |word|
    requires word[i] == Verification(false) || word[i] == Evaluation(false)
    ensures word[i + 1] == Finish(FailedRun) && i + 2 == |word|
  {
    hide State, Next;
    Transition(spec, word, i);
    Transition(spec, word, i + 1);
    FailureCloses(spec, State(spec, word[..i]), word[i], word[i + 1], Resume);
    if i + 2 < |word| {
      Transition(spec, word, i + 2);
      FailureCloses(spec, State(spec, word[..i]), word[i], word[i + 1], word[i + 2]);
    }
  }

  /** What a status says about the entry before the finish. */
  predicate Explained(status: Status, e: Entry) {
    && (status == Paused <==> e.Pause?)
    && (status == Cancelled <==> e.Cancel?)
    && (status == ErrorStatus <==> e.Error? && e.phase != MaxIterations)
    && (status == FailedRun <==> e in {Error(MaxIterations), Verification(false), Evaluation(false)})
  }

  lemma ClosingIsExplained(spec: Spec, q: Stage, e: Entry)
    requires Next(spec, q, e).Closing?
    ensures Explained(Next(spec, q, e).status, e)
  {
  }

  /** The entry before the finish decides between paused, cancelled, error, failed and success. */
  lemma {:induction false} StatusIsExplained(spec: Spec, word: Log, status: Status)
    requires State(spec, word) == Closed(status)
    ensures |word| >= 2 && Explained(status, word[|word| - 2])
  {
    hide State, Next, Recorded;
    ClosedByFinish(spec, word, status);
    var init := word[..|word| - 1];
    InterruptionsFail(spec, init);
    Transition(spec, init, |init| - 1);
    assert init[..|init|] == init;
    ClosingIsExplained(spec, State(spec, init[..|init| - 1]), init[|init| - 1]);
  }

  // ---------- running out of iterations ----------

  predicate AtLimit(q: Stage, count: nat, max: int) {
    match q
    case Exhausted => count == Max(0, max)
    case _ => true
  }

  lemma LimitNext(spec: Spec, q: Stage, e: Entry, count: nat)
    requires Knows(q, count, spec.o.maxIterations) && AtLimit(q, count, spec.o.maxIterations)
    requires Next(spec, q, e) != Reject
    ensures AtLimit(Next(spec, q, e), if e.Assistant? then count + 1 else count, spec.o.maxIterations)
    ensures e == Error(MaxIterations) ==> count == Max(0, spec.o.maxIterations)
  {
  }

  lemma {:induction false} LimitKept(spec: Spec, word: Log)
    requires State(spec, word) != Reject
    ensures AtLimit(State(spec, word), |Messages(word)|, spec.o.maxIterations)
  {
    if word != [] {
      var init := word[..|word| - 1];
      LastEntry(spec, word);
      hide State, Next, Messages;
      LimitKept(spec, init);
      MessagesAreTheAnswers(spec, init);
      LimitNext(spec, State(spec, init), word[|word| - 1], |Messages(init)|);
    }
  }

  /** An invocation gives up exactly when it has recorded as many messages as it may. */
  lemma {:induction false} GivesUpAtTheLimit(spec: Spec, word: Log, i: nat)
    requires State(spec, word) != Reject && i < |word| && word[i] == Error(MaxIterations)
    ensures |Messages(word[..i])| == Max(0, spec.o.maxIterations)
  {
    hide State, Next, Messages;
    Transition(spec, word, i);
    LimitKept(spec, word[..i]);
    MessagesAreTheAnswers(spec, word[..i]);
    LimitNext(spec, State(spec, word[..i]), word[i], |Messages(word[..i])|);
  }

  // ---------- what the summary reports ----------

  /** The last entry of a kind, or none if there is none of that kind. */
  ghost predicate IsLast<T>(word: Log, value: Option<T>, kind: Entry -> Option<T>) {
    match value
    case None => forall i :: 0 <= i < |word| ==> kind(word[i]) == None
    case Some(_) => exists i :: 0 <= i < |word| && kind(word[i]) == value && NoneBehind(word, i, kind)
  }

  ghost predicate NoneBehind<T>(word: Log, i: int, kind: Entry -> Option<T>) {
    forall j :: i < j < |word| && j >= 0 ==> kind(word[j]) == None
  }

  lemma LastOfSnoc<T>(word: Log, value: Option<T>, kind: Entry -> Option<T>, e: Entry)
    requires IsLast(word, value, kind)
    ensures IsLast(word + [e], Latest(value, kind, e), kind)
  {
    var more := word + [e];
    if kind(e).Some? {
      assert kind(more[|word|]) == kind(e) && NoneBehind(more, |word|, kind);
    } else if value.Some? {
      var i :| 0 <= i < |word| && kind(word[i]) == value && NoneBehind(word, i, kind);
      assert kind(more[i]) == value && NoneBehind(more, i, kind);
    }
  }

  const VERIFICATIONS: Entry -> Option<bool> := (e: Entry) => if e.Verification? then Some(e.ok) else None
  const EVALUATIONS: Entry -> Option<bool> := (e: Entry) => if e.Evaluation? then Some(e.ok) else None
  const REVIEWERS: Entry -> Option<bool> := (e: Entry) => if e.Reviewer? then Some(e.ok) else None
  const FAILURES: Entry -> Option<Phase> := (e: Entry) => if e.Error? then Some(e.phase) else None

  function Latest<T>(before: Option<T>, kind: Entry -> Option<T>, e: Entry): Option<T> {
    if kind(e).Some? then kind(e) else before
  }

  lemma RecordTakesTheLast(r: Results, e: Entry)
    ensures Record(r, e).verification == Latest(r.verification, VERIFICATIONS, e)
    ensures Record(r, e).evaluation == Latest(r.evaluation, EVALUATIONS, e)
    ensures Record(r, e).reviewer == Latest(r.reviewer, REVIEWERS, e)
    ensures Record(r, e).failure == Latest(r.failure, FAILURES, e)
    ensures Record(r, e).review == (r.review || e == ReviewGate)
    ensures Record(r, e).deployment == (r.deployment || e == DeploymentGate)
  {
  }

  /** The summary's results are the last verification, evaluation, reviewer result and error of the word,
  and whether it raised a review gate and a deployment gate. */
  lemma {:induction false} ResultsAreTheLast(word: Log)
    ensures IsLast(word, Recorded(word).verification, VERIFICATIONS)
    ensures IsLast(word, Recorded(word).evaluation, EVALUATIONS)
    ensures IsLast(word, Recorded(word).reviewer, REVIEWERS)
    ensures IsLast(word, Recorded(word).failure, FAILURES)
    ensures Recorded(word).review <==> ReviewGate in word
    ensures Recorded(word).deployment <==> DeploymentGate in word
  {
    if word != [] {
      var init, e := word[..|word| - 1], word[|word| - 1];
      assert Recorded(word) == Record(Recorded(init), e) && init + [e] == word;
      RecordTakesTheLast(Recorded(init), e);
      hide IsLast, Recorded, Record, VERIFICATIONS, EVALUATIONS, REVIEWERS, FAILURES;
      ResultsAreTheLast(init);
      LastOfSnoc(init, Recorded(init).verification, VERIFICATIONS, e);
      LastOfSnoc(init, Recorded(init).evaluation, EVALUATIONS, e);
      LastOfSnoc(init, Recorded(init).reviewer, REVIEWERS, e);
      LastOfSnoc(init, Recorded(init).failure, FAILURES, e);
      assert e in word && forall x :: x in word <==> x in init || x == e;
    }
  }

  // ---------- scripts ----------

  /** A message that plays a script's step says what stands there: its message, its actions and whether it
  finishes, each with its default; behind the script it says so and finishes. */
  lemma MessageSaysWhatTheScriptDoes(steps: seq<RawStep>, k: nat, m: Entry)
    requires IsStep(Behaviour([], Some(steps)), k, m)
    ensures k >= |steps| || steps[k].Blank? ==> m.content == "script exhausted" && m.actionCount == 0 && m.finishRequested
    ensures k < |steps| ==> !steps[k].Malformed?
    ensures k < |steps| && steps[k].RawStep? ==>
              && (steps[k].message.Some? ==> m.content == steps[k].message.value)
              && (steps[k].message.None? ==> m.content == "")
              && (steps[k].actions.Some? ==> m.actionCount == |steps[k].actions.value|)
              && (steps[k].actions.None? ==> m.actionCount == 0)
              && (m.finishRequested <==> steps[k].finish == Some(true))
  {
  }
}
