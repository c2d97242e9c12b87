/** What every word that the harness loop may append has in common, and every log that invocations
of one run build up together. */
module HarnessRuns {
  import opened Wrappers
  import opened Events
  import opened Agents
  import opened HarnessLoop
  import opened LogFile

  // ---------- prefixes ----------

  lemma {:induction false} PrefixIsNotRejected(spec: Spec, word: Log, i: nat)
    requires State(spec, word) != Reject && i <= |word|
    ensures State(spec, word[..i]) != Reject
    decreases |word|
  {
    if i == |word| {
      assert word[..i] == word;
    } else {
      var init := word[..|word| - 1];
      assert init[..i] == word[..i];
      PrefixIsNotRejected(spec, init, i);
    }
  }

  /** Entry i takes the automaton from where the entries before it took it. */
  lemma Transition(spec: Spec, word: Log, i: nat)
    requires State(spec, word) != Reject && i < |word|
    ensures State(spec, word[..i + 1]) == Next(spec, State(spec, word[..i]), word[i])
    ensures State(spec, word[..i]) != Reject && State(spec, word[..i + 1]) != Reject
  {
    PrefixIsNotRejected(spec, word, i);
    PrefixIsNotRejected(spec, word, i + 1);
    assert word[..i + 1][..i] == word[..i];
  }

  // ---------- the grammar ----------

  /** A finished invocation has exactly one finish entry, the last one, with the final status. */
  lemma FinishIsLastAndOnly(spec: Spec, word: Log, status: Status)
    requires State(spec, word) == Closed(status)
    ensures |word| > 0 && word[|word| - 1] == Finish(status)
    ensures forall i :: 0 <= i < |word| - 1 ==> !word[i].Finish?
  {
    forall i | 0 <= i < |word| - 1 ensures !word[i].Finish? {
      hide State, Next;
      Transition(spec, word, i);
      Transition(spec, word, i + 1);
      NothingAfterFinish(spec, State(spec, word[..i]), word[i], word[i + 1]);
    }
    NothingAfterFinish(spec, State(spec, word[..|word| - 1]), word[|word| - 1], Resume);
  }

  lemma NothingAfterFinish(spec: Spec, q: Stage, e: Entry, next: Entry)
    ensures e.Finish? ==> Next(spec, Next(spec, q, e), next) == Reject
    ensures Next(spec, q, e).Closed? ==> e == Finish(Next(spec, q, e).status)
  {
  }

  /** Every observation directly follows its action, and an action is directly followed by its
  observation unless the invocation was stopped there or is interrupted in that very action. */
  lemma {:induction false} ActionsAndObservationsAlternate(spec: Spec, word: Log, i: nat)
    requires State(spec, word) != Reject && i < |word|
    ensures word[i].Observation? ==> i > 0 && word[i - 1].Action?
    ensures word[i].Action? && i + 1 < |word| ==>
              word[i + 1] in {Observation, Cancel(ToolObservation), Error(ToolObservation)}
  {
    hide State, Next;
    Transition(spec, word, i);
    if word[i].Observation? && i > 0 {
      Transition(spec, word, i - 1);
      ActionThenObservation(spec, State(spec, word[..i - 1]), word[i - 1], word[i]);
    }
    if i == 0 { StartsOtherwise(spec, word); }
    if word[i].Action? && i + 1 < |word| {
      Transition(spec, word, i + 1);
      ActionThenObservation(spec, State(spec, word[..i]), word[i], word[i + 1]);
    }
  }

  lemma ActionThenObservation(spec: Spec, q: Stage, e: Entry, next: Entry)
    requires Next(spec, Next(spec, q, e), next) != Reject
    ensures next.Observation? ==> e.Action?
    ensures e.Action? ==> next in {Observation, Cancel(ToolObservation), Error(ToolObservation)}
  {
    hide Next;
    IntoAction(spec, q, e);
    OutOfAction(spec, Next(spec, q, e), next);
  }

  lemma IntoAction(spec: Spec, q: Stage, e: Entry)
    ensures Next(spec, q, e).Observing? ==> e.Action?
    ensures e.Action? ==> Next(spec, q, e).Observing? || Next(spec, q, e) == Reject
  {
  }

  lemma OutOfAction(spec: Spec, q: Stage, next: Entry)
    requires Next(spec, q, next) != Reject
    ensures next.Observation? ==> q.Observing?
    ensures q.Observing? ==> next in {Observation, Cancel(ToolObservation), Error(ToolObservation)}
    ensures q != Reject
  {
  }

  lemma StartsOtherwise(spec: Spec, word: Log)
    requires |word| > 0 && Next(spec, State(spec, word[..0]), word[0]) != Reject
    ensures word[0].Resume? || word[0].UserMessage?
  {
  }

  function Messages(log: Log): Log {
    if log == [] then []
    else Messages(log[..|log| - 1]) + if log[|log| - 1].Assistant? then [log[|log| - 1]] else []
  }

  lemma {:induction false} MessagesAreCounted(log: Log)
    ensures |Messages(log)| == AssistantCount(log)
  {
    if log != [] { MessagesAreCounted(log[..|log| - 1]); }
  }

  lemma {:induction false} MessagesOfConcat(a: Log, b: Log)
    ensures Messages(a + b) == Messages(a) + Messages(b)
  {
    if b == [] {
      assert a + b == a;
    } else {
      var init := b[..|b| - 1];
      MessagesOfConcat(a, init);
      assert (a + b)[..|a + b| - 1] == a + init;
    }
  }

  /** The number of messages a stage knows of, if it still knows. */
  predicate Knows(q: Stage, count: nat, max: int) {
    match q
    case Asking(done, _) => done == count && done < max
    case Acting(done, _, _) => done == count && done <= max
    case Observing(done, _, _) => done == count && done <= max
    case Start => count == 0
    case Greeted => count == 0
    case Described => count == 0
    case Opened => count == 0
    case Preparing => count == 0
    case _ => count == 0 || count <= max
  }

  lemma LastEntry(spec: Spec, word: Log)
    requires word != []
    ensures var init, e := word[..|word| - 1], word[|word| - 1];
            && State(spec, word) == Next(spec, State(spec, init), e)
            && Messages(word) == Messages(init) + (if e.Assistant? then [e] else [])
            && (Next(spec, State(spec, init), e) != Reject ==> State(spec, init) != Reject)
  {
    hide Answered, Turned;
  }

  /** Message k of an invocation is what its agent answers k-th, and there are at most maxIterations. */
  lemma {:induction false} MessagesAreTheAnswers(spec: Spec, word: Log)
    requires State(spec, word) != Reject
    ensures Knows(State(spec, word), |Messages(word)|, spec.o.maxIterations)
    ensures |Messages(word)| == 0 || |Messages(word)| <= spec.o.maxIterations
    ensures forall k :: 0 <= k < |Messages(word)| ==> Says(spec, k, Messages(word)[k])
  {
    if word != [] {
      var init, e := word[..|word| - 1], word[|word| - 1];
      LastEntry(spec, word);
      hide State, Next, Messages, Says;
      MessagesAreTheAnswers(spec, init);
      TurnCounts(spec, State(spec, init), e, |Messages(init)|);
    }
  }

  lemma TurnCounts(spec: Spec, q: Stage, e: Entry, count: nat)
    requires Knows(q, count, spec.o.maxIterations) && Next(spec, q, e) != Reject
    ensures Knows(Next(spec, q, e), if e.Assistant? then count + 1 else count, spec.o.maxIterations)
    ensures e.Assistant? ==> Says(spec, count, e)
  {
  }

  // ---------- the hard gate ----------

  /** A successful verification after the last message. */
  ghost predicate VerifiedSince(word: Log) {
    exists v :: 0 <= v < |word| && word[v] == Verification(true) && NoMessageAfter(word, v)
  }

  ghost predicate EvaluatedSince(word: Log) {
    exists v :: 0 <= v < |word| && word[v] == Evaluation(true) && NoMessageAfter(word, v)
  }

  ghost predicate NoMessageAfter(word: Log, v: nat) {
    forall i :: v < i < |word| ==> !word[i].Assistant?
  }

  predicate Succeeded(status: Status) {
    status in {Passed, ReviewRequired, DeploymentRequired}
  }

  /** The stages behind the verification, and behind the evaluation as well. */
  predicate PastVerification(q: Stage) { q.Evaluated? || PastGates(q) }

  predicate PastGates(q: Stage) {
    q.Reviewed? || q.ReviewAsked? || q.DeploymentAsked? || ((q.Closing? || q.Closed?) && Succeeded(q.status))
  }

  ghost predicate Vouched(o: Options, q: Stage, word: Log) {
    && (PastVerification(q) ==> VerifiedSince(word))
    && (PastGates(q) && o.hasEvaluation ==> EvaluatedSince(word))
    && ((q.Closing? || q.Closed?) && Succeeded(q.status) ==> q.status == Verdict(o))
  }

  lemma {:induction false} GatesVouch(spec: Spec, word: Log)
    requires State(spec, word) != Reject
    ensures Vouched(spec.o, State(spec, word), word)
  {
    if word != [] {
      var init, e := word[..|word| - 1], word[|word| - 1];
      GatesVouch(spec, init);
      StillVouched(spec, State(spec, init), init, e);
      assert word == init + [e];
    }
  }

  lemma StillVouched(spec: Spec, q: Stage, word: Log, e: Entry)
    requires Vouched(spec.o, q, word) && Next(spec, q, e) != Reject
    ensures Vouched(spec.o, Next(spec, q, e), word + [e])
  {
    var word', q' := word + [e], Next(spec, q, e);
    if !e.Assistant? {
      if VerifiedSince(word) {
        var v :| 0 <= v < |word| && word[v] == Verification(true) && NoMessageAfter(word, v);
        assert word'[v] == Verification(true) && NoMessageAfter(word', v);
      }
      if EvaluatedSince(word) {
        var v :| 0 <= v < |word| && word[v] == Evaluation(true) && NoMessageAfter(word, v);
        assert word'[v] == Evaluation(true) && NoMessageAfter(word', v);
      }
    }
    assert word'[|word|] == e && NoMessageAfter(word', |word|);
    VouchedNext(spec, q, e);
  }

  /** How the automaton gets behind the gates. */
  lemma VouchedNext(spec: Spec, q: Stage, e: Entry)
    requires Next(spec, q, e) != Reject
    ensures var q' := Next(spec, q, e);
            && (PastVerification(q') ==> !e.Assistant? && (PastVerification(q) || e == Verification(true)))
            && (PastGates(q') && spec.o.hasEvaluation ==> PastGates(q) || e == Evaluation(true))
            && (q'.Closing? && Succeeded(q'.status) ==> q'.status == Verdict(spec.o))
            && (q'.Closed? ==> q == Closing(q'.status))
  {
  }

  /** A successful finish was preceded, after the last message of the same invocation, by a
  successful verification, and by a successful evaluation when there are evaluation commands.  Which
  successful status it is depends on the review and deployment options alone. */
  lemma {:induction false} SuccessWasVerified(spec: Spec, word: Log, status: Status)
    requires State(spec, word) == Closed(status) && Succeeded(status)
    ensures VerifiedSince(word)
    ensures spec.o.hasEvaluation ==> EvaluatedSince(word)
    ensures status == Verdict(spec.o)
  {
    GatesVouch(spec, word);
  }

  predicate Interruption(e: Entry) { e.Cancel? || e.Error? }

  predicate GatesOk(o: Options, r: Results) {
    r.verification == Some(true) && (o.hasEvaluation ==> r.evaluation == Some(true))
  }

  /** What the results recorded so far say about the stage. */
  predicate Explains(o: Options, q: Stage, r: Results) {
    (q != Reject && !o.hasEvaluation ==> r.evaluation == None) &&
    match q
    case Reviewed => GatesOk(o, r)
    case ReviewAsked => GatesOk(o, r)
    case DeploymentAsked => GatesOk(o, r)
    case Evaluated => r.verification == Some(true) && r.evaluation == None && o.hasEvaluation
    case Closing(status) => Succeeded(status) ==> GatesOk(o, r)
    case Closed(status) => Succeeded(status) ==> GatesOk(o, r)
    case Reject => true
    case _ => r.verification == None && r.evaluation == None
  }

  lemma {:induction false} ResultsExplain(spec: Spec, word: Log)
    ensures Explains(spec.o, State(spec, word), Recorded(word))
    ensures State(spec, word).Closing? && !Interruption(word[|word| - 1]) && GatesOk(spec.o, Recorded(word)) ==>
              Succeeded(State(spec, word).status)
  {
    if word != [] {
      var init, e := word[..|word| - 1], word[|word| - 1];
      ResultsExplain(spec, init);
      ExplainsNext(spec, State(spec, init), Recorded(init), e);
    }
  }

  lemma ExplainsNext(spec: Spec, q: Stage, r: Results, e: Entry)
    requires Explains(spec.o, q, r)
    ensures Explains(spec.o, Next(spec, q, e), Record(r, e))
    ensures var q' := Next(spec, q, e);
            q'.Closing? && !Interruption(e) && GatesOk(spec.o, Record(r, e)) ==> Succeeded(q'.status)
  {
  }

  /** The gate in both directions: a finished invocation succeeded if and only if the results it
  recorded pass the gates and it was not interrupted after that. */
  lemma {:induction false} SucceedsIffGatesPass(spec: Spec, word: Log, status: Status)
    requires State(spec, word) == Closed(status)
    ensures |word| >= 2
    ensures Succeeded(status) <==> GatesOk(spec.o, Recorded(word)) && !Interruption(word[|word| - 2])
  {
    hide State, Recorded, Next;
    ClosedByFinish(spec, word, status);
    var init := word[..|word| - 1];
    ResultsExplain(spec, init);
    InterruptionsFail(spec, init);
    assert init[|init| - 1] == word[|word| - 2];
  }

  lemma ClosedByFinish(spec: Spec, word: Log, status: Status)
    requires State(spec, word) == Closed(status)
    ensures word != [] && State(spec, word[..|word| - 1]) == Closing(status)
    ensures Recorded(word) == Recorded(word[..|word| - 1])
  {
  }

  /** Whether the benchmark counts a run as passed, by its summary before any human decision. */
  predicate CountsAsPassed(summary: Summary) {
    && Succeeded(summary.status)
    && summary.results.verification == Some(true)
    && summary.results.evaluation != Some(false)
    && summary.results.reviewer != Some(false)
  }

  /** The benchmark counts a run as passed exactly when it finished successfully and its reviewer
  commands, if there were any, did not fail: there the evidence does gate. */
  lemma {:induction false} PassedIffSucceededAndReviewed(spec: Spec, word: Log, summary: Summary)
    requires State(spec, word) == Closed(summary.status) && summary.results == Recorded(word)
    ensures CountsAsPassed(summary) <==> Succeeded(summary.status) && summary.results.reviewer != Some(false)
  {
    ResultsExplain(spec, word);
  }

  lemma InterruptionsFail(spec: Spec, word: Log)
    requires State(spec, word).Closing?
    ensures word != [] && (Interruption(word[|word| - 1]) ==> !Succeeded(State(spec, word).status))
  {
  }

  /** The word with every reviewer result turned round. */
  function ContradictReviewer(word: Log): Log {
    if word == [] then []
    else
      var e := word[|word| - 1];
      ContradictReviewer(word[..|word| - 1]) + [if e.Reviewer? then Reviewer(!e.ok) else e]
  }

  /** Reviewer commands record evidence only: their results never change where an invocation goes. */
  lemma {:induction false} ReviewerDoesNotGate(spec: Spec, word: Log)
    ensures State(spec, ContradictReviewer(word)) == State(spec, word)
  {
    if word != [] {
      var init, e := word[..|word| - 1], word[|word| - 1];
      var other := if e.Reviewer? then Reviewer(!e.ok) else e;
      assert ContradictReviewer(word) == ContradictReviewer(init) + [other] && init + [e] == word;
      hide State, Next, ContradictReviewer;
      ReviewerDoesNotGate(spec, init);
      OneMore(spec, ContradictReviewer(init), other);
      OneMore(spec, init, e);
      if e.Reviewer? { ReviewerOkIsIgnored(spec, State(spec, init), e); }
    }
  }

  lemma ReviewerOkIsIgnored(spec: Spec, q: Stage, e: Entry)
    requires e.Reviewer?
    ensures Next(spec, q, Reviewer(!e.ok)) == Next(spec, q, e)
  {
  }

  // ---------- one run, several invocations ----------

  // How the last entry of an invocation was written: whole, or, when the process stopped within it, in
  // part or without its newline.
  datatype Stop = Whole | Piece | NoNewline

  // One invocation: what it was asked to do and what it wrote.  A process that stops between two
  // entries leaves a beginning of a word.
  datatype Invocation = Invocation(o: Options, word: Log, stop: Stop)

  function WriteAll(f: File<Entry>, word: Log): File<Entry> {
    if word == [] then f else Appended(WriteAll(f, word[..|word| - 1]), word[|word| - 1])
  }

  function WrittenBy(f: File<Entry>, part: Invocation): File<Entry> {
    var n := |part.word|;
    if n == 0 || part.stop.Whole? then WriteAll(f, part.word)
    else CutShort(WriteAll(f, part.word[..n - 1]), part.word[n - 1], part.stop.NoNewline?)
  }

  /** The log file that invocations of one run leave behind. */
  function FileAfter(parts: seq<Invocation>): File<Entry> {
    if parts == [] then File([], LineStart)
    else WrittenBy(FileAfter(parts[..|parts| - 1]), parts[|parts| - 1])
  }

  /** A first invocation and any number of resumes, each with a fresh agent that behaves alike, and each
  ended by finishing, pausing, cancelling, failing or by a process stop between two entries or within
  one. */
  ghost predicate IsRun(agent: Behaviour, parts: seq<Invocation>) {
    parts == [] ||
    var before := parts[..|parts| - 1];
    var last := parts[|parts| - 1];
    && IsRun(agent, before)
    && (last.o.resume <==> before != [])
    && State(SpecFor(last.o, FileAfter(before), agent), last.word) != Reject
  }

  // ---------- what becomes of the messages ----------

  /** The entries of an invocation that were written with all of their text. */
  function Entire(part: Invocation): Log {
    if part.word == [] || !part.stop.Piece? then part.word else part.word[..|part.word| - 1]
  }

  /** An invocation opens on a message without a newline, which its first entry makes unreadable. */
  predicate FindsUnendedMessage(f: File<Entry>) {
    f.end.Unended? && f.log != [] && f.log[|f.log| - 1].Assistant?
  }

  lemma UnendedMessageIsCountedButLost(f: File<Entry>)
    ensures AssistantCount(f.log) == AssistantCount(Base(f)) + if FindsUnendedMessage(f) then 1 else 0
    ensures Messages(Base(f)) <= Messages(f.log)
  {
  }

  lemma MessagesOfOne(log: Log, e: Entry)
    ensures Messages(log + [e]) == Messages(log) + if e.Assistant? then [e] else []
  {
    assert (log + [e])[..|log + [e]| - 1] == log;
  }

  /** Whatever the file ended with, all messages of an invocation are readable in the end: only its
  first entry can be lost, and that is never a message. */
  lemma {:induction false} MessagesOfWriteAll(f: File<Entry>, word: Log)
    requires word != [] ==> !word[0].Assistant?
    ensures word != [] ==> WriteAll(f, word).end == LineStart
    ensures word != [] ==> Messages(WriteAll(f, word).log) == Messages(Base(f)) + Messages(word)
  {
    hide Messages, WriteAll, Appended, Base;
    if word != [] {
      var init, e := word[..|word| - 1], word[|word| - 1];
      WriteSnoc(f, word);
      MessagesOfWriteAll(f, init);
      assert init + [e] == word;
      MessagesOfOne(init, e);
      MessagesOfAppended(WriteAll(f, init), e);
      NoMessagesInNothing();
      if init == [] {
        assert e == word[0] && Messages(Base(f)) + [] == Messages(Base(f));
      } else {
        FinishedBase(WriteAll(f, init));
        var more := if e.Assistant? then [e] else [];
        assert (Messages(Base(f)) + Messages(init)) + more == Messages(Base(f)) + (Messages(init) + more);
      }
    }
  }

  lemma WriteSnoc(f: File<Entry>, word: Log)
    requires word != []
    ensures WriteAll(f, word) == Appended(WriteAll(f, word[..|word| - 1]), word[|word| - 1])
    ensures WriteAll(f, []) == f
  {
  }

  lemma MessagesOfAppended(f: File<Entry>, e: Entry)
    ensures Messages(Appended(f, e).log)
         == Messages(Base(f)) + (if f.end.LineStart? && e.Assistant? then [e] else [])
    ensures Appended(f, e).end == LineStart && Base(Appended(f, e)) == Appended(f, e).log
  {
    MessagesOfOne(Base(f), e);
    assert Base(f) + [] == Base(f);
  }

  lemma NoMessagesInNothing()
    ensures Messages([]) == [] && AssistantCount([]) == 0
  {
  }

  lemma MessagesOfCut(f: File<Entry>, e: Entry, whole: bool)
    ensures Messages(CutShort(f, e, whole).log)
         == if whole && f.end.LineStart? then Messages(f.log) + (if e.Assistant? then [e] else []) else Messages(Base(f))
  {
    MessagesOfOne(f.log, e);
  }

  lemma MessagesOfWritten(f: File<Entry>, part: Invocation)
    requires part.word != [] && !part.word[0].Assistant?
    ensures Messages(WrittenBy(f, part).log) == Messages(Base(f)) + Messages(Entire(part))
  {
    hide Messages, CutShort, Base;
    if part.stop.Whole? {
      MessagesOfWriteAll(f, part.word);
    } else {
      var init, e := part.word[..|part.word| - 1], part.word[|part.word| - 1];
      var g := WriteAll(f, init);
      MessagesOfWriteAll(f, init);
      MessagesOfCut(g, e, part.stop.NoNewline?);
      MessagesOfOne(init, e);
      assert init + [e] == part.word;
      if init == [] { CutAtTheFirst(f, part.word[0], part.stop.NoNewline?); } else { FinishedBase(g); }
    }
  }

  lemma FinishedBase(f: File<Entry>)
    ensures f.end.LineStart? ==> Base(f) == f.log
  {
  }

  /** Cut short in its first entry, an invocation leaves no message. */
  lemma CutAtTheFirst(f: File<Entry>, e: Entry, whole: bool)
    requires !e.Assistant?
    ensures WriteAll(f, []) == f && Messages([]) == [] && Messages([e]) == []
    ensures Messages(CutShort(f, e, whole).log) == Messages(Base(f)) == Messages(Base(f)) + []
  {
    MessagesOfCut(f, e, whole);
    MessagesOfOne([], e);
    assert [] + [e] == [e];
  }

  function Repeat(flag: bool, n: nat): seq<bool> { seq(n, _ => flag) }

  function Take(flags: seq<bool>, n: nat): seq<bool> { if n <= |flags| then flags[..n] else flags }

  /** For each message in the log, whether the invocation that wrote it had opened on a message without a
  newline. */
  function Skips(parts: seq<Invocation>): seq<bool> {
    if parts == [] then []
    else
      var before, last := parts[..|parts| - 1], parts[|parts| - 1];
      var f := FileAfter(before);
      if last.word == [] then Skips(before)
      else Take(Skips(before), |Messages(Base(f))|) + Repeat(FindsUnendedMessage(f), |Messages(Entire(last))|)
  }

  /** This message is step k of the setup steps and the script behind them, "script exhausted" beyond its
  end, and says so. */
  predicate IsStep(agent: Behaviour, k: nat, m: Entry)
    requires Known(agent, k)
  {
    && m.Assistant? && StepOf(agent, k).Some?
    && var step := StepOf(agent, k).value;
       m.content == step.message && m.actionCount == |step.actions| && m.finishRequested == step.finish
  }

  /** Message k of the log is the agent's step k, if that is known, and carries iteration k + 1, or one
  more if its invocation skips one. */
  predicate InOrder(agent: Behaviour, k: nat, m: Entry, skips: bool) {
    && m.Assistant? && m.iteration == k + 1 + (if skips then 1 else 0)
    && (Known(agent, k) ==> IsStep(agent, k, m))
  }

  ghost predicate InSequence(agent: Behaviour, messages: Log, skips: seq<bool>) {
    && |skips| == |messages|
    && forall k :: 0 <= k < |messages| ==> InOrder(agent, k, messages[k], skips[k])
  }

  /** Over the whole log, message k is setup step k while there are setup steps, whatever the agent behind
  them answers, and then the script's, if it plays one; and it carries iteration k + 1, or one more
  where its invocation had opened on a message without a newline. */
  lemma {:induction false} ResumesContinueTheScript(agent: Behaviour, parts: seq<Invocation>)
    requires IsRun(agent, parts)
    ensures InSequence(agent, Messages(FileAfter(parts).log), Skips(parts))
  {
    if parts != [] {
      var before, last := parts[..|parts| - 1], parts[|parts| - 1];
      ResumesContinueTheScript(agent, before);
      var f := FileAfter(before);
      if last.word != [] {
        assert before == [] ==> f == File([], LineStart);
        OneMoreInvocation(agent, f, last, Skips(before));
      }
    }
  }

  lemma {:induction false} OneMoreInvocation(agent: Behaviour, f: File<Entry>, last: Invocation, skips: seq<bool>)
    requires InSequence(agent, Messages(f.log), skips) && last.word != []
    requires !last.o.resume ==> f == File([], LineStart)
    requires State(SpecFor(last.o, f, agent), last.word) != Reject
    ensures InSequence(agent, Messages(WrittenBy(f, last).log),
              Take(skips, |Messages(Base(f))|) + Repeat(FindsUnendedMessage(f), |Messages(Entire(last))|))
  {
    var spec := SpecFor(last.o, f, agent);
    NoMessagesInNothing();
    FirstIsNoMessage(spec, last.word);
    UnendedMessageIsCountedButLost(f);
    MessagesOfWritten(f, last);
    EntireIsAccepted(spec, last);
    MessagesAreTheAnswers(spec, Entire(last));
    MessagesAreCounted(Base(f));
    hide State, Messages, AssistantCount, Says, InSequence, WrittenBy, Entire, FindsUnendedMessage, Base, Repeat, Take;
    SaidBehindKept(spec, Messages(f.log), Messages(Base(f)), Messages(Entire(last)), skips, FindsUnendedMessage(f));
  }

  lemma SaidBehindKept(spec: Spec, messages: Log, kept: Log, said: Log, skips: seq<bool>, flag: bool)
    requires InSequence(spec.agent, messages, skips) && kept <= messages && |kept| == spec.prior
    requires forall k :: 0 <= k < |said| ==> Says(spec, k, said[k])
    requires spec.counted == spec.prior + (if flag then 1 else 0) && (spec.o.resume || (spec.prior == 0 && !flag))
    ensures InSequence(spec.agent, kept + said, Take(skips, |kept|) + Repeat(flag, |said|))
  {
    var all, flags := kept + said, Take(skips, |kept|) + Repeat(flag, |said|);
    hide Says, InOrder;
    forall k | 0 <= k < |all| ensures InOrder(spec.agent, k, all[k], flags[k]) {
      if k < |kept| {
        assert all[k] == messages[k] && flags[k] == skips[k];
      } else {
        SaidInOrder(spec, k - |kept|, said[k - |kept|], flag);
      }
    }
  }

  lemma FirstIsNoMessage(spec: Spec, word: Log)
    requires State(spec, word) != Reject && word != []
    ensures !word[0].Assistant?
  {
    hide State, Next;
    Transition(spec, word, 0);
    StartsOtherwise(spec, word);
  }

  lemma EntireIsAccepted(spec: Spec, part: Invocation)
    requires State(spec, part.word) != Reject
    ensures State(spec, Entire(part)) != Reject
  {
    hide State;
    if part.word != [] { PrefixIsNotRejected(spec, part.word, |part.word| - 1); }
  }

  /** What an invocation says fits into the whole log when it resumes it, or when the log was empty. */
  lemma SaidInOrder(spec: Spec, done: nat, m: Entry, skips: bool)
    requires Says(spec, done, m) && spec.counted == spec.prior + (if skips then 1 else 0)
    requires spec.o.resume || (spec.prior == 0 && !skips)
    ensures InOrder(spec.agent, spec.prior + done, m, skips)
  {
  }

  // ---------- the iterations ----------

  ghost predicate IterationsReadInOrder(messages: Log) {
    forall k :: 0 <= k < |messages| ==> messages[k].Assistant? && messages[k].iteration == k + 1
  }

  /** The iterations in the log read 1, 2, 3, ... without gap or repeat if and only if none of its
  messages was written by an invocation that had opened on a message without a newline. */
  lemma {:induction false} IterationsReadInOrderIffNoneSkips(agent: Behaviour, parts: seq<Invocation>)
    requires IsRun(agent, parts)
    ensures IterationsReadInOrder(Messages(FileAfter(parts).log)) <==> true !in Skips(parts)
  {
    ResumesContinueTheScript(agent, parts);
    var messages, skips := Messages(FileAfter(parts).log), Skips(parts);
    hide FileAfter, Messages, Skips, IsStep, Known;
    if true !in skips {
      forall k | 0 <= k < |messages| ensures messages[k].Assistant? && messages[k].iteration == k + 1 {
        assert InOrder(agent, k, messages[k], skips[k]) && skips[k] in skips;
      }
    }
    if true in skips {
      var k :| 0 <= k < |skips| && skips[k];
      assert InOrder(agent, k, messages[k], true);
    }
  }

  /** So they do if processes never stop between the text of a message and its newline. */
  lemma {:induction false} NoUnendedMessageNoGap(agent: Behaviour, parts: seq<Invocation>)
    requires IsRun(agent, parts)
    requires forall i :: 0 <= i < |parts| ==> !FindsUnendedMessage(FileAfter(parts[..i]))
    ensures true !in Skips(parts) && IterationsReadInOrder(Messages(FileAfter(parts).log))
  {
    NothingSkips(parts);
    IterationsReadInOrderIffNoneSkips(agent, parts);
  }

  lemma {:induction false} NothingSkips(parts: seq<Invocation>)
    requires forall i :: 0 <= i < |parts| ==> !FindsUnendedMessage(FileAfter(parts[..i]))
    ensures true !in Skips(parts)
  {
    if parts != [] {
      var before := parts[..|parts| - 1];
      assert forall i :: 0 <= i < |before| ==> before[..i] == parts[..i];
      NothingSkips(before);
    }
  }

  // ---------- a run that skips an iteration and repeats another ----------

  function Plain(resume: bool): Options {
    Options(resume, false, false, false, false, false, false, false, 20)
  }

  function Message(content: string, iteration: nat): Entry { Assistant(content, iteration, 0, false) }

  function TwoSteps(): Behaviour {
    Behaviour([], Some([RawStep(Some("a"), None, None), RawStep(Some("b"), None, None)]))
  }

  const STOPS := Invocation(Plain(false), [UserMessage, RunPolicy] + [Message("a", 1)], NoNewline)
  const SAYS_A := Invocation(Plain(true), [Resume, Message("a", 2)], Whole)
  const SAYS_B := Invocation(Plain(true), [Resume, Message("b", 2)], Whole)

  /** The process stops right behind the text of the first message.  A resume counts that message, loses
  it with its own first entry, and asks for it again, as iteration 2; the next resume goes on with
  iteration 2 as well. */
  lemma UnendedMessageSkipsAndRepeats()
    ensures IsRun(TwoSteps(), [STOPS] + [SAYS_A] + [SAYS_B])
    ensures Messages(FileAfter([STOPS] + [SAYS_A] + [SAYS_B]).log) == [Message("a", 2), Message("b", 2)]
  {
    var opening := [UserMessage, RunPolicy];
    var f1, f2 := File(opening + [Message("a", 1)], Unended), File(opening + [Message("a", 2)], LineStart);
    FirstStops();
    SaysInTurn();
    hide IsRun, Messages, SpecFor, Says, FileAfter;
    ResumeSays([STOPS], f1, SAYS_A, Message("a", 2));
    ResumeSays([STOPS] + [SAYS_A], f2, SAYS_B, Message("b", 2));
    MessagesInTheEnd();
  }

  lemma MessagesInTheEnd()
    ensures Messages([UserMessage, RunPolicy] + [Message("a", 2)] + [Resume] + [Message("b", 2)])
         == [Message("a", 2), Message("b", 2)]
  {
    var opening := [UserMessage, RunPolicy];
    NoMessageYet();
    MessagesOfOne(opening, Message("a", 2));
    MessagesOfOne(opening + [Message("a", 2)], Resume);
    MessagesOfOne(opening + [Message("a", 2)] + [Resume], Message("b", 2));
    hide Messages;
  }

  /** A resume that says one thing more. */
  lemma ResumeSays(before: seq<Invocation>, f: File<Entry>, part: Invocation, m: Entry)
    requires before != [] && IsRun(TwoSteps(), before) && FileAfter(before) == f
    requires part == Invocation(Plain(true), [Resume, m], Whole)
    requires Says(SpecFor(Plain(true), f, TwoSteps()), 0, m) && m.Assistant?
    ensures IsRun(TwoSteps(), before + [part])
    ensures FileAfter(before + [part]) == Appended(Appended(f, Resume), m)
  {
    assert (before + [part])[..|before|] == before;
    ResumeThenMessage(SpecFor(Plain(true), f, TwoSteps()), m);
    WriteTwo(f, Resume, m);
    hide State, WriteAll, Says, SpecFor;
  }

  lemma SaysInTurn()
    ensures var opening := [UserMessage, RunPolicy];
            var f1, f2 := File(opening + [Message("a", 1)], Unended), File(opening + [Message("a", 2)], LineStart);
            && Says(SpecFor(Plain(false), File([], LineStart), TwoSteps()), 0, Message("a", 1))
            && Says(SpecFor(Plain(true), f1, TwoSteps()), 0, Message("a", 2))
            && Says(SpecFor(Plain(true), f2, TwoSteps()), 0, Message("b", 2))
  {
    var opening := [UserMessage, RunPolicy];
    NoMessageYet();
    OneMoreCounted(opening, Message("a", 1));
    OneMoreCounted(opening, Message("a", 2));
    hide AssistantCount;
    assert Base(File(opening + [Message("a", 1)], Unended)) == opening;
  }

  lemma FirstStops()
    ensures IsRun(TwoSteps(), [STOPS])
    ensures FileAfter([STOPS]) == File([UserMessage, RunPolicy] + [Message("a", 1)], Unended)
  {
    hide State, WriteAll, Says;
    var f, opening := File([], LineStart), [UserMessage, RunPolicy];
    assert [STOPS][..0] == [] && FileAfter([]) == f && IsRun(TwoSteps(), []);
    SaysInTurn();
    OpensThenMessage(SpecFor(Plain(false), f, TwoSteps()), Message("a", 1));
    WriteTwo(f, UserMessage, RunPolicy);
    assert STOPS.word[..2] == opening;
  }

  lemma OpensThenMessage(spec: Spec, m: Entry)
    requires spec.o == Plain(false) && Says(spec, 0, m)
    ensures State(spec, [UserMessage, RunPolicy] + [m]) != Reject
  {
    hide State, Next, Says, Recorded;
    assert [] + [UserMessage] == [UserMessage] && [UserMessage] + [RunPolicy] == [UserMessage, RunPolicy];
    OneMore(spec, [], UserMessage);
    OneMore(spec, [UserMessage], RunPolicy);
    OneMore(spec, [UserMessage, RunPolicy], m);
    Beginning(spec);
    Opens(spec);
    TurnTransitions(spec, Opened, 0, m);
  }

  lemma Beginning(spec: Spec)
    ensures State(spec, []) == Start
  {
  }

  lemma ResumeThenMessage(spec: Spec, m: Entry)
    requires spec.o == Plain(true) && Says(spec, 0, m)
    ensures State(spec, [Resume, m]) != Reject
  {
    hide State, Next, Says, Recorded;
    assert [] + [Resume] == [Resume] && [Resume] + [m] == [Resume, m];
    OneMore(spec, [], Resume);
    OneMore(spec, [Resume], m);
    Beginning(spec);
    Opens(spec);
    TurnTransitions(spec, Opened, 0, m);
  }

  lemma WriteTwo(f: File<Entry>, x: Entry, y: Entry)
    ensures WriteAll(f, [x, y]) == Appended(Appended(f, x), y)
  {
    assert [x, y][..1] == [x] && [x][..0] == [];
    assert WriteAll(f, [x]) == Appended(WriteAll(f, []), x);
  }

  lemma NoMessageYet()
    ensures AssistantCount([]) == 0 && AssistantCount([UserMessage, RunPolicy]) == 0
    ensures Messages([UserMessage, RunPolicy]) == []
  {
    NoMessagesInNothing();
    assert [] + [UserMessage] == [UserMessage] && [UserMessage] + [RunPolicy] == [UserMessage, RunPolicy];
    OneMoreCounted([], UserMessage);
    OneMoreCounted([UserMessage], RunPolicy);
    MessagesOfOne([], UserMessage);
    MessagesOfOne([UserMessage], RunPolicy);
  }
}
