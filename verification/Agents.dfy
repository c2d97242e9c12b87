/** The scripted agent, and the agent that plays setup steps before handing over to another one. */
module Agents {
  import opened Wrappers
  import opened Events

  // A step as it stands in a script file; Blank when it is null or false, 0 or the empty string, which
  // are not looked at; Malformed when normalization refuses it.
  datatype RawStep =
    | Blank
    | RawStep(message: Option<string>, actions: Option<seq<string>>, finish: Option<bool>)
    | Malformed

  datatype AgentStep = AgentStep(message: string, actions: seq<string>, finish: bool)

  function GetOr<T>(value: Option<T>, default: T): T {
    match value
    case Some(v) => v
    case None => default
  }

  /** None: the agent throws. */
  function Normalize(step: RawStep): Option<AgentStep> {
    match step
    case Blank => None
    case Malformed => None
    case RawStep(message, actions, finish) =>
      Some(AgentStep(GetOr(message, ""), GetOr(actions, []), GetOr(finish, false)))
  }

  const EXHAUSTED := AgentStep("script exhausted", [], true)

  function Min(a: int, b: int): int { if a <= b then a else b }

  function Max(a: int, b: int): int { if a >= b then a else b }

  /** What step number k of a script answers. */
  function Answer(steps: seq<RawStep>, k: nat): Option<AgentStep> {
    if k < |steps| && !steps[k].Blank? then Normalize(steps[k]) else Some(EXHAUSTED)
  }

  /** Where a script stands when it is asked, given how far it had advanced and what the log shows. */
  function Position(length: nat, offset: nat, index: nat, log: Log): nat {
    Max(index, Min(Max(0, AssistantCount(log) - offset), length))
  }

  class ScriptedAgent {
    const steps: seq<RawStep>
    const offset: nat
    var index: nat

    constructor (steps: seq<RawStep>, offset: nat)
      ensures this.steps == steps && this.offset == offset && index == 0
    {
      this.steps, this.offset, index := steps, offset, 0;
    }

    method Next(log: Log) returns (answer: Option<AgentStep>)
      modifies this
      ensures var at := Position(|steps|, offset, old(index), log);
              index == at + 1 && answer == Answer(steps, at)
    {
      var emitted := Max(0, AssistantCount(log) - offset);
      index := Max(index, Min(emitted, |steps|));
      var step := if index < |steps| then steps[index] else Blank;
      index := index + 1;
      if step.Blank? { return Some(EXHAUSTED); }
      return Normalize(step);
    }
  }

  // Without a scripted agent to hand over to, it hands over to one about which nothing is known.
  class SetupAgent {
    const setup: seq<RawStep>
    const agent: ScriptedAgent?
    var index: nat

    constructor (setup: seq<RawStep>, agent: ScriptedAgent?)
      ensures this.setup == setup && this.agent == agent && index == 0
    {
      this.setup, this.agent, index := setup, agent, 0;
    }

    method Next(log: Log) returns (answer: Option<AgentStep>)
      modifies this, agent
      ensures var at := Position(|setup|, 0, old(index), log);
              index == at + 1 && (Plays(setup, at) ==> answer == Normalize(setup[at]))
      ensures agent != null ==>
                SetupTurn(setup, agent.steps, agent.offset, old(index), old(agent.index), log) ==
                (index, agent.index, answer)
    {
      index := Max(index, Min(AssistantCount(log), |setup|));
      var step := if index < |setup| then setup[index] else Blank;
      index := index + 1;
      if !step.Blank? { return Normalize(step); }
      if agent != null { answer := agent.Next(log); } else { answer := *; }
    }
  }

  /** Setup step `at` is there to be played, rather than handed over to the wrapped agent. */
  predicate Plays(setup: seq<RawStep>, at: nat) { at < |setup| && !setup[at].Blank? }

  /** One call of the setup agent: its index and the wrapped agent's index afterwards, and the answer. */
  function SetupTurn(setup: seq<RawStep>, steps: seq<RawStep>, offset: nat, index: nat, inner: nat, log: Log)
    : (nat, nat, Option<AgentStep>)
  {
    var at := Position(|setup|, 0, index, log);
    if Plays(setup, at) then (at + 1, inner, Normalize(setup[at]))
    else var within := Position(|steps|, offset, inner, log); (at + 1, within + 1, Answer(steps, within))
  }

  // ---------- call histories ----------

  /** The answers of a fresh scripted agent called with these logs, one after the other. */
  function ScriptAnswers(steps: seq<RawStep>, index: nat, logs: seq<Log>): seq<Option<AgentStep>>
    decreases |logs|
  {
    if logs == [] then []
    else
      var at := Position(|steps|, 0, index, logs[0]);
      [Answer(steps, at)] + ScriptAnswers(steps, at + 1, logs[1..])
  }

  function SetupAnswers(setup: seq<RawStep>, steps: seq<RawStep>, index: nat, inner: nat, logs: seq<Log>)
    : seq<Option<AgentStep>>
    decreases |logs|
  {
    if logs == [] then []
    else
      var turn := SetupTurn(setup, steps, |setup|, index, inner, logs[0]);
      [turn.2] + SetupAnswers(setup, steps, turn.0, turn.1, logs[1..])
  }

  /** A script that answers nothing but "script exhausted". */
  predicate Idle(steps: seq<RawStep>) {
    forall k :: 0 <= k < |steps| ==> Answer(steps, k) == Some(EXHAUSTED)
  }

  /** The two hidden indices stand for the single one; of an idle script, the index does not matter. */
  predicate Stands(setup: nat, index: nat, inner: nat, single: nat, idle: bool) {
    if single <= setup then index == single && (idle || inner == 0)
    else index >= setup && (idle || inner == single - setup)
  }

  lemma {:induction false} SameAnswersFrom(
    setup: seq<RawStep>, steps: seq<RawStep>, index: nat, inner: nat, single: nat, logs: seq<Log>)
    requires Blank !in setup || Idle(steps)
    requires Stands(|setup|, index, inner, single, Idle(steps))
    ensures SetupAnswers(setup, steps, index, inner, logs) == ScriptAnswers(setup + steps, single, logs)
    decreases |logs|
  {
    if logs != [] {
      var turn := SetupTurn(setup, steps, |setup|, index, inner, logs[0]);
      var at := Position(|setup + steps|, 0, single, logs[0]);
      SameTurn(setup, steps, index, inner, single, logs[0]);
      hide SetupTurn, Position, Answer, Stands, Idle;
      SameAnswersFrom(setup, steps, turn.0, turn.1, at + 1, logs[1..]);
    }
  }

  lemma SameTurn(setup: seq<RawStep>, steps: seq<RawStep>, index: nat, inner: nat, single: nat, log: Log)
    requires Blank !in setup || Idle(steps)
    requires Stands(|setup|, index, inner, single, Idle(steps))
    ensures var turn := SetupTurn(setup, steps, |setup|, index, inner, log);
            var at := Position(|setup + steps|, 0, single, log);
            turn.2 == Answer(setup + steps, at) && Stands(|setup|, turn.0, turn.1, at + 1, Idle(steps))
  {
    var at := Position(|setup + steps|, 0, single, log);
    if at >= |setup| {
      assert Answer(setup + steps, at) == Answer(steps, at - |setup|);
    } else {
      assert (setup + steps)[at] == setup[at];
    }
  }

  /** Setup steps in front of a scripted agent whose offset is their number answer as one script over the
  concatenated steps, on every call history with arbitrary logs, if and only if none of them is blank
  or the script is idle. */
  lemma {:induction false} SetupThenScriptIsOneScript(setup: seq<RawStep>, steps: seq<RawStep>)
    ensures (forall logs :: SetupAnswers(setup, steps, 0, 0, logs) == ScriptAnswers(setup + steps, 0, logs))
       <==> Blank !in setup || Idle(steps)
  {
    if Blank !in setup || Idle(steps) {
      forall logs ensures SetupAnswers(setup, steps, 0, 0, logs) == ScriptAnswers(setup + steps, 0, logs) {
        SameAnswersFrom(setup, steps, 0, 0, 0, logs);
      }
    } else {
      var j: nat :| j < |setup| && setup[j] == Blank;
      var k := FirstAnswer(steps);
      BlankStepShifts(setup, steps, j, k);
      var logs := [LogOf(j)] + Times(LogOf(|setup|), k);
      assert SetupAnswers(setup, steps, 0, 0, logs) != ScriptAnswers(setup + steps, 0, logs);
    }
  }

  lemma FirstAnswer(steps: seq<RawStep>) returns (k: nat)
    requires !Idle(steps)
    ensures k < |steps| && Answer(steps, k) != Some(EXHAUSTED)
    ensures forall i :: 0 <= i < k ==> Answer(steps, i) == Some(EXHAUSTED)
  {
    k := 0;
    while k < |steps| && Answer(steps, k) == Some(EXHAUSTED)
      invariant k <= |steps| && forall i :: 0 <= i < k ==> Answer(steps, i) == Some(EXHAUSTED)
    {
      k := k + 1;
    }
  }

  /** A log with n messages. */
  function LogOf(n: nat): (log: Log)
    ensures AssistantCount(log) == n
  {
    if n == 0 then []
    else
      var before, m := LogOf(n - 1), Assistant("", n, 0, false);
      assert (before + [m])[..|before|] == before;
      before + [m]
  }

  function Times(log: Log, n: nat): seq<Log> { seq(n, _ => log) }

  /** At a blank setup step the wrapped script is asked too early, and stays one step ahead. */
  lemma {:induction false} BlankStepShifts(setup: seq<RawStep>, steps: seq<RawStep>, j: nat, k: nat)
    requires j < |setup| && setup[j] == Blank
    requires Answer(steps, k) != Some(EXHAUSTED) && forall i :: 0 <= i < k ==> Answer(steps, i) == Some(EXHAUSTED)
    ensures var logs := [LogOf(j)] + Times(LogOf(|setup|), k);
            SetupAnswers(setup, steps, 0, 0, logs) != ScriptAnswers(setup + steps, 0, logs)
  {
    SetupShifts(setup, steps, j, k);
    ScriptDoesNot(setup, steps, j, k);
    if k > 0 { assert Answer(setup + steps, |setup| + k - 1) == Answer(steps, k - 1); }
  }

  lemma {:induction false} SetupShifts(setup: seq<RawStep>, steps: seq<RawStep>, j: nat, k: nat)
    requires j < |setup| && setup[j] == Blank
    ensures var answers := SetupAnswers(setup, steps, 0, 0, [LogOf(j)] + Times(LogOf(|setup|), k));
            |answers| == k + 1 && answers[k] == Answer(steps, k)
  {
    hide AssistantCount, LogOf;
    var rest := Times(LogOf(|setup|), k);
    var logs := [LogOf(j)] + rest;
    assert logs[0] == LogOf(j) && logs[1..] == rest;
    assert SetupTurn(setup, steps, |setup|, 0, 0, LogOf(j)) == (j + 1, 1, Answer(steps, 0));
    hide SetupTurn, Answer, AssistantCount, LogOf, Times;
    SetupRepeats(setup, steps, j + 1, 1, k);
  }

  lemma {:induction false} ScriptDoesNot(setup: seq<RawStep>, steps: seq<RawStep>, j: nat, k: nat)
    requires j < |setup| && setup[j] == Blank
    ensures var answers := ScriptAnswers(setup + steps, 0, [LogOf(j)] + Times(LogOf(|setup|), k));
            |answers| == k + 1 &&
            answers[k] == if k == 0 then Some(EXHAUSTED) else Answer(setup + steps, |setup| + k - 1)
  {
    hide AssistantCount, LogOf;
    var rest := Times(LogOf(|setup|), k);
    var logs := [LogOf(j)] + rest;
    assert logs[0] == LogOf(j) && logs[1..] == rest;
    BlankIsExhausted(setup, steps, j);
    hide Position, Answer, AssistantCount, LogOf, Times;
    ScriptRepeats(setup + steps, j + 1, |setup|, k);
  }

  lemma {:induction false} BlankIsExhausted(setup: seq<RawStep>, steps: seq<RawStep>, j: nat)
    requires j < |setup| && setup[j] == Blank
    ensures Position(|setup + steps|, 0, 0, LogOf(j)) == j && Answer(setup + steps, j) == Some(EXHAUSTED)
  {
    hide AssistantCount, LogOf;
    assert (setup + steps)[j] == Blank;
  }

  /** Asked again and again without an answer reaching the log, the wrapped script moves on. */
  lemma {:induction false} SetupRepeats(setup: seq<RawStep>, steps: seq<RawStep>, index: nat, inner: nat, n: nat)
    ensures var answers := SetupAnswers(setup, steps, index, inner, Times(LogOf(|setup|), n));
            |answers| == n && forall i :: 0 <= i < n ==> answers[i] == Answer(steps, inner + i)
    decreases n
  {
    if n > 0 {
      var logs := Times(LogOf(|setup|), n);
      assert logs[1..] == Times(LogOf(|setup|), n - 1);
      HandsOver(setup, steps, index, inner);
      hide SetupTurn, Answer, LogOf, AssistantCount, Position;
      SetupRepeats(setup, steps, Max(index, |setup|) + 1, inner + 1, n - 1);
    }
  }

  lemma {:induction false} HandsOver(setup: seq<RawStep>, steps: seq<RawStep>, index: nat, inner: nat)
    ensures SetupTurn(setup, steps, |setup|, index, inner, LogOf(|setup|))
         == (Max(index, |setup|) + 1, inner + 1, Answer(steps, inner))
  {
    hide AssistantCount, LogOf, Answer;
  }

  lemma {:induction false} ScriptRepeats(steps: seq<RawStep>, index: nat, count: nat, n: nat)
    requires index <= count <= |steps|
    ensures var answers := ScriptAnswers(steps, index, Times(LogOf(count), n));
            |answers| == n && forall i :: 0 <= i < n ==> answers[i] == Answer(steps, count + i)
    decreases n
  {
    if n > 0 {
      var logs := Times(LogOf(count), n);
      assert logs[1..] == Times(LogOf(count), n - 1);
      ScriptMovesOn(steps, count + 1, count, n - 1);
    }
  }

  lemma {:induction false} ScriptMovesOn(steps: seq<RawStep>, index: nat, count: nat, n: nat)
    requires count <= index
    ensures var answers := ScriptAnswers(steps, index, Times(LogOf(count), n));
            |answers| == n && forall i :: 0 <= i < n ==> answers[i] == Answer(steps, index + i)
    decreases n
  {
    if n > 0 {
      var logs := Times(LogOf(count), n);
      assert logs[1..] == Times(LogOf(count), n - 1);
      ScriptMovesOn(steps, index + 1, count, n - 1);
    }
  }

  /** A script that has advanced no further than the log shows answers with the step the log calls for. */
  lemma BehindLogAnswersNextStep(steps: seq<RawStep>, index: nat, log: Log)
    requires index <= AssistantCount(log)
    ensures Answer(steps, Position(|steps|, 0, index, log)) == Answer(steps, AssistantCount(log))
    ensures Position(|steps|, 0, index, log) <= AssistantCount(log)
  {
  }

  // ---------- an agent as the log knows it ----------

  // Setup steps, and behind them a script, or an agent about whose answers nothing is known.
  datatype Behaviour = Behaviour(setup: seq<RawStep>, script: Option<seq<RawStep>>)

  function BehaviourOf(agent: SetupAgent): Behaviour {
    Behaviour(agent.setup, if agent.agent == null then None else Some(agent.agent.steps))
  }

  /** Whether the log alone determines answer number k of the whole run.  A blank setup step lets the
  wrapped agent answer early, and from then on it may be ahead of the log. */
  predicate Known(b: Behaviour, k: nat) {
    if k < |b.setup| then !b.setup[k].Blank? else b.script.Some? && Blank !in b.setup
  }

  /** What is known to be answer number k of the whole run. */
  function StepOf(b: Behaviour, k: nat): Option<AgentStep>
    requires Known(b, k)
  {
    if k < |b.setup| then Normalize(b.setup[k]) else Answer(b.script.value, k - |b.setup|)
  }

  /** The wrapped script is not ahead of the log, unless a blank setup step has let it. */
  predicate Behind(setup: seq<RawStep>, inner: nat, count: nat) {
    Blank !in setup ==> inner <= Max(0, count - |setup|)
  }

  /** As long as neither index is ahead of the log, a call plays the setup step that the log calls for,
  hands over once the log shows as many messages as there are setup steps, and then plays the
  script's step; and the indices stay so. */
  lemma SetupAnswersNextStep(setup: seq<RawStep>, steps: seq<RawStep>, index: nat, inner: nat, log: Log)
    requires index <= AssistantCount(log) && Behind(setup, inner, AssistantCount(log))
    ensures var n := AssistantCount(log);
            var turn := SetupTurn(setup, steps, |setup|, index, inner, log);
            var at := Position(|setup|, 0, index, log);
            && (Known(Behaviour(setup, Some(steps)), n) ==>
                  turn.2 == StepOf(Behaviour(setup, Some(steps)), n) == Answer(setup + steps, n))
            && turn.0 <= n + 1 && Behind(setup, turn.1, n + 1)
            && at <= n && (n < |setup| ==> at == n) && (n >= |setup| ==> at >= |setup|)
  {
  }
}
