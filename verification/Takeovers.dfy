/** When taking over a stale lock file is safe, and when it is not.

A takeover is a stat, then a look at the clock, then an unlink, with any delay in between. */
module Takeovers {
  import opened Wrappers
  import opened EventText
  import opened AppendProtocol

  // ---------- orderly runs ----------

  /** Between its stat and its unlink, a caller looks at a file it saw then. */
  predicate Looks(pc: Pc) { pc.Looked? || pc.Stale? }

  /** That file was so old at the stat that it can be a minute old `gap` later. */
  predicate LooksAtOld(pc: Pc, gap: nat) {
    Looks(pc) && pc.seen.Held? && pc.at - pc.seen.mtime >= LOCK_TIMEOUT_MS - gap
  }

  /** Writers at work have held the lock file for less than a minute, by a margin. */
  predicate Quick(s: State, gap: nat) {
    LiveHolder(s, s.lock) ==> s.clock - s.lock.mtime < LOCK_TIMEOUT_MS - gap
  }

  /** No caller is behind its stat for longer than the margin. */
  predicate Timely(s: State, gap: nat) {
    forall c | c in s.pcs && Looks(s.pcs[c]) :: s.clock - s.pcs[c].at <= gap
  }

  /** No two callers can be taking over at the same time. */
  predicate OneTakeover(s: State, gap: nat) {
    forall c, d | c in s.pcs && d in s.pcs && LooksAtOld(s.pcs[c], gap) && LooksAtOld(s.pcs[d], gap) :: c == d
  }

  function QuickBy(gap: nat): State -> bool { (s: State) => Quick(s, gap) }

  function TimelyBy(gap: nat): State -> bool { (s: State) => Timely(s, gap) }

  function OneTakeoverBy(gap: nat): State -> bool { (s: State) => OneTakeover(s, gap) }

  /** Every state of this run satisfies p. */
  ghost predicate Throughout(s: State, steps: seq<Step>, p: State -> bool) {
    && Run(s, steps).Some? && p(Run(s, steps).value)
    && (steps != [] ==> Throughout(s, steps[..|steps| - 1], p))
  }

  /** For some margin, writers are quick, callers look at the clock and unlink in time, and takeovers do
  not overlap. */
  ghost predicate Orderly(s: State, steps: seq<Step>, gap: nat) {
    && Throughout(s, steps, QuickBy(gap))
    && Throughout(s, steps, TimelyBy(gap))
    && Throughout(s, steps, OneTakeoverBy(gap))
  }

  /** Whoever looks at an old lock file, and so whoever is about to unlink one, looks at one without a
  writer at work. */
  ghost predicate TakeoverInv(s: State, gap: nat) {
    && (forall c | c in s.pcs && LooksAtOld(s.pcs[c], gap) :: s.lock.Held? && !LiveHolder(s, s.lock))
    && (forall c | c in s.pcs && s.pcs[c].Stale? :: LooksAtOld(s.pcs[c], gap))
  }

  lemma TakeoverKept(s: State, step: Step, gap: nat)
    requires Enabled(s, step) && LockInv(s) && SeenInv(s) && TakeoverInv(s, gap)
    requires Quick(s, gap) && Timely(s, gap) && OneTakeover(s, gap)
    ensures TakeoverInv(Apply(s, step), gap) && Apply(s, step).robbed == s.robbed
  {
    match step
    case Stat(c) => StatKeeps(s, c, gap);
    case Compare(c) => CompareKeeps(s, c, gap);
    case Unlink(c) => UnlinkKeeps(s, c, gap);
    case Create(c) => CreateKeeps(s, c, gap);
    case Fill(c) => WorkKeeps(s, step, gap);
    case FailFilling(c) => WorkKeeps(s, step, gap);
    case Fetch(c) => WorkKeeps(s, step, gap);
    case Append(c) => WorkKeeps(s, step, gap);
    case Release(c) => WorkKeeps(s, step, gap);
    case Fail(c, _, _) => WorkKeeps(s, step, gap);
    case FailWritten(c, _) => WorkKeeps(s, step, gap);
    case _ => OtherStepsKeep(s, step, gap);
  }

  lemma StatKeeps(s: State, c: Call, gap: nat)
    requires Enabled(s, Stat(c)) && TakeoverInv(s, gap) && Quick(s, gap)
    ensures TakeoverInv(Apply(s, Stat(c)), gap) && Apply(s, Stat(c)).robbed == s.robbed
  {
    OthersAsBefore(s, c, Apply(s, Stat(c)), gap);
  }

  lemma CompareKeeps(s: State, c: Call, gap: nat)
    requires Enabled(s, Compare(c)) && TakeoverInv(s, gap) && Timely(s, gap)
    ensures TakeoverInv(Apply(s, Compare(c)), gap) && Apply(s, Compare(c)).robbed == s.robbed
  {
    OthersAsBefore(s, c, Apply(s, Compare(c)), gap);
  }

  /** Nothing changes but where one caller stands. */
  lemma OthersAsBefore(s: State, c: Call, s': State, gap: nat)
    requires TakeoverInv(s, gap) && c in s.pcs && !Critical(s.pcs[c]) && c in s'.pcs && !Critical(s'.pcs[c])
    requires s'.pcs == s.pcs[c := s'.pcs[c]] && s'.lock == s.lock
    requires LooksAtOld(s'.pcs[c], gap) ==> s.lock.Held? && !LiveHolder(s, s.lock)
    requires s'.pcs[c].Stale? ==> LooksAtOld(s'.pcs[c], gap)
    ensures TakeoverInv(s', gap)
  {
    assert LiveHolder(s', s'.lock) == LiveHolder(s, s.lock);
  }

  /** Nobody else looks at an old file. */
  lemma UnlinkKeeps(s: State, c: Call, gap: nat)
    requires Enabled(s, Unlink(c)) && TakeoverInv(s, gap) && OneTakeover(s, gap)
    ensures TakeoverInv(Apply(s, Unlink(c)), gap) && Apply(s, Unlink(c)).robbed == s.robbed
  {
    var s' := Apply(s, Unlink(c));
    assert LooksAtOld(s.pcs[c], gap);
    forall d | d in s'.pcs ensures !LooksAtOld(s'.pcs[d], gap) {
      if d != c { assert s'.pcs[d] == s.pcs[d]; }
    }
  }

  ghost predicate NobodyLooksAtOld(s: State, gap: nat) {
    forall c | c in s.pcs :: !LooksAtOld(s.pcs[c], gap)
  }

  lemma CreateKeeps(s: State, c: Call, gap: nat)
    requires Enabled(s, Create(c)) && TakeoverInv(s, gap)
    ensures TakeoverInv(Apply(s, Create(c)), gap) && Apply(s, Create(c)).robbed == s.robbed
  {
    var s' := Apply(s, Create(c));
    assert NobodyLooksAtOld(s, gap);
    forall d | d in s'.pcs ensures !LooksAtOld(s'.pcs[d], gap) {
      if d != c { assert s'.pcs[d] == s.pcs[d]; }
    }
  }

  predicate WriterOf(s: State, c: Call) { c in s.pcs && Critical(s.pcs[c]) }

  /** While a writer is at work, nobody looks at an old file, and its steps do not change that. */
  lemma WorkKeeps(s: State, step: Step, gap: nat)
    requires step.Fill? || step.FailFilling? || step.Fetch? || step.Append? || step.Release? || step.Fail? || step.FailWritten?
    requires Enabled(s, step) && LockInv(s) && TakeoverInv(s, gap)
    ensures TakeoverInv(Apply(s, step), gap) && Apply(s, step).robbed == s.robbed
  {
    var s', c := Apply(s, step), step.c;
    assert WriterOf(s, c) && LiveHolder(s, s.lock);
    assert NobodyLooksAtOld(s, gap);
    assert s'.pcs == s.pcs[c := s'.pcs[c]] && !Looks(s'.pcs[c]);
    NobodyStillLooks(s, c, s', gap);
  }

  lemma NobodyStillLooks(s: State, c: Call, s': State, gap: nat)
    requires NobodyLooksAtOld(s, gap) && TakeoverInv(s, gap)
    requires c in s'.pcs && s'.pcs == s.pcs[c := s'.pcs[c]] && !Looks(s'.pcs[c])
    ensures TakeoverInv(s', gap)
  {
  }

  lemma OtherStepsKeep(s: State, step: Step, gap: nat)
    requires Enabled(s, step) && TakeoverInv(s, gap)
    requires step.Enter? || step.Turn? || step.Bounce? || step.Retry? || step.FailWaiting?
          || step.Crash? || step.CrashAppending? || step.Tick?
    ensures TakeoverInv(Apply(s, step), gap) && Apply(s, step).robbed == s.robbed
  {
    var s' := Apply(s, step);
    assert s'.lock == s.lock;
    forall c | c in s'.pcs ensures Looks(s'.pcs[c]) || Critical(s'.pcs[c]) ==> c in s.pcs && s.pcs[c] == s'.pcs[c] {}
  }

  /** An orderly run, crashed holders and takeovers of their lock files included, never takes the lock
  file from a writer at work. */
  lemma {:induction false} OrderlyRunsAreNotRobbed(runId: string, clock: int, steps: seq<Step>, gap: nat)
    requires Orderly(Init(runId, clock), steps, gap)
    ensures TakeoverInv(Run(Init(runId, clock), steps).value, gap) && !Run(Init(runId, clock), steps).value.robbed
  {
    if steps != [] {
      var before := steps[..|steps| - 1];
      OrderlyRunsAreNotRobbed(runId, clock, before, gap);
      RunKeepsInv(runId, clock, before);
      hide Enabled, Apply;
      TakeoverKept(Run(Init(runId, clock), before).value, steps[|steps| - 1], gap);
    }
  }

  /** So in an orderly run there is at most one writer, readers see 1, 2, ..., m, and without parts of
  records and with proper callers the log is exactly the appends. */
  lemma {:induction false} OrderlyRunsAreSafe(runId: string, clock: int, steps: seq<Step>, gap: nat)
    requires Orderly(Init(runId, clock), steps, gap)
    ensures var s := Run(Init(runId, clock), steps).value;
            && AtMostOneWriter(s)
            && Counts(ParseRunEvents(s.text, runId))
            && (Undisturbed(s) ==> LogIsAppends(s))
  {
    OrderlyRunsAreNotRobbed(runId, clock, steps, gap);
    MutualExclusion(runId, clock, steps);
    ReaderSeesEverySeqOnce(runId, clock, steps);
    if Undisturbed(Run(Init(runId, clock), steps).value) { LogIsTheAppends(runId, clock, steps); }
  }

  /** A lock file belongs to a writer at work and is less than a minute old, by a margin. */
  predicate HeldBriefly(s: State, gap: nat) {
    s.lock.Held? ==> LiveHolder(s, s.lock) && s.clock - s.lock.mtime < LOCK_TIMEOUT_MS - gap
  }

  function HeldBrieflyBy(gap: nat): State -> bool { (s: State) => HeldBriefly(s, gap) }

  ghost predicate NobodyStale(s: State) { forall c | c in s.pcs :: !s.pcs[c].Stale? }

  lemma NobodyGetsStale(s: State, step: Step, gap: nat)
    requires Enabled(s, step) && HeldBriefly(s, gap) && Timely(s, gap) && NobodyStale(s) && NobodyLooksAtOld(s, gap)
    ensures NobodyStale(Apply(s, step)) && NobodyLooksAtOld(Apply(s, step), gap)
  {
    var s' := Apply(s, step);
    forall c | c in s'.pcs ensures !s'.pcs[c].Stale? && !LooksAtOld(s'.pcs[c], gap) {
      if step != Stat(c) && step != Compare(c) { assert Looks(s'.pcs[c]) ==> c in s.pcs && s.pcs[c] == s'.pcs[c]; }
    }
  }

  /** In a run in which that is always so, and callers look at the clock in time, there is no takeover at
  all, and it is orderly. */
  lemma {:induction false} PromptRunsAreOrderly(runId: string, clock: int, steps: seq<Step>, gap: nat)
    requires Throughout(Init(runId, clock), steps, HeldBrieflyBy(gap))
    requires Throughout(Init(runId, clock), steps, TimelyBy(gap))
    ensures Orderly(Init(runId, clock), steps, gap)
    ensures var s := Run(Init(runId, clock), steps).value; NobodyStale(s) && NobodyLooksAtOld(s, gap)
  {
    if steps != [] {
      var before := steps[..|steps| - 1];
      PromptRunsAreOrderly(runId, clock, before, gap);
      hide Enabled, Apply;
      NobodyGetsStale(Run(Init(runId, clock), before).value, steps[|steps| - 1], gap);
    }
  }

  // ---------- a single takeover ----------

  ghost predicate NoTakeovers(steps: seq<Step>) {
    forall i :: 0 <= i < |steps| ==> !steps[i].Unlink?
  }

  /** Without further takeovers, a lock that is sound stays so. */
  lemma {:induction false} LockStaysSound(s: State, steps: seq<Step>)
    requires LockInv(s) && NoTakeovers(steps) && Run(s, steps).Some?
    ensures LockInv(Run(s, steps).value)
  {
    if steps != [] {
      LockStaysSound(s, steps[..|steps| - 1]);
      LockKept(Run(s, steps[..|steps| - 1]).value, steps[|steps| - 1]);
    }
  }

  lemma {:induction false} Bound(numbers: set<nat>) returns (bound: nat)
    ensures forall n :: n in numbers ==> n < bound
  {
    bound := 0;
    if numbers != {} {
      var n :| n in numbers;
      var others := Bound(numbers - {n});
      bound := if n < others then others else n + 1;
      assert forall m :: m in numbers ==> m == n || m in numbers - {n};
    }
  }

  /** Somewhere there is always another process that has not called yet. */
  lemma NewCaller(s: State) returns (d: Call)
    ensures d !in s.pcs && d.process !in s.dead && Queue(s, d.process) == []
  {
    var callers := set c | c in s.pcs :: c.process;
    var bound := Bound(s.dead + s.queues.Keys + callers);
    d := Call(bound, 0, s.runId, "", true);
    assert d in s.pcs ==> d.process in callers;
    assert d.process in s.queues ==> d.process in s.queues.Keys;
  }

  /** After one takeover, two writers can get in without another one, if and only if the lock file
  taken was that of a writer at work. */
  lemma {:induction false} TakeoverIsSafeIffHolderIsGone(s: State, c: Call)
    requires Enabled(s, Unlink(c)) && LockInv(s)
    ensures var s' := Apply(s, Unlink(c));
            (exists steps :: NoTakeovers(steps) && Run(s', steps).Some? && !AtMostOneWriter(Run(s', steps).value))
            <==> LiveHolder(s, s.lock)
  {
    var s' := Apply(s, Unlink(c));
    if LiveHolder(s, s.lock) {
      var d := NewCaller(s');
      var steps := [Enter(d), Turn(d), Create(d)];
      AnotherGetsIn(s', d);
      var end := Run(s', steps).value;
      assert s.lock.owner != d && Critical(end.pcs[s.lock.owner]) && Critical(end.pcs[d]);
      assert NoTakeovers(steps) && !AtMostOneWriter(end);
    } else if steps :| NoTakeovers(steps) && Run(s', steps).Some? && !AtMostOneWriter(Run(s', steps).value) {
      LockKept(s, Unlink(c));
      LockStaysSound(s', steps);
    }
  }

  lemma AnotherGetsIn(s: State, d: Call)
    requires s.lock.Free? && d !in s.pcs && d.process !in s.dead && Queue(s, d.process) == []
    ensures var end := Run(s, [Enter(d), Turn(d), Create(d)]);
            end.Some? && end.value.pcs == s.pcs[d := Created]
  {
    ThreeSteps(s, Enter(d), Turn(d), Create(d));
  }

  /** The file about to be unlinked is the one that was seen, and its writer has been at work for a
  minute or more. */
  predicate HolderIsSlow(s: State, seen: Lock) {
    && LiveHolder(s, s.lock) && seen.Held? && s.lock.owner == seen.owner
    && s.clock - seen.mtime >= LOCK_TIMEOUT_MS
  }

  /** The file that was seen has gone, and the one there now is that of another writer at work. */
  predicate WasReplaced(s: State, seen: Lock) {
    LiveHolder(s, s.lock) && seen.Held? && s.lock.owner != seen.owner
  }

  /** In every run so far sound, a takeover takes the lock file of a writer at work if and only if that
  writer is slow, or the file has been replaced since the stat. */
  lemma {:induction false} RobberyIsSlowOrReplaced(runId: string, clock: int, steps: seq<Step>, c: Call)
    requires Run(Init(runId, clock), steps).Some?
    requires var s := Run(Init(runId, clock), steps).value; !s.robbed && Enabled(s, Unlink(c))
    ensures var s := Run(Init(runId, clock), steps).value;
            Apply(s, Unlink(c)).robbed <==> HolderIsSlow(s, s.pcs[c].seen) || WasReplaced(s, s.pcs[c].seen)
  {
    RunKeepsInv(runId, clock, steps);
  }

  // ---------- three runs that let two writers in ----------

  lemma RunSnoc(s: State, steps: seq<Step>, step: Step)
    requires Run(s, steps).Some? && Enabled(Run(s, steps).value, step)
    ensures Run(s, steps + [step]) == Some(Apply(Run(s, steps).value, step))
  {
    assert (steps + [step])[..|steps|] == steps;
  }

  lemma {:induction false} RunConcat(s: State, before: seq<Step>, after: seq<Step>)
    requires Run(s, before).Some?
    ensures Run(s, before + after) == Run(Run(s, before).value, after)
  {
    if after == [] {
      assert before + after == before;
    } else {
      var init := after[..|after| - 1];
      RunConcat(s, before, init);
      assert (before + after)[..|before + after| - 1] == before + init;
    }
  }

  lemma ThreeSteps(s: State, a: Step, b: Step, c: Step)
    requires Enabled(s, a) && Enabled(Apply(s, a), b) && Enabled(Apply(Apply(s, a), b), c)
    ensures Run(s, [a, b, c]) == Some(Apply(Apply(Apply(s, a), b), c))
  {
    hide Enabled, Apply;
    assert Run(s, []) == Some(s);
    RunSnoc(s, [], a);
    RunSnoc(s, [] + [a], b);
    RunSnoc(s, [] + [a] + [b], c);
    assert [] + [a] + [b] + [c] == [a, b, c];
  }

  lemma FourSteps(s: State, a: Step, b: Step, c: Step, d: Step)
    requires Enabled(s, a) && Enabled(Apply(s, a), b) && Enabled(Apply(Apply(s, a), b), c)
    requires Enabled(Apply(Apply(Apply(s, a), b), c), d)
    ensures Run(s, [a, b, c] + [d]) == Some(Apply(Apply(Apply(Apply(s, a), b), c), d))
  {
    hide Enabled, Apply;
    ThreeSteps(s, a, b, c);
    RunSnoc(s, [a, b, c], d);
  }

  lemma {:induction false} ThroughoutConcat(s: State, before: seq<Step>, after: seq<Step>, p: State -> bool)
    requires Throughout(s, before, p) && Throughout(Run(s, before).value, after, p)
    ensures Throughout(s, before + after, p)
  {
    RunConcat(s, before, after);
    if after == [] {
      assert before + after == before;
    } else {
      ThroughoutConcat(s, before, after[..|after| - 1], p);
      assert (before + after)[..|before + after| - 1] == before + after[..|after| - 1];
    }
  }

  // Each of the three conditions of an orderly run, by itself, along a run.

  function TimeOf(steps: seq<Step>): nat {
    if steps == [] then 0
    else TimeOf(steps[..|steps| - 1]) + match steps[|steps| - 1] case Tick(ms) => ms case _ => 0
  }

  predicate YoungerThan(s: State, age: nat) {
    LiveHolder(s, s.lock) ==> s.clock - s.lock.mtime <= age
  }

  /** As long as less than a minute passes, no writer gets slow. */
  lemma {:induction false} QuickWhileShort(s: State, steps: seq<Step>, age: nat)
    requires YoungerThan(s, age) && Run(s, steps).Some? && age + TimeOf(steps) < LOCK_TIMEOUT_MS
    ensures Throughout(s, steps, QuickBy(0)) && YoungerThan(Run(s, steps).value, age + TimeOf(steps))
  {
    hide Enabled, Apply;
    if steps != [] {
      var before, step := steps[..|steps| - 1], steps[|steps| - 1];
      QuickWhileShort(s, before, age);
      OneStepOlder(Run(s, before).value, step, age + TimeOf(before));
    }
  }

  lemma OneStepOlder(s: State, step: Step, age: nat)
    requires Enabled(s, step) && YoungerThan(s, age)
    ensures YoungerThan(Apply(s, step), match step case Tick(ms) => age + ms case _ => age)
  {
  }

  /** While no time passes, every caller is in time. */
  lemma {:induction false} TimelyWithoutTicks(s: State, steps: seq<Step>)
    requires Timely(s, 0) && Run(s, steps).Some? && forall i :: 0 <= i < |steps| ==> !steps[i].Tick?
    ensures Throughout(s, steps, TimelyBy(0))
  {
    hide Enabled, Apply;
    if steps != [] {
      var before, step := steps[..|steps| - 1], steps[|steps| - 1];
      TimelyWithoutTicks(s, before);
      StepKeepsTimely(Run(s, before).value, step);
    }
  }

  lemma StepKeepsTimely(s: State, step: Step)
    requires Enabled(s, step) && Timely(s, 0) && !step.Tick?
    ensures Timely(Apply(s, step), 0)
  {
    var s' := Apply(s, step);
    forall c | c in s'.pcs && Looks(s'.pcs[c]) ensures s'.clock - s'.pcs[c].at <= 0 {
      if step != Stat(c) { assert c in s.pcs && Looks(s.pcs[c]) && s'.pcs[c].at == s.pcs[c].at; }
    }
  }

  ghost predicate OnlyLooks(s: State, callers: set<Call>) {
    forall c | c in s.pcs && Looks(s.pcs[c]) :: c in callers
  }

  /** Nobody looks at the lock file but those who stat it. */
  lemma {:induction false} WhoLooks(runId: string, steps: seq<Step>, callers: set<Call>)
    requires Run(Init(runId, 0), steps).Some?
    requires forall i :: 0 <= i < |steps| && steps[i].Stat? ==> steps[i].c in callers
    ensures OnlyLooks(Run(Init(runId, 0), steps).value, callers)
    ensures callers == {} ==> Throughout(Init(runId, 0), steps, TimelyBy(0))
    ensures |callers| <= 1 ==> Throughout(Init(runId, 0), steps, OneTakeoverBy(0))
  {
    hide Enabled, Apply;
    if steps != [] {
      var before, step := steps[..|steps| - 1], steps[|steps| - 1];
      WhoLooks(runId, before, callers);
      StepKeepsOnlyLooks(Run(Init(runId, 0), before).value, step, callers);
    }
    AtMostOneLooks(Run(Init(runId, 0), steps).value, callers);
  }

  lemma StepKeepsOnlyLooks(s: State, step: Step, callers: set<Call>)
    requires Enabled(s, step) && OnlyLooks(s, callers) && (step.Stat? ==> step.c in callers)
    ensures OnlyLooks(Apply(s, step), callers)
  {
    var s' := Apply(s, step);
    forall c | c in s'.pcs && Looks(s'.pcs[c]) ensures c in callers {
      if step != Stat(c) { assert c in s.pcs && Looks(s.pcs[c]); }
    }
  }

  lemma AtMostOneLooks(s: State, callers: set<Call>)
    requires OnlyLooks(s, callers)
    ensures callers == {} ==> Timely(s, 0)
    ensures |callers| <= 1 ==> OneTakeover(s, 0)
  {
    if |callers| <= 1 {
      forall c, d | c in callers && d in callers ensures c == d {
        assert |callers - {c}| == |callers| - 1;
        assert d in callers - {c} || c == d;
      }
    }
  }

  // Pieces of those runs.

  /** A new caller that finds the lock file a minute old. */
  function Waits(b: Call): seq<Step> { [Enter(b), Turn(b), Bounce(b)] + [Stat(b)] + [Compare(b)] }

  function TakesOver(b: Call): seq<Step> { [Unlink(b), Retry(b), Create(b)] }

  predicate MayEnter(s: State, b: Call) {
    b !in s.pcs && b.process !in s.dead && Queue(s, b.process) == []
  }

  lemma WaiterSeesStaleLock(s: State, b: Call)
    requires s.lock.Held? && s.clock - s.lock.mtime >= LOCK_TIMEOUT_MS && MayEnter(s, b)
    ensures var end := Run(s, Waits(b));
            && end.Some? && end.value.clock == s.clock && end.value.lock == s.lock && end.value.dead == s.dead
            && end.value.pcs == s.pcs[b := Stale(s.clock, s.lock, s.clock)]
            && forall p | p != b.process :: Queue(end.value, p) == Queue(s, p)
  {
    WaiterLooks(s, b);
    RunSnoc(s, [Enter(b), Turn(b), Bounce(b)] + [Stat(b)], Compare(b));
  }

  lemma WaiterLooks(s: State, b: Call)
    requires s.lock.Held? && MayEnter(s, b)
    ensures var end := Run(s, [Enter(b), Turn(b), Bounce(b)] + [Stat(b)]);
            && end.Some? && end.value.clock == s.clock && end.value.lock == s.lock && end.value.dead == s.dead
            && end.value.pcs == s.pcs[b := Looked(s.clock, s.lock, s.clock)]
            && forall p | p != b.process :: Queue(end.value, p) == Queue(s, p)
  {
    FourSteps(s, Enter(b), Turn(b), Bounce(b), Stat(b));
  }

  lemma WaiterTakesOver(s: State, b: Call)
    requires b in s.pcs && s.pcs[b].Stale? && s.clock - s.pcs[b].startedAt < LOCK_TIMEOUT_MS
    ensures var end := Run(s, TakesOver(b));
            && end.Some? && end.value.clock == s.clock && end.value.lock == Held(b, s.clock)
            && end.value.pcs == s.pcs[b := Created]
  {
    ThreeSteps(s, Unlink(b), Retry(b), Create(b));
  }

  lemma OneTakesOver(s: State, b: Call)
    requires s.lock.Held? && s.clock - s.lock.mtime >= LOCK_TIMEOUT_MS && MayEnter(s, b)
    ensures var end := Run(s, Waits(b) + TakesOver(b)); end.Some? && end.value.pcs == s.pcs[b := Created]
  {
    hide Enabled, Apply, Run;
    WaiterSeesStaleLock(s, b);
    var s1 := Run(s, Waits(b)).value;
    WaiterTakesOver(s1, b);
    RunConcat(s, Waits(b), TakesOver(b));
  }

  function Stalls(a: Call): seq<Step> { [Enter(a), Turn(a), Create(a)] + [Tick(LOCK_TIMEOUT_MS)] }

  function DiesHolding(a: Call): seq<Step> { [Enter(a), Turn(a), Create(a)] + [Crash(a.process)] }

  const A_MINUTE := [Tick(LOCK_TIMEOUT_MS)]

  predicate BothAtWork(s: State, c: Call, d: Call) {
    c in s.pcs && d in s.pcs && c != d && Critical(s.pcs[c]) && Critical(s.pcs[d])
  }

  function Caller(process: nat, runId: string): Call { Call(process, 0, runId, "", true) }

  /** A writer that is still at work after a minute loses its lock file to the first waiter: this run,
  in which waiters are in time and takeovers do not overlap, ends with two writers between create and
  unlink. */
  lemma SlowWriterLosesItsLock(runId: string)
    ensures var a, b := Caller(1, runId), Caller(2, runId);
            var steps := Stalls(a) + (Waits(b) + TakesOver(b));
            && Throughout(Init(runId, 0), steps, TimelyBy(0)) && Throughout(Init(runId, 0), steps, OneTakeoverBy(0))
            && BothAtWork(Run(Init(runId, 0), steps).value, a, b)
  {
    var a, b := Caller(1, runId), Caller(2, runId);
    var s, stalled, taken := Init(runId, 0), Stalls(a), Waits(b) + TakesOver(b);
    WriterStalls(runId, a);
    hide Enabled, Apply, Run;
    OneTakesOver(Run(s, stalled).value, b);
    RunConcat(s, stalled, taken);
    WhoLooks(runId, stalled + taken, {b});
    LateTimely(runId, stalled, taken);
  }

  /** Stats after all the waiting are in time. */
  lemma LateTimely(runId: string, early: seq<Step>, late: seq<Step>)
    requires Run(Init(runId, 0), early).Some? && Run(Init(runId, 0), early + late).Some?
    requires forall i :: 0 <= i < |early| ==> !early[i].Stat?
    requires forall i :: 0 <= i < |late| ==> !late[i].Tick?
    ensures Throughout(Init(runId, 0), early + late, TimelyBy(0))
  {
    WhoLooks(runId, early, {});
    RunConcat(Init(runId, 0), early, late);
    TimelyWithoutTicks(Run(Init(runId, 0), early).value, late);
    ThroughoutConcat(Init(runId, 0), early, late, TimelyBy(0));
  }

  lemma WriterStalls(runId: string, a: Call)
    ensures var end := Run(Init(runId, 0), Stalls(a));
            && end.Some? && end.value.lock == Held(a, 0) && end.value.clock == LOCK_TIMEOUT_MS
            && end.value.pcs == map[a := Created] && end.value.dead == {}
            && forall p | p != a.process :: Queue(end.value, p) == []
  {
    FourSteps(Init(runId, 0), Enter(a), Turn(a), Create(a), Tick(LOCK_TIMEOUT_MS));
  }

  /** Two waiters can both see a crashed holder's lock file and unlink it one after the other, the second
  time the first waiter's: this run, in which writers are quick and waiters in time throughout, ends
  with both of them between create and unlink. */
  lemma TwoTakeoversLetTwoIn(runId: string)
    ensures var a, b, c := Caller(1, runId), Caller(2, runId), Caller(3, runId);
            var steps := DiesHolding(a) + A_MINUTE + TwoTakeovers(b, c);
            && Throughout(Init(runId, 0), steps, QuickBy(0)) && Throughout(Init(runId, 0), steps, TimelyBy(0))
            && BothAtWork(Run(Init(runId, 0), steps).value, b, c)
  {
    var a, b, c := Caller(1, runId), Caller(2, runId), Caller(3, runId);
    var s, late := Init(runId, 0), DiesHolding(a) + A_MINUTE;
    HolderCrashes(runId, a);
    BothTakeOver(Run(s, late).value, b, c);
    NoTicksNorStats(a, b, c);
    hide Enabled, Apply, Run, DiesHolding, TwoTakeovers, A_MINUTE;
    RunConcat(s, late, TwoTakeovers(b, c));
    NoTimePasses(TwoTakeovers(b, c));
    QuickAfterCrash(runId, a, TwoTakeovers(b, c));
    LateTimely(runId, late, TwoTakeovers(b, c));
  }

  lemma NoTicksNorStats(a: Call, b: Call, c: Call)
    ensures forall i :: 0 <= i < |TwoTakeovers(b, c)| ==> !TwoTakeovers(b, c)[i].Tick?
    ensures var late := DiesHolding(a) + A_MINUTE; forall i :: 0 <= i < |late| ==> !late[i].Stat?
  {
  }

  function TwoTakeovers(b: Call, c: Call): seq<Step> { Waits(b) + Waits(c) + TakesOver(b) + TakesOver(c) }

  lemma BothTakeOver(s: State, b: Call, c: Call)
    requires s.lock.Held? && s.clock - s.lock.mtime >= LOCK_TIMEOUT_MS && b.process != c.process
    requires MayEnter(s, b) && MayEnter(s, c)
    ensures var end := Run(s, TwoTakeovers(b, c)); end.Some? && BothAtWork(end.value, b, c)
  {
    hide Enabled, Apply, Run;
    WaiterSeesStaleLock(s, b);
    var s1 := Run(s, Waits(b)).value;
    WaiterSeesStaleLock(s1, c);
    RunConcat(s, Waits(b), Waits(c));
    var s2 := Run(s1, Waits(c)).value;
    WaiterTakesOver(s2, b);
    RunConcat(s, Waits(b) + Waits(c), TakesOver(b));
    var s3 := Run(s2, TakesOver(b)).value;
    WaiterTakesOver(s3, c);
    RunConcat(s, Waits(b) + Waits(c) + TakesOver(b), TakesOver(c));
  }

  lemma {:induction false} NoTimePasses(steps: seq<Step>)
    requires forall i :: 0 <= i < |steps| ==> !steps[i].Tick?
    ensures TimeOf(steps) == 0
  {
    if steps != [] { NoTimePasses(steps[..|steps| - 1]); }
  }

  /** After that crash, writers stay quick as long as less than a minute passes. */
  lemma QuickAfterCrash(runId: string, a: Call, rest: seq<Step>)
    requires Run(Init(runId, 0), DiesHolding(a) + A_MINUTE + rest).Some? && TimeOf(rest) < LOCK_TIMEOUT_MS
    ensures Throughout(Init(runId, 0), DiesHolding(a) + A_MINUTE + rest, QuickBy(0))
  {
    var s, late := Init(runId, 0), DiesHolding(a) + A_MINUTE;
    HolderCrashes(runId, a);
    hide Enabled, Apply;
    assert late[..|late| - 1] == DiesHolding(a);
    NoTimePasses(DiesHolding(a));
    QuickWhileShort(s, DiesHolding(a), 0);
    hide Run;
    RunConcat(s, late, rest);
    QuickWhileShort(Run(s, late).value, rest, 0);
    ThroughoutConcat(s, late, rest, QuickBy(0));
  }

  lemma HolderCrashes(runId: string, a: Call)
    ensures var end := Run(Init(runId, 0), DiesHolding(a) + A_MINUTE);
            && end.Some? && end.value.lock == Held(a, 0) && end.value.clock == LOCK_TIMEOUT_MS
            && end.value.pcs == map[a := Crashed] && end.value.dead == {a.process}
            && forall p :: Queue(end.value, p) == []
  {
    var s := Init(runId, 0);
    ThreeSteps(s, Enter(a), Turn(a), Create(a));
    var s1 := Apply(Apply(Apply(s, Enter(a)), Turn(a)), Create(a));
    CrashedHolder(s1, a);
    RunSnoc(s, [Enter(a), Turn(a), Create(a)], Crash(a.process));
    RunSnoc(s, DiesHolding(a), Tick(LOCK_TIMEOUT_MS));
  }

  lemma CrashedHolder(s: State, a: Call)
    requires s.lock == Held(a, 0) && s.pcs == map[a := Created] && s.dead == {}
    requires forall p | p != a.process :: Queue(s, p) == []
    ensures var s' := Kill(s, a.process);
            && s'.pcs == map[a := Crashed] && s'.dead == {a.process} && s'.lock == s.lock && s'.clock == s.clock
            && forall p :: Queue(s', p) == []
  {
    var s' := Kill(s, a.process);
    assert s'.pcs.Keys == {a} && s'.pcs[a] == Crashed;
    assert forall p | p != a.process :: Queue(s', p) == Queue(s, p);
  }

  /** The clock is read only after the stat.  In this run a waiter stats the file of a writer that has
  been at work for half a minute, and reads the clock half a minute later, when another writer is at
  work, so it unlinks that one's file: writers are quick throughout and no two callers take over, and
  it ends with two writers between create and unlink. */
  lemma LateLookLetsTwoIn(runId: string)
    ensures var a, b, c := Caller(1, runId), Caller(2, runId), Caller(3, runId);
            var steps := LooksAt(a, c) + Finishes(a) + (NextAtWork(b) + TakesOverLate(c));
            && Throughout(Init(runId, 0), steps, QuickBy(0)) && Throughout(Init(runId, 0), steps, OneTakeoverBy(0))
            && BothAtWork(Run(Init(runId, 0), steps).value, b, c)
  {
    var a, b, c := Caller(1, runId), Caller(2, runId), Caller(3, runId);
    var s, first, rest := Init(runId, 0), LooksAt(a, c) + Finishes(a), NextAtWork(b) + TakesOverLate(c);
    LateLook(runId, a, b, c);
    hide Enabled, Apply, Run;
    HalfAMinuteEach(a, b, c);
    QuickWhileShort(s, first, 0);
    QuickWhileShort(Run(s, first).value, rest, 0);
    ThroughoutConcat(s, first, rest, QuickBy(0));
    WhoLooks(runId, first + rest, {c});
  }

  lemma LateLook(runId: string, a: Call, b: Call, c: Call)
    requires a.process != b.process && a.process != c.process && b.process != c.process
    ensures var first, rest := LooksAt(a, c) + Finishes(a), NextAtWork(b) + TakesOverLate(c);
            && Run(Init(runId, 0), first).Some? && Run(Init(runId, 0), first).value.lock.Free?
            && Run(Init(runId, 0), first + rest) == Run(Run(Init(runId, 0), first).value, rest)
            && Run(Init(runId, 0), first + rest).Some?
            && BothAtWork(Run(Init(runId, 0), first + rest).value, b, c)
  {
    var s, first, rest := Init(runId, 0), LooksAt(a, c) + Finishes(a), NextAtWork(b) + TakesOverLate(c);
    SeesWriterAtWork(runId, a, c);
    var s1 := Run(s, LooksAt(a, c)).value;
    hide Enabled, Apply, Run;
    FinishesWork(s1, a);
    RunConcat(s, LooksAt(a, c), Finishes(a));
    AnotherIsTaken(Run(s, first).value, b, c);
    RunConcat(s, first, rest);
  }

  const HALF_A_MINUTE := 30_000

  function LooksAt(a: Call, c: Call): seq<Step> {
    [Enter(a), Turn(a), Create(a)] + [Tick(HALF_A_MINUTE)] + ([Enter(c), Turn(c), Bounce(c)] + [Stat(c)])
  }

  function Finishes(a: Call): seq<Step> { [Fill(a), Fetch(a), Append(a)] + [Release(a)] }

  function NextAtWork(b: Call): seq<Step> { [Enter(b), Turn(b), Create(b)] + [Tick(HALF_A_MINUTE)] }

  function TakesOverLate(c: Call): seq<Step> { [Compare(c)] + TakesOver(c) }

  lemma HalfAMinuteEach(a: Call, b: Call, c: Call)
    ensures TimeOf(LooksAt(a, c) + Finishes(a)) == HALF_A_MINUTE
    ensures TimeOf(NextAtWork(b) + TakesOverLate(c)) == HALF_A_MINUTE
  {
    var looking, working := [Enter(c), Turn(c), Bounce(c)] + [Stat(c)], [Tick(HALF_A_MINUTE)];
    TimeAdds(LooksAt(a, c), Finishes(a));
    TimeAdds([Enter(a), Turn(a), Create(a)] + working, looking);
    TimeAdds([Enter(a), Turn(a), Create(a)], working);
    TimeAdds(NextAtWork(b), TakesOverLate(c));
    TimeAdds([Enter(b), Turn(b), Create(b)], working);
    NoTimePasses([Enter(a), Turn(a), Create(a)]);
    NoTimePasses([Enter(b), Turn(b), Create(b)]);
    NoTimePasses(looking);
    NoTimePasses(Finishes(a));
    NoTimePasses(TakesOverLate(c));
    assert working[..0] == [];
  }

  lemma {:induction false} TimeAdds(before: seq<Step>, after: seq<Step>)
    ensures TimeOf(before + after) == TimeOf(before) + TimeOf(after)
  {
    if after == [] {
      assert before + after == before;
    } else {
      TimeAdds(before, after[..|after| - 1]);
      assert (before + after)[..|before + after| - 1] == before + after[..|after| - 1];
    }
  }

  lemma SeesWriterAtWork(runId: string, a: Call, c: Call)
    requires a.process != c.process
    ensures var end := Run(Init(runId, 0), LooksAt(a, c));
            && end.Some? && end.value.clock == HALF_A_MINUTE && end.value.lock == Held(a, 0) && end.value.dead == {}
            && end.value.pcs == map[a := Created, c := Looked(HALF_A_MINUTE, Held(a, 0), HALF_A_MINUTE)]
            && forall p | p != a.process && p != c.process :: Queue(end.value, p) == []
  {
    var s := Init(runId, 0);
    var working := [Enter(a), Turn(a), Create(a)] + [Tick(HALF_A_MINUTE)];
    FourSteps(s, Enter(a), Turn(a), Create(a), Tick(HALF_A_MINUTE));
    var s1 := Run(s, working).value;
    assert s1.pcs == map[a := Created];
    WaiterLooks(s1, c);
    RunConcat(s, working, [Enter(c), Turn(c), Bounce(c)] + [Stat(c)]);
  }

  lemma FinishesWork(s: State, a: Call)
    requires a in s.pcs && s.pcs[a].Created? && s.lock.Held? && s.lock.owner == a
    ensures var end := Run(s, Finishes(a));
            var e := NextEvent(s.text, s.runId, a.fallback, a.body, a.hasData);
            && end.Some? && end.value.clock == s.clock && end.value.lock.Free? && end.value.dead == s.dead
            && end.value.pcs.Keys == s.pcs.Keys && end.value.pcs[a] == Returned(e) && end.value.text == s.text + Record(e)
            && (forall c | c in s.pcs && c != a :: end.value.pcs[c] == s.pcs[c])
            && forall p | p != a.process :: Queue(end.value, p) == Queue(s, p)
  {
    FillsAndFetches(s, a);
    var s1 := Apply(Apply(s, Fill(a)), Fetch(a));
    AppendsAndReleases(s1, a);
    hide Apply;
    FourSteps(s, Fill(a), Fetch(a), Append(a), Release(a));
  }

  lemma FillsAndFetches(s: State, a: Call)
    requires a in s.pcs && s.pcs[a].Created?
    ensures Enabled(s, Fill(a)) && Enabled(Apply(s, Fill(a)), Fetch(a))
    ensures var end := Apply(Apply(s, Fill(a)), Fetch(a));
            && end.clock == s.clock && end.dead == s.dead && end.queues == s.queues && end.text == s.text
            && end.pcs.Keys == s.pcs.Keys
            && end.pcs[a] == Prepared(NextEvent(s.text, s.runId, a.fallback, a.body, a.hasData))
            && forall c | c in s.pcs && c != a :: end.pcs[c] == s.pcs[c]
  {
  }

  lemma AppendsAndReleases(s: State, a: Call)
    requires a in s.pcs && s.pcs[a].Prepared?
    ensures Enabled(s, Append(a)) && Enabled(Apply(s, Append(a)), Release(a))
    ensures var end := Apply(Apply(s, Append(a)), Release(a));
            && end.clock == s.clock && end.dead == s.dead && end.lock.Free?
            && end.pcs.Keys == s.pcs.Keys && end.pcs[a] == Returned(s.pcs[a].event)
            && end.text == s.text + Record(s.pcs[a].event)
            && (forall c | c in s.pcs && c != a :: end.pcs[c] == s.pcs[c])
            && forall p | p != a.process :: Queue(end, p) == Queue(s, p)
  {
  }

  lemma AnotherIsTaken(s: State, b: Call, c: Call)
    requires s.lock.Free? && MayEnter(s, b) && c in s.pcs && s.pcs[c].Looked? && s.pcs[c].seen.Held?
    requires s.clock + HALF_A_MINUTE - s.pcs[c].seen.mtime >= LOCK_TIMEOUT_MS
    requires s.clock + HALF_A_MINUTE - s.pcs[c].startedAt < LOCK_TIMEOUT_MS
    ensures var end := Run(s, NextAtWork(b) + TakesOverLate(c)); end.Some? && BothAtWork(end.value, b, c)
  {
    FourSteps(s, Enter(b), Turn(b), Create(b), Tick(HALF_A_MINUTE));
    var s1 := Run(s, NextAtWork(b)).value;
    assert s1.pcs == s.pcs[b := Created] && s1.clock == s.clock + HALF_A_MINUTE;
    TakesLate(s1, c);
    hide Enabled, Apply, Run;
    RunConcat(s, NextAtWork(b), TakesOverLate(c));
  }

  lemma TakesLate(s: State, c: Call)
    requires c in s.pcs && s.pcs[c].Looked? && s.pcs[c].seen.Held?
    requires s.clock - s.pcs[c].seen.mtime >= LOCK_TIMEOUT_MS && s.clock - s.pcs[c].startedAt < LOCK_TIMEOUT_MS
    ensures var end := Run(s, TakesOverLate(c)); end.Some? && end.value.pcs == s.pcs[c := Created]
  {
    RunSnoc(s, [], Compare(c));
    assert [] + [Compare(c)] == [Compare(c)];
    var s1 := Apply(s, Compare(c));
    assert s1.pcs == s.pcs[c := s1.pcs[c]] && s1.pcs[c].Stale?;
    hide Enabled, Apply, Run;
    WaiterTakesOver(s1, c);
    RunConcat(s, [Compare(c)], TakesOver(c));
  }

  // ---------- nobody in the way ----------

  /** From every state with a free lock, a new caller whose process has nothing else to do gets through:
  its record is in the log and is what it is returned, and the lock is free again. */
  lemma LoneAppendGoesThrough(s: State, a: Call)
    requires s.lock.Free? && MayEnter(s, a)
    ensures var end := Run(s, [Enter(a), Turn(a), Create(a)] + Finishes(a));
            var e := NextEvent(s.text, s.runId, a.fallback, a.body, a.hasData);
            && end.Some? && end.value.pcs[a] == Returned(e) && end.value.text == s.text + Record(e)
            && end.value.lock.Free? && e.body == a.body
  {
    ThreeSteps(s, Enter(a), Turn(a), Create(a));
    var s1 := Run(s, [Enter(a), Turn(a), Create(a)]).value;
    assert s1.pcs[a] == Created && s1.lock.owner == a && s1.text == s.text;
    hide Enabled, Apply, Run;
    FinishesWork(s1, a);
    RunConcat(s, [Enter(a), Turn(a), Create(a)], Finishes(a));
    NextCarriesData(s.text, s.runId, a.fallback, a.body, a.hasData);
  }
}
