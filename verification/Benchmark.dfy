/** The paired A/B benchmark: case outcomes, gates and the decision they lead to. */
module Benchmark {
  import opened Wrappers
  import opened Metric
  import SignTest

  datatype Evidence = Evidence(passed: bool, durationMs: int, totalTokens: Option<real>, costUsd: Option<real>)

  datatype Case = Case(id: string, baseline: Evidence, candidate: Evidence)

  datatype CaseOutcome = Win | Loss | PassTie | FailTie

  function OutcomeOf(c: Case): CaseOutcome {
    if c.candidate.passed && !c.baseline.passed then Win
    else if c.baseline.passed && !c.candidate.passed then Loss
    else if c.baseline.passed then PassTie
    else FailTie
  }

  function Count(cases: seq<Case>, outcome: CaseOutcome): nat {
    if cases == [] then 0 else (if OutcomeOf(cases[0]) == outcome then 1 else 0) + Count(cases[1..], outcome)
  }

  function Passes(evidence: seq<Evidence>): nat {
    if evidence == [] then 0 else (if evidence[0].passed then 1 else 0) + Passes(evidence[1..])
  }

  function Baselines(cases: seq<Case>): (evidence: seq<Evidence>)
    ensures |evidence| == |cases|
  {
    if cases == [] then [] else [cases[0].baseline] + Baselines(cases[1..])
  }

  function Candidates(cases: seq<Case>): (evidence: seq<Evidence>)
    ensures |evidence| == |cases|
  {
    if cases == [] then [] else [cases[0].candidate] + Candidates(cases[1..])
  }

  /** The same cases with the two variants exchanged. */
  function Swap(cases: seq<Case>): (swapped: seq<Case>)
    ensures |swapped| == |cases|
  {
    if cases == [] then []
    else [Case(cases[0].id, cases[0].candidate, cases[0].baseline)] + Swap(cases[1..])
  }

  // ---------- pass rates ----------

  function PassRate(passed: nat, runs: nat): real
    requires runs > 0
  {
    RoundMetric(passed as real / runs as real)
  }

  function PassRateDelta(basePassed: nat, candPassed: nat, runs: nat): real
    requires runs > 0
  {
    RoundMetric(PassRate(candPassed, runs) - PassRate(basePassed, runs))
  }

  // ---------- efficiency ----------

  datatype Field = Cost | Tokens | Duration

  function FieldOf(e: Evidence, field: Field): Option<real> {
    match field
    case Cost => e.costUsd
    case Tokens => e.totalTokens
    case Duration => Some(e.durationMs as real)
  }

  /** The cases in which both variants report the field. */
  function Pairs(cases: seq<Case>, field: Field): seq<(real, real)> {
    if cases == [] then []
    else
      var b, c := FieldOf(cases[0].baseline, field), FieldOf(cases[0].candidate, field);
      (if b.Some? && c.Some? then [(b.value, c.value)] else []) + Pairs(cases[1..], field)
  }

  function SumFirst(pairs: seq<(real, real)>): real {
    if pairs == [] then 0.0 else pairs[0].0 + SumFirst(pairs[1..])
  }

  function SumSecond(pairs: seq<(real, real)>): real {
    if pairs == [] then 0.0 else pairs[0].1 + SumSecond(pairs[1..])
  }

  datatype Comparison = Comparison(sampleSize: nat, relativeChange: Option<real>)

  function RelativeChange(baseline: real, candidate: real): Option<real> {
    if baseline == 0.0 then if candidate == 0.0 then Some(0.0) else None
    else Some(RoundMetric(candidate / baseline - 1.0))
  }

  function CompareMetric(cases: seq<Case>, field: Field): Comparison {
    var pairs := Pairs(cases, field);
    if pairs == [] then Comparison(0, None)
    else
      var n := |pairs| as real;
      Comparison(|pairs|, RelativeChange(RoundMetric(SumFirst(pairs) / n), RoundMetric(SumSecond(pairs) / n)))
  }

  // ---------- gates and decision ----------

  datatype Config = Config(
    minCases: int, minPassRateDelta: real, maxOneSidedPValue: real, minEfficiencyPairs: int,
    maxCostIncreaseRatio: real, maxTokenIncreaseRatio: real, maxDurationIncreaseRatio: real,
    requireCost: bool, requireTokens: bool, requireDuration: bool)

  datatype Gate = Gate(ok: bool, applicable: bool, regression: bool)

  function MinimumGate(actual: real, threshold: real): Gate { Gate(actual >= threshold, true, false) }

  function MaximumGate(actual: real, threshold: real): Gate { Gate(actual <= threshold, true, false) }

  function EfficiencyGate(c: Comparison, threshold: real, required: bool, minPairs: int): Gate {
    if c.sampleSize < minPairs then Gate(!required, false, false)
    else
      var ok := c.relativeChange.Some? && c.relativeChange.value <= threshold;
      Gate(ok, true, !ok)
  }

  datatype Gates = Gates(
    sampleSize: Gate, passRateImprovement: Gate, pairedDirection: Gate, significance: Gate,
    costRegression: Gate, tokenRegression: Gate, durationRegression: Gate)

  datatype Decision = Promote | Hold | Rejected

  datatype Report = Report(wins: nat, losses: nat, passRateDelta: real, gates: Gates, decision: Decision)

  function GatesOf(cases: seq<Case>, config: Config): Gates
    requires cases != []
  {
    var wins, losses := Count(cases, Win), Count(cases, Loss);
    var delta := PassRateDelta(Passes(Baselines(cases)), Passes(Candidates(cases)), |cases|);
    Gates(
      MinimumGate(|cases| as real, config.minCases as real),
      MinimumGate(delta, config.minPassRateDelta),
      MinimumGate((wins - losses) as real, 1.0),
      MaximumGate(SignTest.Significance(wins, losses), config.maxOneSidedPValue),
      EfficiencyGate(CompareMetric(cases, Cost), config.maxCostIncreaseRatio, config.requireCost, config.minEfficiencyPairs),
      EfficiencyGate(CompareMetric(cases, Tokens), config.maxTokenIncreaseRatio, config.requireTokens, config.minEfficiencyPairs),
      EfficiencyGate(CompareMetric(cases, Duration), config.maxDurationIncreaseRatio, config.requireDuration, config.minEfficiencyPairs))
  }

  predicate AllOk(g: Gates) {
    && g.sampleSize.ok && g.passRateImprovement.ok && g.pairedDirection.ok && g.significance.ok
    && g.costRegression.ok && g.tokenRegression.ok && g.durationRegression.ok
  }

  predicate Regresses(g: Gate) { g.applicable && !g.ok && g.regression }

  function Decide(cases: seq<Case>, config: Config): Report
    requires cases != []
  {
    var wins, losses := Count(cases, Win), Count(cases, Loss);
    var delta := PassRateDelta(Passes(Baselines(cases)), Passes(Candidates(cases)), |cases|);
    var gates := GatesOf(cases, config);
    var hardRegression := delta < 0.0 || wins < losses
      || Regresses(gates.costRegression) || Regresses(gates.tokenRegression) || Regresses(gates.durationRegression);
    Report(wins, losses, delta, gates, if AllOk(gates) then Promote else if hardRegression then Rejected else Hold)
  }

  // ---------- loading the cases ----------

  datatype Loaded = Loaded(path: string, goal: string, model: string, gates: string, skills: set<string>, evidence: Evidence)

  datatype CaseInput = CaseInput(id: string, baseline: Loaded, candidate: Loaded)

  datatype LoadError =
    | DuplicateId | ReusedSummary | MissingSkill | GoalsDiffer | ModelsDiffer | GatesDiffer | EndsBeforeStart | NoCases

  predicate Matched(c: CaseInput, skill: string, sameModel: bool) {
    && skill in c.baseline.skills && skill in c.candidate.skills
    && c.baseline.goal == c.candidate.goal
    && (sameModel ==> c.baseline.model == c.candidate.model)
    && c.baseline.gates == c.candidate.gates
    && c.baseline.evidence.durationMs >= 0 && c.candidate.evidence.durationMs >= 0
  }

  function PathsOf(inputs: seq<CaseInput>): seq<string> {
    if inputs == [] then []
    else
      var last := inputs[|inputs| - 1];
      PathsOf(inputs[..|inputs| - 1]) + [last.baseline.path, last.candidate.path]
  }

  function IdsOf(inputs: seq<CaseInput>): seq<string> {
    if inputs == [] then [] else IdsOf(inputs[..|inputs| - 1]) + [inputs[|inputs| - 1].id]
  }

  function CasesOf(inputs: seq<CaseInput>): (cases: seq<Case>)
    ensures |cases| == |inputs|
  {
    if inputs == [] then []
    else
      var last := inputs[|inputs| - 1];
      CasesOf(inputs[..|inputs| - 1]) + [Case(last.id, last.baseline.evidence, last.candidate.evidence)]
  }

  /** The cases are the inputs, in order, and so are the ids and the summaries, baseline before candidate. */
  lemma {:induction false} InputsInOrder(inputs: seq<CaseInput>, i: nat)
    requires i < |inputs|
    ensures CasesOf(inputs)[i] == Case(inputs[i].id, inputs[i].baseline.evidence, inputs[i].candidate.evidence)
    ensures |IdsOf(inputs)| == |inputs| && IdsOf(inputs)[i] == inputs[i].id
    ensures |PathsOf(inputs)| == 2 * |inputs|
    ensures PathsOf(inputs)[2 * i] == inputs[i].baseline.path && PathsOf(inputs)[2 * i + 1] == inputs[i].candidate.path
  {
    var init := inputs[..|inputs| - 1];
    if i < |init| {
      InputsInOrder(init, i);
    } else if init == [] {
      assert IdsOf(init) == [] && PathsOf(init) == [];
    } else {
      InputsInOrder(init, 0);
    }
  }

  ghost predicate Distinct(xs: seq<string>) {
    forall i, j :: 0 <= i < j < |xs| ==> xs[i] != xs[j]
  }

  /** No case id and no summary file is used twice, and every case compares like with like. */
  ghost predicate Acceptable(inputs: seq<CaseInput>, skill: string, sameModel: bool) {
    && Distinct(IdsOf(inputs))
    && Distinct(PathsOf(inputs))
    && forall i :: 0 <= i < |inputs| ==> Matched(inputs[i], skill, sameModel)
  }

  lemma DistinctSnoc(xs: seq<string>, x: string)
    ensures Distinct(xs + [x]) <==> Distinct(xs) && x !in xs
  {
    var ys := xs + [x];
    if Distinct(ys) {
      assert forall i, j :: 0 <= i < j < |xs| ==> ys[i] == xs[i] && ys[j] == xs[j];
      forall i | 0 <= i < |xs| ensures xs[i] != x { assert ys[i] != ys[|xs|]; }
    }
  }

  lemma {:induction false} AcceptablePrefix(inputs: seq<CaseInput>, i: nat, skill: string, sameModel: bool)
    requires i <= |inputs| && Acceptable(inputs, skill, sameModel)
    ensures Acceptable(inputs[..i], skill, sameModel)
    decreases |inputs|
  {
    if i == |inputs| {
      assert inputs[..i] == inputs;
    } else {
      var init, last := inputs[..|inputs| - 1], inputs[|inputs| - 1];
      DistinctSnoc(IdsOf(init), last.id);
      var half := PathsOf(init) + [last.baseline.path];
      assert PathsOf(inputs) == half + [last.candidate.path];
      DistinctSnoc(half, last.candidate.path);
      DistinctSnoc(PathsOf(init), last.baseline.path);
      assert forall j :: 0 <= j < |init| ==> init[j] == inputs[j];
      AcceptablePrefix(init, i, skill, sameModel);
      assert init[..i] == inputs[..i];
    }
  }

  lemma AcceptableSnoc(before: seq<CaseInput>, c: CaseInput, skill: string, sameModel: bool)
    requires Acceptable(before, skill, sameModel)
    ensures Acceptable(before + [c], skill, sameModel) <==>
              && c.id !in IdsOf(before)
              && c.baseline.path !in PathsOf(before)
              && c.candidate.path !in PathsOf(before) + [c.baseline.path]
              && Matched(c, skill, sameModel)
  {
    var inputs := before + [c];
    assert inputs[..|before|] == before && inputs[|before|] == c;
    var half := PathsOf(before) + [c.baseline.path];
    assert PathsOf(inputs) == half + [c.candidate.path];
    DistinctSnoc(IdsOf(before), c.id);
    DistinctSnoc(half, c.candidate.path);
    DistinctSnoc(PathsOf(before), c.baseline.path);
  }

  /** The first check that a case fails, in the order in which they are made. */
  function FirstFault(c: CaseInput, seenIds: set<string>, seenPaths: set<string>, skill: string, sameModel: bool)
    : Option<LoadError>
  {
    if c.id in seenIds then Some(DuplicateId)
    else if c.baseline.path in seenPaths then Some(ReusedSummary)
    else if skill !in c.baseline.skills then Some(MissingSkill)
    else if c.candidate.path in seenPaths + {c.baseline.path} then Some(ReusedSummary)
    else if skill !in c.candidate.skills then Some(MissingSkill)
    else if c.baseline.goal != c.candidate.goal then Some(GoalsDiffer)
    else if sameModel && c.baseline.model != c.candidate.model then Some(ModelsDiffer)
    else if c.baseline.gates != c.candidate.gates then Some(GatesDiffer)
    else if c.baseline.evidence.durationMs < 0 || c.candidate.evidence.durationMs < 0 then Some(EndsBeforeStart)
    else None
  }

  /** Each fault names the first thing that is wrong with the case, in the order of the checks. */
  lemma FaultNamesTheFirstProblem(
    c: CaseInput, seenIds: set<string>, seenPaths: set<string>, skill: string, sameModel: bool)
    ensures var fault := FirstFault(c, seenIds, seenPaths, skill, sameModel);
            var reused := c.baseline.path in seenPaths;
            var also := c.candidate.path in seenPaths || c.candidate.path == c.baseline.path;
            var skilled := skill in c.baseline.skills && skill in c.candidate.skills;
            && (fault == Some(DuplicateId) <==> c.id in seenIds)
            && (fault == Some(ReusedSummary) <==> c.id !in seenIds && (reused || (skill in c.baseline.skills && also)))
            && (fault == Some(MissingSkill) <==>
                  c.id !in seenIds && !reused && (skill in c.baseline.skills ==> !also && skill !in c.candidate.skills))
            && (fault in {Some(GoalsDiffer), Some(ModelsDiffer), Some(GatesDiffer), Some(EndsBeforeStart), None} ==>
                  c.id !in seenIds && !reused && !also && skilled)
            && (fault == Some(GoalsDiffer) ==> c.baseline.goal != c.candidate.goal)
            && (fault == Some(ModelsDiffer) ==>
                  c.baseline.goal == c.candidate.goal && sameModel && c.baseline.model != c.candidate.model)
            && (fault == Some(GatesDiffer) ==>
                  c.baseline.goal == c.candidate.goal && (sameModel ==> c.baseline.model == c.candidate.model)
                  && c.baseline.gates != c.candidate.gates)
            && (fault == Some(EndsBeforeStart) ==>
                  c.baseline.gates == c.candidate.gates
                  && (c.baseline.evidence.durationMs < 0 || c.candidate.evidence.durationMs < 0))
            && fault != Some(NoCases)
            && (fault == None ==> Matched(c, skill, sameModel))
  {
  }

  function SeenIds(inputs: seq<CaseInput>): set<string> { set id | id in IdsOf(inputs) }

  function SeenPaths(inputs: seq<CaseInput>): set<string> { set p | p in PathsOf(inputs) }

  /** What the loop adds for one more case. */
  lemma OneMoreLoaded(before: seq<CaseInput>, c: CaseInput)
    ensures CasesOf(before + [c]) == CasesOf(before) + [Case(c.id, c.baseline.evidence, c.candidate.evidence)]
    ensures SeenIds(before + [c]) == SeenIds(before) + {c.id}
    ensures SeenPaths(before + [c]) == SeenPaths(before) + {c.baseline.path} + {c.candidate.path}
  {
    assert (before + [c])[..|before|] == before;
    assert IdsOf(before + [c]) == IdsOf(before) + [c.id];
    assert PathsOf(before + [c]) == PathsOf(before) + [c.baseline.path, c.candidate.path];
  }

  /** It goes on exactly when the cases stay acceptable. */
  lemma OneMoreAccepted(inputs: seq<CaseInput>, i: nat, skill: string, sameModel: bool)
    requires i < |inputs| && Acceptable(inputs[..i], skill, sameModel)
    ensures FirstFault(inputs[i], SeenIds(inputs[..i]), SeenPaths(inputs[..i]), skill, sameModel).None?
       <==> Acceptable(inputs[..i] + [inputs[i]], skill, sameModel)
    ensures !Acceptable(inputs[..i] + [inputs[i]], skill, sameModel) ==> !Acceptable(inputs, skill, sameModel)
  {
    AcceptableSnoc(inputs[..i], inputs[i], skill, sameModel);
    hide Acceptable;
    if Acceptable(inputs, skill, sameModel) {
      AcceptablePrefix(inputs, i + 1, skill, sameModel);
      assert inputs[..i + 1] == inputs[..i] + [inputs[i]];
    }
  }

  /** The cases before number i are in order, and this is the first check that case i fails. */
  ghost predicate FailsAt(inputs: seq<CaseInput>, i: int, error: LoadError, skill: string, sameModel: bool) {
    && 0 <= i < |inputs| && Acceptable(inputs[..i], skill, sameModel)
    && FirstFault(inputs[i], SeenIds(inputs[..i]), SeenPaths(inputs[..i]), skill, sameModel) == Some(error)
  }

  /** The benchmark runs exactly on acceptable, non-empty case lists, and then decides on all of them. */
  method RunBenchmark(inputs: seq<CaseInput>, skill: string, sameModel: bool, config: Config)
    returns (r: Result<Report, LoadError>)
    ensures r.Ok? <==> inputs != [] && Acceptable(inputs, skill, sameModel)
    ensures r.Ok? ==> r.value == Decide(CasesOf(inputs), config)
    ensures r.Err? ==> if inputs == [] then r.error == NoCases else exists i :: FailsAt(inputs, i, r.error, skill, sameModel)
  {
    assert Acceptable([], skill, sameModel) && SeenIds([]) == {} && SeenPaths([]) == {} && CasesOf([]) == [];
    hide Decide, Acceptable, CasesOf, SeenIds, SeenPaths, FirstFault;
    var seenCaseIds: set<string> := {};
    var seenSummaryPaths: set<string> := {};
    var cases: seq<Case> := [];
    assert inputs[..0] == [];
    for i := 0 to |inputs|
      invariant Acceptable(inputs[..i], skill, sameModel)
      invariant seenCaseIds == SeenIds(inputs[..i]) && seenSummaryPaths == SeenPaths(inputs[..i])
      invariant cases == CasesOf(inputs[..i])
    {
      var c := inputs[i];
      OneMoreLoaded(inputs[..i], c);
      OneMoreAccepted(inputs, i, skill, sameModel);
      assert inputs[..i + 1] == inputs[..i] + [c];
      var fault := FirstFault(c, seenCaseIds, seenSummaryPaths, skill, sameModel);
      if fault.Some? {
        assert FailsAt(inputs, i, fault.value, skill, sameModel);
        return Err(fault.value);
      }
      seenCaseIds := seenCaseIds + {c.id};
      seenSummaryPaths := seenSummaryPaths + {c.baseline.path} + {c.candidate.path};
      cases := cases + [Case(c.id, c.baseline.evidence, c.candidate.evidence)];
    }
    assert inputs[..|inputs|] == inputs;
    if cases == [] { return Err(NoCases); }
    return Ok(Decide(cases, config));
  }

  // ---------- what the decision means ----------

  /** Wins minus losses is candidate passes minus baseline passes, and every case has one outcome. */
  lemma {:induction false} OutcomesAreConserved(cases: seq<Case>)
    ensures Count(cases, Win) - Count(cases, Loss) == Passes(Candidates(cases)) - Passes(Baselines(cases))
    ensures Count(cases, Win) + Count(cases, Loss) + Count(cases, PassTie) + Count(cases, FailTie) == |cases|
    ensures Count(cases, Win) + Count(cases, PassTie) == Passes(Candidates(cases)) <= |cases|
    ensures Count(cases, Loss) + Count(cases, PassTie) == Passes(Baselines(cases)) <= |cases|
  {
    if cases != [] { OutcomesAreConserved(cases[1..]); }
  }

  lemma {:induction false} SwapExchangesOutcomes(cases: seq<Case>)
    ensures Count(Swap(cases), Win) == Count(cases, Loss) && Count(Swap(cases), Loss) == Count(cases, Win)
  {
    if cases != [] { SwapExchangesOutcomes(cases[1..]); }
  }

  /** What is promoted over its baseline is rejected when the two are exchanged, under the same gates. */
  lemma {:induction false} PromotionIsAsymmetric(cases: seq<Case>, config: Config)
    requires cases != [] && Decide(cases, config).decision == Promote
    ensures Decide(Swap(cases), config).decision == Rejected
  {
    SwapExchangesOutcomes(cases);
    assert GatesOf(cases, config).pairedDirection.ok;
    var wins, losses := Count(cases, Win), Count(cases, Loss);
    assert (wins - losses) as real >= 1.0;
    assert !GatesOf(Swap(cases), config).pairedDirection.ok;
  }

  /** Under a significance threshold below one half, passing that gate already means two more wins than
  losses at least; under one of at most 0.05, it takes five discordant pairs as well. */
  lemma {:induction false} SignificanceImpliesDirection(cases: seq<Case>, config: Config)
    requires cases != [] && GatesOf(cases, config).significance.ok
    ensures config.maxOneSidedPValue < 0.5 ==>
              Count(cases, Win) >= Count(cases, Loss) + 2 && GatesOf(cases, config).pairedDirection.ok
    ensures config.maxOneSidedPValue <= 0.05 ==> Count(cases, Win) + Count(cases, Loss) >= 5
  {
    var wins, losses := Count(cases, Win), Count(cases, Loss);
    if config.maxOneSidedPValue < 0.5 {
      if wins <= losses + 1 { SignTest.NoLeadNoSignificance(wins, losses); }
      assert (wins - losses) as real >= 1.0;
    }
    if config.maxOneSidedPValue <= 0.05 && wins + losses < 5 {
      SignTest.FewerThanFiveAreNotEnough(wins, losses);
    }
  }

  // ---------- the sign of the pass-rate delta ----------

  const SCALE_CASES: nat := 1_000_000_000_000

  ghost predicate SignIsKept(runs: nat)
    requires runs > 0
  {
    forall b: nat, c: nat {:trigger PassRateDelta(b, c, runs)} | b <= runs && c <= runs ::
      && (PassRateDelta(b, c, runs) > 0.0 <==> b < c)
      && (PassRateDelta(b, c, runs) < 0.0 <==> c < b)
  }

  lemma RatesAreApart(b: nat, c: nat, runs: nat)
    requires 0 < runs <= SCALE_CASES && b < c
    ensures PassRate(c, runs) - PassRate(b, runs) >= 1.0 / SCALE
  {
    var n := runs as real;
    assert c as real / n - b as real / n == (c - b) as real / n;
    assert (c - b) as real / n >= 1.0 / n by { OverOrder(1.0, (c - b) as real, n); }
    assert 1.0 / n >= 1.0 / SCALE by { UnderOrder(n, SCALE); }
    RoundSeparates(b as real / n, c as real / n);
  }

  lemma OverOrder(a: real, b: real, n: real)
    requires a <= b && n > 0.0
    ensures a / n <= b / n
  {
    assert b / n - a / n == (b - a) / n;
    assert (b - a) / n >= 0.0;
  }

  lemma UnderOrder(n: real, m: real)
    requires 0.0 < n <= m
    ensures 1.0 / n >= 1.0 / m
  {
    OverOrder(n, m, m);
    OverOrder(n / m, 1.0, n);
    assert (n / m) / n == 1.0 / m;
  }

  lemma DeltaHasTheSign(b: nat, c: nat, runs: nat)
    requires 0 < runs <= SCALE_CASES
    ensures b < c ==> PassRateDelta(b, c, runs) > 0.0
    ensures c < b ==> PassRateDelta(b, c, runs) < 0.0
    ensures b == c ==> PassRateDelta(b, c, runs) == 0.0
  {
    var delta := PassRate(c, runs) - PassRate(b, runs);
    RoundKeepsMultiples(1);
    RoundKeepsMultiples(0);
    RoundKeepsMultiples(-1);
    if b < c {
      RatesAreApart(b, c, runs);
      RoundIsMonotone(1.0 / SCALE, delta);
    } else if c < b {
      RatesAreApart(c, b, runs);
      RoundIsMonotone(delta, -1.0 / SCALE);
    }
  }

  /** The rate of k passes, in units of 1e-12. */
  function Units(k: nat, runs: nat): int
    requires runs > 0
  {
    ((k as real / runs as real) * SCALE + 0.5).Floor
  }

  /** With more cases than there are rates, two neighbouring pass counts share a rate. */
  lemma {:induction false} RatesCollide(runs: nat) returns (k: nat)
    requires runs > SCALE_CASES
    ensures k < runs && PassRate(k, runs) == PassRate(k + 1, runs)
  {
    k := 0;
    assert 0 as real / runs as real == 0.0;
    while k < runs && Units(k, runs) != Units(k + 1, runs)
      invariant k <= runs && Units(k, runs) >= k
    {
      OverOrder(k as real, (k + 1) as real, runs as real);
      FloorIsMonotone((k as real / runs as real) * SCALE + 0.5, ((k + 1) as real / runs as real) * SCALE + 0.5);
      k := k + 1;
    }
    assert runs as real / runs as real == 1.0;
    assert Units(runs, runs) == SCALE_CASES;
  }

  /** The twice-rounded delta has the sign of the difference in passes for every pair of pass counts
  if and only if there are at most 10^12 cases. */
  lemma SignIsKeptIffCasesFit(runs: nat)
    requires runs > 0
    ensures SignIsKept(runs) <==> runs <= SCALE_CASES
  {
    if runs <= SCALE_CASES {
      forall b: nat, c: nat | b <= runs && c <= runs
        ensures (PassRateDelta(b, c, runs) > 0.0 <==> b < c) && (PassRateDelta(b, c, runs) < 0.0 <==> c < b)
      {
        DeltaHasTheSign(b, c, runs);
      }
    } else {
      var k := RatesCollide(runs);
      RoundKeepsMultiples(0);
      assert PassRateDelta(k, k + 1, runs) == 0.0;
    }
  }

  /** For up to 10^12 cases, the pass-rate gate with a threshold of zero is passed exactly when there
  are at least as many wins as losses, and a positive threshold demands more. */
  lemma {:induction false} PassRateGateNeedsWins(cases: seq<Case>, config: Config)
    requires 0 < |cases| <= SCALE_CASES
    ensures config.minPassRateDelta == 0.0 ==>
              (GatesOf(cases, config).passRateImprovement.ok <==> Count(cases, Win) >= Count(cases, Loss))
    ensures config.minPassRateDelta > 0.0 && GatesOf(cases, config).passRateImprovement.ok ==>
              Count(cases, Win) > Count(cases, Loss)
  {
    OutcomesAreConserved(cases);
    DeltaHasTheSign(Passes(Baselines(cases)), Passes(Candidates(cases)), |cases|);
  }
}
