/** What the benchmark decides, in terms of its cases: passes, wins, losses, the tail of the sign test and
what the two variants cost in total. */
module BenchmarkDecision {
  import opened Wrappers
  import opened Metric
  import opened Benchmark
  import SignTest

  type Measure = Evidence -> Option<real>

  const COST: Measure := (e: Evidence) => e.costUsd
  const TOKENS: Measure := (e: Evidence) => e.totalTokens
  const DURATION: Measure := (e: Evidence) => Some(e.durationMs as real)

  // ---------- efficiency ----------

  predicate BothReport(c: Case, measure: Measure) { measure(c.baseline).Some? && measure(c.candidate).Some? }

  /** What the baselines measured, in the cases in which both variants report it. */
  function BaselineValues(cases: seq<Case>, measure: Measure): seq<real> {
    if cases == [] then []
    else (if BothReport(cases[0], measure) then [measure(cases[0].baseline).value] else []) + BaselineValues(cases[1..], measure)
  }

  function CandidateValues(cases: seq<Case>, measure: Measure): (values: seq<real>)
    ensures |values| == |BaselineValues(cases, measure)|
  {
    if cases == [] then []
    else (if BothReport(cases[0], measure) then [measure(cases[0].candidate).value] else []) + CandidateValues(cases[1..], measure)
  }

  function Total(values: seq<real>): real { if values == [] then 0.0 else values[0] + Total(values[1..]) }

  function Mean(values: seq<real>): real
    requires values != []
  {
    RoundMetric(Total(values) / |values| as real)
  }

  /** Enough cases measure it, and the candidates' mean exceeds the baselines' by at most the threshold. */
  predicate Within(cases: seq<Case>, measure: Measure, threshold: real) {
    var b, c := BaselineValues(cases, measure), CandidateValues(cases, measure);
    && b != []
    && if Mean(b) == 0.0 then Mean(c) == 0.0 && 0.0 <= threshold
       else RoundsToAtMost(Mean(c) / Mean(b) - 1.0, threshold)
  }

  predicate Enough(cases: seq<Case>, measure: Measure, minPairs: int) {
    |BaselineValues(cases, measure)| >= minPairs
  }

  /** Not measured often enough and not required, or within the threshold. */
  predicate Affordable(cases: seq<Case>, measure: Measure, threshold: real, required: bool, minPairs: int) {
    if Enough(cases, measure, minPairs) then Within(cases, measure, threshold) else !required
  }

  /** Measured often enough, and beyond the threshold. */
  predicate Regressed(cases: seq<Case>, measure: Measure, threshold: real, minPairs: int) {
    Enough(cases, measure, minPairs) && !Within(cases, measure, threshold)
  }

  lemma {:induction false} PairsAreValues(cases: seq<Case>, field: Field, measure: Measure)
    requires forall e :: measure(e) == FieldOf(e, field)
    ensures |Pairs(cases, field)| == |BaselineValues(cases, measure)|
    ensures SumFirst(Pairs(cases, field)) == Total(BaselineValues(cases, measure))
    ensures SumSecond(Pairs(cases, field)) == Total(CandidateValues(cases, measure))
  {
    if cases != [] {
      PairsAreValues(cases[1..], field, measure);
      var rest := Pairs(cases[1..], field);
      if BothReport(cases[0], measure) {
        var pair := (measure(cases[0].baseline).value, measure(cases[0].candidate).value);
        assert Pairs(cases, field) == [pair] + rest && ([pair] + rest)[1..] == rest;
        assert BaselineValues(cases, measure)[1..] == BaselineValues(cases[1..], measure);
        assert CandidateValues(cases, measure)[1..] == CandidateValues(cases[1..], measure);
      } else {
        assert Pairs(cases, field) == rest;
        assert BaselineValues(cases, measure) == BaselineValues(cases[1..], measure);
        assert CandidateValues(cases, measure) == CandidateValues(cases[1..], measure);
      }
    }
  }

  lemma EfficiencyGateIff(
    cases: seq<Case>, field: Field, measure: Measure, threshold: real, required: bool, minPairs: int)
    requires forall e :: measure(e) == FieldOf(e, field)
    ensures var gate := EfficiencyGate(CompareMetric(cases, field), threshold, required, minPairs);
            && (gate.ok <==> Affordable(cases, measure, threshold, required, minPairs))
            && (Regresses(gate) <==> Regressed(cases, measure, threshold, minPairs))
  {
    PairsAreValues(cases, field, measure);
    var b, c := BaselineValues(cases, measure), CandidateValues(cases, measure);
    if b != [] && Mean(b) != 0.0 { RoundsToAtMostIff(Mean(c) / Mean(b) - 1.0, threshold); }
  }

  // ---------- the decision ----------

  /** The passes of each variant, as rates, differ by this much. */
  function RateDifference(cases: seq<Case>): real
    requires cases != []
  {
    PassRate(Passes(Candidates(cases)), |cases|) - PassRate(Passes(Baselines(cases)), |cases|)
  }

  /** The second rounding changes nothing. */
  lemma DeltaIsTheDifference(b: nat, c: nat, runs: nat)
    requires runs > 0
    ensures PassRateDelta(b, c, runs) == PassRate(c, runs) - PassRate(b, runs)
  {
    var f := RoundIsAMultiple(c as real / runs as real);
    var g := RoundIsAMultiple(b as real / runs as real);
    assert f as real / SCALE - g as real / SCALE == (f - g) as real / SCALE;
    RoundKeepsMultiples(f - g);
  }

  /** The chance of so many wins or more, when wins and losses are equally likely, is at most t. */
  predicate Unlikely(wins: nat, losses: nat, t: real) {
    RoundsToAtMost(SignTest.Tail(wins, wins + losses) as real / SignTest.Pow2(wins + losses) as real, t)
  }

  predicate AllAffordable(cases: seq<Case>, config: Config) {
    && Affordable(cases, COST, config.maxCostIncreaseRatio, config.requireCost, config.minEfficiencyPairs)
    && Affordable(cases, TOKENS, config.maxTokenIncreaseRatio, config.requireTokens, config.minEfficiencyPairs)
    && Affordable(cases, DURATION, config.maxDurationIncreaseRatio, config.requireDuration, config.minEfficiencyPairs)
  }

  predicate SomeRegressed(cases: seq<Case>, config: Config) {
    || Regressed(cases, COST, config.maxCostIncreaseRatio, config.minEfficiencyPairs)
    || Regressed(cases, TOKENS, config.maxTokenIncreaseRatio, config.minEfficiencyPairs)
    || Regressed(cases, DURATION, config.maxDurationIncreaseRatio, config.minEfficiencyPairs)
  }

  predicate Promotable(cases: seq<Case>, config: Config)
    requires cases != []
  {
    && |cases| >= config.minCases
    && RateDifference(cases) >= config.minPassRateDelta
    && Count(cases, Win) > Count(cases, Loss)
    && Unlikely(Count(cases, Win), Count(cases, Loss), config.maxOneSidedPValue)
    && AllAffordable(cases, config)
  }

  lemma EfficiencyGatesIff(cases: seq<Case>, config: Config)
    requires cases != []
    ensures var g := GatesOf(cases, config);
            && (AllAffordable(cases, config) <==>
                  g.costRegression.ok && g.tokenRegression.ok && g.durationRegression.ok)
            && (SomeRegressed(cases, config) <==>
                  Regresses(g.costRegression) || Regresses(g.tokenRegression) || Regresses(g.durationRegression))
  {
    hide EfficiencyGate, CompareMetric, Affordable, Regressed, Regresses, PassRateDelta, SignTest.Significance;
    EfficiencyGateIff(cases, Cost, COST, config.maxCostIncreaseRatio, config.requireCost, config.minEfficiencyPairs);
    EfficiencyGateIff(cases, Tokens, TOKENS, config.maxTokenIncreaseRatio, config.requireTokens, config.minEfficiencyPairs);
    EfficiencyGateIff(cases, Duration, DURATION, config.maxDurationIncreaseRatio, config.requireDuration, config.minEfficiencyPairs);
  }

  lemma SignificanceGateIff(wins: nat, losses: nat, t: real)
    ensures MaximumGate(SignTest.Significance(wins, losses), t).ok <==> Unlikely(wins, losses, t)
  {
    SignTest.PValueIsATail(wins, wins + losses);
    RoundsToAtMostIff(SignTest.PValue(wins, wins + losses), t);
    hide RoundMetric, RoundsToAtMost, SignTest.PValue, SignTest.Tail, SignTest.Pow2;
  }

  lemma OtherGatesIff(cases: seq<Case>, config: Config)
    requires cases != []
    ensures var g, wins, losses := GatesOf(cases, config), Count(cases, Win), Count(cases, Loss);
            && (g.sampleSize.ok <==> |cases| >= config.minCases)
            && (g.passRateImprovement.ok <==> RateDifference(cases) >= config.minPassRateDelta)
            && (g.pairedDirection.ok <==> wins > losses)
            && (g.significance.ok <==> Unlikely(wins, losses, config.maxOneSidedPValue))
  {
    hide EfficiencyGate, CompareMetric, PassRateDelta, PassRate, Unlikely, SignTest.Significance, Count, Passes;
    var wins, losses := Count(cases, Win), Count(cases, Loss);
    DeltaIsTheDifference(Passes(Baselines(cases)), Passes(Candidates(cases)), |cases|);
    SignificanceGateIff(wins, losses, config.maxOneSidedPValue);
    var lead: int := wins as int - losses as int;
    assert lead as real >= 1.0 <==> wins > losses;
  }

  /** The candidate is promoted if and only if there are enough cases, its pass rate is better by enough, it
  wins more cases than it loses, that is unlikely enough by chance, and neither cost nor tokens nor
  duration has grown beyond its threshold, or is missing where it is required.  Otherwise it is
  rejected if and only if its pass rate is lower, it loses more than it wins, or one of the three has
  grown too much; and held back if not. */
  lemma {:induction false} DecisionIff(cases: seq<Case>, config: Config)
    requires cases != []
    ensures var report, wins, losses := Decide(cases, config), Count(cases, Win), Count(cases, Loss);
            && report.wins == wins && report.losses == losses && report.passRateDelta == RateDifference(cases)
            && (report.decision == Promote <==> Promotable(cases, config))
            && (report.decision == Rejected <==>
                  && !Promotable(cases, config)
                  && (RateDifference(cases) < 0.0 || wins < losses || SomeRegressed(cases, config)))
  {
    hide GatesOf, PassRateDelta, PassRate, Unlikely, AllAffordable, SomeRegressed, Regresses;
    EfficiencyGatesIff(cases, config);
    OtherGatesIff(cases, config);
    DeltaIsTheDifference(Passes(Baselines(cases)), Passes(Candidates(cases)), |cases|);
  }

  // ---------- growth in cost, tokens or duration ----------

  lemma QuotientAtLeast(b: real, c: real, factor: real)
    requires b > 0.0
    ensures c >= factor * b <==> c / b >= factor
    ensures c <= factor * b <==> c / b <= factor
  {
    assert (c / b) * b == c;
  }

  lemma GrowthBounds(b: real, c: real, threshold: real)
    requires b > 0.0
    ensures c >= (1.0 + threshold + 1.0 / SCALE) * b ==> !RoundsToAtMost(c / b - 1.0, threshold)
    ensures c <= (1.0 + threshold) * b && threshold * SCALE == (threshold * SCALE).Floor as real ==>
              RoundsToAtMost(c / b - 1.0, threshold)
  {
    QuotientAtLeast(b, c, 1.0 + threshold + 1.0 / SCALE);
    QuotientAtLeast(b, c, 1.0 + threshold);
    var growth := c / b - 1.0;
    if growth >= threshold + 1.0 / SCALE { assert growth * SCALE >= threshold * SCALE + 1.0; }
    if growth <= threshold { assert growth * SCALE <= threshold * SCALE; }
  }

  /** Growth beyond the threshold by 1e-12 or more is a regression; growth up to a threshold of so many
  units of 1e-12 is none. */
  lemma GrowthIsARegression(cases: seq<Case>, measure: Measure, threshold: real)
    requires BaselineValues(cases, measure) != [] && Mean(BaselineValues(cases, measure)) > 0.0
    ensures var b, c := Mean(BaselineValues(cases, measure)), Mean(CandidateValues(cases, measure));
            && (c >= (1.0 + threshold + 1.0 / SCALE) * b ==> !Within(cases, measure, threshold))
            && (c <= (1.0 + threshold) * b && threshold * SCALE == (threshold * SCALE).Floor as real ==>
                  Within(cases, measure, threshold))
  {
    hide Mean, BaselineValues, CandidateValues, RoundsToAtMost;
    GrowthBounds(Mean(BaselineValues(cases, measure)), Mean(CandidateValues(cases, measure)), threshold);
  }

  /** A candidate that grows like that in any of the three is rejected, whatever it wins. */
  lemma {:induction false} GrowthIsRejected(cases: seq<Case>, config: Config, measure: Measure, threshold: real)
    requires cases != [] && BaselineValues(cases, measure) != []
    requires || (measure == COST && threshold == config.maxCostIncreaseRatio)
             || (measure == TOKENS && threshold == config.maxTokenIncreaseRatio)
             || (measure == DURATION && threshold == config.maxDurationIncreaseRatio)
    requires Enough(cases, measure, config.minEfficiencyPairs)
    requires var b, c := Mean(BaselineValues(cases, measure)), Mean(CandidateValues(cases, measure));
             b > 0.0 && c >= (1.0 + threshold + 1.0 / SCALE) * b
    ensures Decide(cases, config).decision == Rejected
  {
    GrowthIsARegression(cases, measure, threshold);
    hide Within, Mean, BaselineValues, CandidateValues, Decide, Enough, COST, TOKENS, DURATION;
    assert Regressed(cases, measure, threshold, config.minEfficiencyPairs);
    DecisionIff(cases, config);
    hide Unlikely;
  }
}
