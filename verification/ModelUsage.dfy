/** Adding up the model usage that a run's log records. */
module ModelUsage {
  import opened Wrappers
  import opened Events
  import opened Metric

  datatype Totals = Totals(
    requests: nat, prompt: Option<real>, completion: Option<real>, total: Option<real>, cost: Option<real>)

  const NOTHING := Totals(0, None, None, None, None)

  function OrZero(x: Option<real>): real {
    match x
    case Some(v) => v
    case None => 0.0
  }

  function AddOptionalNumber(total: Option<real>, value: Option<real>): Option<real> {
    match value
    case None => total
    case Some(v) => Some(OrZero(total) + v)
  }

  predicate CostAccepted(value: Option<real>) { value.Some? && value.value >= 0.0 }

  function AddOptionalCost(total: Option<real>, value: Option<real>): Option<real> {
    if CostAccepted(value) then Some(RoundMetric(OrZero(total) + value.value)) else total
  }

  function AddUsage(t: Totals, u: Usage): Totals {
    Totals(t.requests + 1,
           AddOptionalNumber(t.prompt, u.promptTokens),
           AddOptionalNumber(t.completion, u.completionTokens),
           AddOptionalNumber(t.total, u.totalTokens),
           AddOptionalCost(t.cost, u.costUsd))
  }

  function UsageOf(log: Log): Totals {
    if log == [] then NOTHING
    else
      var before := UsageOf(log[..|log| - 1]);
      match log[|log| - 1]
      case ModelUsage(u) => AddUsage(before, u)
      case _ => before
  }

  /** None when the log records no model request at all. */
  method SummarizeModelUsage(log: Log) returns (usage: Option<Totals>)
    ensures usage == if UsageOf(log).requests == 0 then None else Some(UsageOf(log))
  {
    var requests: nat, prompt, completion, total, cost := 0, None, None, None, None;
    for i := 0 to |log|
      invariant UsageOf(log[..i]) == Totals(requests, prompt, completion, total, cost)
    {
      assert log[..i + 1][..i] == log[..i];
      match log[i] {
        case ModelUsage(u) =>
          requests := requests + 1;
          prompt := AddOptionalNumber(prompt, u.promptTokens);
          completion := AddOptionalNumber(completion, u.completionTokens);
          total := AddOptionalNumber(total, u.totalTokens);
          cost := AddOptionalCost(cost, u.costUsd);
        case _ =>
      }
    }
    assert log[..|log|] == log;
    usage := if requests == 0 then None else Some(Totals(requests, prompt, completion, total, cost));
  }

  function Plus(a: Option<real>, b: Option<real>): Option<real> {
    if a.None? then b else AddOptionalNumber(a, b)
  }

  /** Requests and tokens of a log in two parts are those of the parts, added: the aggregation is a
  homomorphism, and entries of other kinds do not matter. */
  lemma {:induction false} UsageOfConcat(a: Log, b: Log)
    ensures var ab := UsageOf(a + b);
            && ab.requests == UsageOf(a).requests + UsageOf(b).requests
            && ab.prompt == Plus(UsageOf(a).prompt, UsageOf(b).prompt)
            && ab.completion == Plus(UsageOf(a).completion, UsageOf(b).completion)
            && ab.total == Plus(UsageOf(a).total, UsageOf(b).total)
  {
    if b == [] {
      assert a + b == a;
    } else {
      UsageOfConcat(a, b[..|b| - 1]);
      assert (a + b)[..|a + b| - 1] == a + b[..|b| - 1];
    }
  }

  function OnlyUsage(log: Log): Log {
    if log == [] then []
    else
      var before, e := OnlyUsage(log[..|log| - 1]), log[|log| - 1];
      if e.ModelUsage? then before + [e] else before
  }

  lemma {:induction false} OtherEntriesDoNotCount(log: Log)
    ensures UsageOf(OnlyUsage(log)) == UsageOf(log)
  {
    if log != [] {
      var init, e := log[..|log| - 1], log[|log| - 1];
      OtherEntriesDoNotCount(init);
      var only := OnlyUsage(log);
      if e.ModelUsage? { assert only[..|only| - 1] == OnlyUsage(init) && only[|only| - 1] == e; }
    }
  }

  type Measure = Usage -> Option<real>

  const PROMPT: Measure := (u: Usage) => u.promptTokens
  const COMPLETION: Measure := (u: Usage) => u.completionTokens
  const TOTAL: Measure := (u: Usage) => u.totalTokens

  /** What the model requests of a log report of one kind, in order. */
  function Reported(log: Log, measure: Measure): seq<real> {
    if log == [] then []
    else
      var before, e := Reported(log[..|log| - 1], measure), log[|log| - 1];
      if e.ModelUsage? && measure(e.usage).Some? then before + [measure(e.usage).value] else before
  }

  function SumIfAny(xs: seq<real>): Option<real> { if xs == [] then None else Some(Sum(xs)) }

  /** Requests are counted, and prompt, completion and total tokens are each the sum of what was reported of
  that kind, or absent if nothing was. */
  lemma {:induction false} TotalsAreSums(log: Log)
    ensures UsageOf(log).requests == |OnlyUsage(log)|
    ensures UsageOf(log).prompt == SumIfAny(Reported(log, PROMPT))
    ensures UsageOf(log).completion == SumIfAny(Reported(log, COMPLETION))
    ensures UsageOf(log).total == SumIfAny(Reported(log, TOTAL))
  {
    if log != [] {
      var init, e := log[..|log| - 1], log[|log| - 1];
      TotalsAreSums(init);
      if e.ModelUsage? {
        SumOneMore(Reported(init, PROMPT), PROMPT, e.usage);
        SumOneMore(Reported(init, COMPLETION), COMPLETION, e.usage);
        SumOneMore(Reported(init, TOTAL), TOTAL, e.usage);
      }
    }
  }

  lemma SumOneMore(xs: seq<real>, measure: Measure, u: Usage)
    ensures SumIfAny(if measure(u).Some? then xs + [measure(u).value] else xs) == AddOptionalNumber(SumIfAny(xs), measure(u))
  {
    if measure(u).Some? { SumOfSnoc(xs, measure(u).value); }
  }

  predicate Costed(e: Entry) { e.ModelUsage? && CostAccepted(e.usage.costUsd) }

  /** The costs that count, in order: finite and not negative. */
  function Costs(log: Log): seq<real> {
    if log == [] then []
    else
      var before, e := Costs(log[..|log| - 1]), log[|log| - 1];
      if Costed(e) then before + [e.usage.costUsd.value] else before
  }

  const COST: Measure := (u: Usage) => u.costUsd

  function NonNegative(xs: seq<real>): seq<real> {
    if xs == [] then []
    else
      var before, x := NonNegative(xs[..|xs| - 1]), xs[|xs| - 1];
      if x >= 0.0 then before + [x] else before
  }

  /** The costs that count are exactly those reported that are not negative. */
  lemma {:induction false} NegativeCostsDoNotCount(log: Log)
    ensures Costs(log) == NonNegative(Reported(log, COST))
  {
    if log != [] {
      var init, e := log[..|log| - 1], log[|log| - 1];
      NegativeCostsDoNotCount(init);
      if e.ModelUsage? && e.usage.costUsd.Some? {
        var xs, x := Reported(init, COST), e.usage.costUsd.value;
        assert (xs + [x])[..|xs|] == xs;
      }
    }
  }

  function Sum(xs: seq<real>): real {
    if xs == [] then 0.0 else Sum(xs[..|xs| - 1]) + xs[|xs| - 1]
  }

  lemma SumOfSnoc(xs: seq<real>, x: real)
    ensures Sum(xs + [x]) == Sum(xs) + x
  {
    assert (xs + [x])[..|xs|] == xs;
  }

  /** Rounding at every step costs at most half a unit of 1e-12 per accepted cost. */
  lemma {:induction false} CostIsNearTheExactSum(log: Log)
    ensures UsageOf(log).cost.None? <==> Costs(log) == []
    ensures var n, error := |Costs(log)| as real, OrZero(UsageOf(log).cost) - Sum(Costs(log));
            -(n * 0.5 / SCALE) <= error <= n * 0.5 / SCALE
  {
    if log != [] {
      var init, e := log[..|log| - 1], log[|log| - 1];
      CostIsNearTheExactSum(init);
      if Costed(e) {
        var x := e.usage.costUsd.value;
        SumOfSnoc(Costs(init), x);
        assert |Costs(log)| as real == |Costs(init)| as real + 1.0;
        RoundIsNear(OrZero(UsageOf(init).cost) + x);
      }
    }
  }

  ghost predicate WholeUnits(xs: seq<real>) {
    forall i :: 0 <= i < |xs| ==> exists k: int {:trigger k as real} :: xs[i] == k as real / SCALE
  }

  /** Costs that are whole multiples of 1e-12 are added exactly. */
  lemma {:induction false} WholeUnitsAddExactly(log: Log) returns (units: int)
    requires WholeUnits(Costs(log))
    ensures OrZero(UsageOf(log).cost) == Sum(Costs(log)) == units as real / SCALE
  {
    units := 0;
    if log != [] {
      var init, e := log[..|log| - 1], log[|log| - 1];
      if Costed(e) {
        var x := e.usage.costUsd.value;
        assert Costs(log)[|Costs(init)|] == x;
        assert WholeUnits(Costs(init)) by {
          forall i | 0 <= i < |Costs(init)| ensures exists k: int {:trigger k as real} :: Costs(init)[i] == k as real / SCALE {
            assert Costs(init)[i] == Costs(log)[i];
          }
        }
        var before := WholeUnitsAddExactly(init);
        var k: int :| x == k as real / SCALE;
        units := before + k;
        SumOfSnoc(Costs(init), x);
        assert before as real / SCALE + k as real / SCALE == units as real / SCALE;
        RoundKeepsMultiples(units);
      } else {
        units := WholeUnitsAddExactly(init);
      }
    }
  }
}
