/** Metrics and costs are rounded to 1e-12, halves upwards. */
module Metric {
  const SCALE: real := 1_000_000_000_000.0

  function RoundMetric(x: real): real {
    (x * 1_000_000_000_000.0 + 0.5).Floor as real / 1_000_000_000_000.0
  }

  lemma FloorIsMonotone(a: real, b: real)
    requires a <= b
    ensures a.Floor <= b.Floor
  {
    assert a.Floor as real <= a && b < b.Floor as real + 1.0;
  }

  lemma RoundIsNear(x: real)
    ensures x - 0.5 / SCALE < RoundMetric(x) <= x + 0.5 / SCALE
  {
    var f := (x * SCALE + 0.5).Floor as real;
    assert f <= x * SCALE + 0.5 < f + 1.0;
  }

  lemma RoundIsMonotone(x: real, y: real)
    requires x <= y
    ensures RoundMetric(x) <= RoundMetric(y)
  {
    FloorIsMonotone(x * SCALE + 0.5, y * SCALE + 0.5);
    var f, g := (x * SCALE + 0.5).Floor, (y * SCALE + 0.5).Floor;
    assert f as real <= g as real;
    assert f as real / SCALE <= g as real / SCALE;
  }

  /** Values at least 1e-12 apart stay apart. */
  lemma RoundSeparates(x: real, y: real)
    requires y - x >= 1.0 / SCALE
    ensures RoundMetric(y) - RoundMetric(x) >= 1.0 / SCALE
  {
    assert (y - x) * SCALE >= 1.0;
    var f, g := (x * SCALE + 0.5).Floor, (y * SCALE + 0.5).Floor;
    FloorIsMonotone((x * SCALE + 0.5) + 1.0, y * SCALE + 0.5);
    assert ((x * SCALE + 0.5) + 1.0).Floor == f + 1;
    assert g as real >= f as real + 1.0;
    assert g as real / SCALE >= (f as real + 1.0) / SCALE;
  }

  lemma RoundKeepsMultiples(k: int)
    ensures RoundMetric(k as real / SCALE) == k as real / SCALE
  {
    assert (k as real / SCALE) * SCALE == k as real;
    assert (k as real + 0.5).Floor == k;
  }

  lemma FloorIs(y: real, k: int)
    ensures (y + 0.5).Floor == k <==> k as real - 0.5 <= y < k as real + 0.5
  {
    var f := (y + 0.5).Floor;
    assert f as real <= y + 0.5 < f as real + 1.0;
  }

  lemma SameUnits(f: int, k: int)
    ensures f as real / SCALE == k as real / SCALE <==> f == k
  {
    assert (f as real / SCALE) * SCALE == f as real;
    assert (k as real / SCALE) * SCALE == k as real;
  }

  /** The one multiple of 1e-12 that is nearest, halves going up. */
  lemma RoundsToTheNearest(x: real, k: int)
    ensures RoundMetric(x) == k as real / SCALE <==> k as real - 0.5 <= x * SCALE < k as real + 0.5
  {
    var y := x * SCALE;
    var f := (y + 0.5).Floor;
    assert RoundMetric(x) == f as real / SCALE;
    SameUnits(f, k);
    FloorIs(y, k);
    hide RoundMetric;
  }

  lemma RoundIsAMultiple(x: real) returns (k: int)
    ensures RoundMetric(x) == k as real / SCALE
  {
    k := (x * SCALE + 0.5).Floor;
  }

  /** A value that is rounded does not exceed t. */
  predicate RoundsToAtMost(x: real, t: real) {
    x * SCALE < (t * SCALE).Floor as real + 0.5
  }

  lemma RoundsToAtMostIff(x: real, t: real)
    ensures RoundMetric(x) <= t <==> RoundsToAtMost(x, t)
  {
    var f, g := (x * SCALE + 0.5).Floor, (t * SCALE).Floor;
    assert f as real <= x * SCALE + 0.5 < f as real + 1.0 && g as real <= t * SCALE < g as real + 1.0;
    assert RoundMetric(x) == f as real / SCALE;
    assert f as real / SCALE <= t <==> f as real <= t * SCALE;
    assert f as real <= t * SCALE <==> f <= g;
  }
}
