/** The exact one-sided sign test: the upper tail of a fair binomial, over exact arithmetic. */
module SignTest {
  import opened Metric

  function Pow2(n: nat): (p: nat)
    ensures p >= 1
  {
    if n == 0 then 1 else 2 * Pow2(n - 1)
  }

  function Factorial(n: nat): (f: nat)
    ensures f >= 1
  {
    if n == 0 then 1 else n * Factorial(n - 1)
  }

  /** Pascal's recursion. */
  function Choose(n: nat, k: nat): nat {
    if k == 0 then 1 else if n == 0 then 0 else Choose(n - 1, k - 1) + Choose(n - 1, k)
  }

  /** The number of outcomes of n fair trials with at least s successes. */
  function Tail(s: nat, n: nat): nat
    decreases n + 1 - s
  {
    if s > n then 0 else Choose(n, s) + Tail(s + 1, n)
  }

  function PValue(successes: int, trials: nat): real {
    if trials == 0 || successes <= 0 then 1.0 else Tail(successes, trials) as real / Pow2(trials) as real
  }

  // ---------- binomial coefficients ----------

  lemma {:induction false} ChooseBeyond(n: nat, k: nat)
    requires k > n
    ensures Choose(n, k) == 0
  {
    if n > 0 {
      ChooseBeyond(n - 1, k - 1);
      ChooseBeyond(n - 1, k);
    }
  }

  lemma {:induction false} ChooseAll(n: nat)
    ensures Choose(n, n) == 1
  {
    if n > 0 {
      ChooseAll(n - 1);
      ChooseBeyond(n - 1, n);
    }
  }

  lemma {:induction false} ChooseIsPositive(n: nat, k: nat)
    requires k <= n
    ensures Choose(n, k) >= 1
  {
    if 0 < k { ChooseIsPositive(n - 1, k - 1); }
  }

  lemma {:induction false} ChooseIsSymmetric(n: nat, k: nat)
    requires k <= n
    ensures Choose(n, k) == Choose(n, n - k)
  {
    if k == 0 || k == n {
      ChooseAll(n);
    } else {
      ChooseIsSymmetric(n - 1, k - 1);
      ChooseIsSymmetric(n - 1, k);
    }
  }

  /** The factorial quotient is exact: n! / (k! (n-k)!) leaves no remainder and is Pascal's number. */
  lemma {:induction false} FactorialQuotient(n: nat, k: nat)
    requires k <= n
    ensures Choose(n, k) * (Factorial(k) * Factorial(n - k)) == Factorial(n)
    ensures Factorial(n) / (Factorial(k) * Factorial(n - k)) == Choose(n, k)
  {
    var d := Factorial(k) * Factorial(n - k);
    if k == 0 || k == n {
      ChooseAll(n);
    } else {
      var a, b, f := Choose(n - 1, k - 1), Choose(n - 1, k), Factorial(n - 1);
      FactorialQuotient(n - 1, k - 1);
      FactorialQuotient(n - 1, k);
      PascalStep(a, b, f, Factorial(k - 1), Factorial(n - k - 1), k, n - k);
    }
    ExactQuotient(Factorial(n), d, Choose(n, k));
  }

  lemma PascalStep(a: nat, b: nat, f: nat, x: nat, y: nat, k: nat, m: nat)
    requires a * (x * (m * y)) == f && b * ((k * x) * y) == f
    ensures (a + b) * ((k * x) * (m * y)) == (k + m) * f
  {
    calc {
      (a + b) * ((k * x) * (m * y));
      a * ((k * x) * (m * y)) + b * ((k * x) * (m * y));
      { assert (k * x) * (m * y) == k * (x * (m * y)); assert (k * x) * (m * y) == m * ((k * x) * y); }
      a * (k * (x * (m * y))) + b * (m * ((k * x) * y));
      { assert a * (k * (x * (m * y))) == k * (a * (x * (m * y))); assert b * (m * ((k * x) * y)) == m * (b * ((k * x) * y)); }
      k * f + m * f;
      (k + m) * f;
    }
  }

  lemma ExactQuotient(n: nat, d: nat, q: nat)
    requires d > 0 && q * d == n
    ensures n / d == q
  {
    var r := n / d;
    assert (q - r) * d == n % d;
    if q - r >= 1 { AtLeastOnce(q - r, d); }
    assert (r - q) * d == -(n % d);
    if r - q >= 1 { AtLeastOnce(r - q, d); }
  }

  lemma AtLeastOnce(k: int, d: int)
    requires k >= 1 && d >= 0
    ensures k * d >= d
  {
    assert k * d == d + (k - 1) * d;
  }

  // ---------- tails ----------

  lemma {:induction false} TailPascal(s: nat, n: nat)
    ensures Tail(s + 1, n + 1) == Tail(s, n) + Tail(s + 1, n)
    decreases n + 1 - s
  {
    if s <= n {
      TailPascal(s + 1, n);
      assert Choose(n + 1, s + 1) == Choose(n, s) + Choose(n, s + 1);
      if s == n { ChooseBeyond(n, n + 1); }
    }
  }

  lemma {:induction false} WholeRow(n: nat)
    ensures Tail(0, n) == Pow2(n)
  {
    if n > 0 {
      WholeRow(n - 1);
      TailPascal(0, n - 1);
    }
  }

  /** The two tails that a split leaves make up the whole row. */
  lemma {:induction false} TailsAreComplementary(s: nat, n: nat)
    requires s <= n + 1
    ensures Tail(s, n) + Tail(n + 1 - s, n) == Pow2(n)
  {
    if s == 0 {
      WholeRow(n);
    } else {
      TailsAreComplementary(s - 1, n);
      ChooseIsSymmetric(n, s - 1);
      assert Tail(s - 1, n) == Choose(n, s - 1) + Tail(s, n);
      assert Tail(n + 1 - s, n) == Choose(n, n + 1 - s) + Tail(n + 2 - s, n);
    }
  }

  lemma {:induction false} TailShrinks(s: nat, t: nat, n: nat)
    requires s <= t
    ensures Tail(t, n) <= Tail(s, n)
    decreases t - s
  {
    if s < t { TailShrinks(s + 1, t, n); }
  }

  // ---------- the loop ----------

  method FactorialsUpTo(trials: nat) returns (factorials: seq<nat>)
    ensures |factorials| == trials + 1
    ensures forall i :: 0 <= i <= trials ==> factorials[i] == Factorial(i)
  {
    factorials := [1];
    for index := 1 to trials + 1
      invariant |factorials| == index
      invariant forall i :: 0 <= i < index ==> factorials[i] == Factorial(i)
    {
      var f := factorials[index - 1];
      assert f == Factorial(index - 1) && f * index == Factorial(index);
      factorials := factorials + [f * index];
    }
  }

  /** The numbers of outcomes with exactly `successes`, ..., `trials` successes. */
  method QuotientTerms(factorials: seq<nat>, successes: nat, trials: nat) returns (terms: seq<nat>)
    requires successes <= trials && |factorials| == trials + 1
    requires forall i :: 0 <= i <= trials ==> factorials[i] == Factorial(i)
    ensures |terms| == trials + 1 - successes
    ensures forall i :: 0 <= i < |terms| ==> terms[i] == Choose(trials, successes + i)
  {
    terms := [];
    for success := successes to trials + 1
      invariant |terms| == success - successes
      invariant forall i :: 0 <= i < |terms| ==> terms[i] == Choose(trials, successes + i)
    {
      FactorialQuotient(trials, success);
      var orders: nat := factorials[success] * factorials[trials - success];
      assert orders == Factorial(success) * Factorial(trials - success);
      assert factorials[trials] == Factorial(trials);
      assert orders > 0;
      terms := terms + [factorials[trials] / orders];
    }
  }

  method TotalOf(terms: seq<nat>, ghost successes: nat, ghost trials: nat) returns (total: nat)
    requires successes <= trials && |terms| == trials + 1 - successes
    requires forall i :: 0 <= i < |terms| ==> terms[i] == Choose(trials, successes + i)
    ensures total == Tail(successes, trials)
  {
    total := 0;
    for i := 0 to |terms|
      invariant total + Tail(successes + i, trials) == Tail(successes, trials)
    {
      total := total + terms[i];
    }
  }

  /** The loops, over exact quotients instead of differences of logarithms. */
  method ExactBinomialUpperTail(successes: int, trials: nat) returns (p: real)
    ensures p == PValue(successes, trials)
  {
    if trials == 0 || successes <= 0 { return 1.0; }
    if successes > trials {
      assert Tail(successes, trials) == 0;
      return 0.0;
    }
    var factorials := FactorialsUpTo(trials);
    var terms := QuotientTerms(factorials, successes, trials);
    var total := TotalOf(terms, successes, trials);
    p := total as real / Pow2(trials) as real;
    TailIsAtMostWhole(successes, trials);
    if p > 1.0 { p := 1.0; }
  }

  lemma TailIsAtMostWhole(s: nat, n: nat)
    ensures Tail(s, n) as real / Pow2(n) as real <= 1.0
  {
    WholeRow(n);
    TailShrinks(0, s, n);
    QuotientOrder(Tail(s, n), Pow2(n), 1, 1);
  }

  // ---------- how the test behaves ----------

  /** The reported p-value of a comparison with so many wins and losses. */
  function Significance(wins: nat, losses: nat): real {
    RoundMetric(PValue(wins, wins + losses))
  }

  lemma PValueIsATail(s: nat, n: nat)
    requires s <= n
    ensures PValue(s, n) == Tail(s, n) as real / Pow2(n) as real
  {
    if s == 0 { WholeRow(n); }
  }

  /** What is reported is the tail of the row, over the whole row, to the nearest 1e-12. */
  lemma SignificanceIsTheTail(wins: nat, losses: nat)
    ensures var tail := Tail(wins, wins + losses) as real / Pow2(wins + losses) as real;
            && tail - 0.5 / SCALE < Significance(wins, losses) <= tail + 0.5 / SCALE
            && Significance(wins, losses) == RoundMetric(tail)
  {
    PValueIsATail(wins, wins + losses);
    RoundIsNear(PValue(wins, wins + losses));
  }

  lemma QuotientOrder(a: nat, b: nat, c: nat, d: nat)
    requires b > 0 && d > 0 && a * d <= c * b
    ensures a as real / b as real <= c as real / d as real
  {
    var x, y := a as real / b as real, c as real / d as real;
    assert x * b as real == a as real && y * d as real == c as real;
    assert (a * d) as real <= (c * b) as real;
    assert x * (b as real * d as real) <= y * (b as real * d as real);
  }

  /** One more win never raises the p-value. */
  lemma {:induction false} MoreWins(wins: nat, losses: nat)
    ensures Significance(wins + 1, losses) <= Significance(wins, losses)
  {
    var n := wins + losses;
    PValueIsATail(wins, n);
    PValueIsATail(wins + 1, n + 1);
    TailPascal(wins, n);
    TailShrinks(wins, wins + 1, n);
    TwiceAtMost(Tail(wins + 1, n + 1), Tail(wins, n), Pow2(n));
    RoundIsMonotone(PValue(wins + 1, n + 1), PValue(wins, n));
  }

  lemma TwiceAtMost(a: nat, b: nat, p: nat)
    requires a <= 2 * b && p > 0
    ensures a as real / (2 * p) as real <= b as real / p as real
  {
    assert a * p <= (2 * b) * p == b * (2 * p);
    QuotientOrder(a, 2 * p, b, p);
  }

  /** One more loss never lowers it. */
  lemma {:induction false} MoreLosses(wins: nat, losses: nat)
    ensures Significance(wins, losses) <= Significance(wins, losses + 1)
  {
    var n := wins + losses;
    PValueIsATail(wins, n);
    PValueIsATail(wins, n + 1);
    if wins > 0 {
      TailPascal(wins - 1, n);
      TailShrinks(wins - 1, wins, n);
    } else {
      WholeRow(n);
      WholeRow(n + 1);
    }
    TwiceAtLeast(Tail(wins, n), Tail(wins, n + 1), Pow2(n));
    RoundIsMonotone(PValue(wins, n), PValue(wins, n + 1));
  }

  lemma TwiceAtLeast(b: nat, a: nat, p: nat)
    requires 2 * b <= a && p > 0
    ensures b as real / p as real <= a as real / (2 * p) as real
  {
    assert b * (2 * p) == (2 * b) * p <= a * p;
    QuotientOrder(b, p, a, 2 * p);
  }

  lemma HalfIsKept()
    ensures RoundMetric(0.5) == 0.5
  {
    assert 500_000_000_000 as real / SCALE == 0.5;
    RoundKeepsMultiples(500_000_000_000);
  }

  /** Without a lead of two wins the p-value is at least one half. */
  lemma NoLeadNoSignificance(wins: nat, losses: nat)
    requires wins <= losses + 1
    ensures Significance(wins, losses) >= 0.5
  {
    var n := wins + losses;
    PValueIsATail(wins, n);
    TailsAreComplementary(wins, n);
    TailShrinks(wins, n + 1 - wins, n);
    QuotientOrder(1, 2, Tail(wins, n), Pow2(n));
    RoundIsMonotone(0.5, PValue(wins, n));
    HalfIsKept();
  }

  lemma {:induction false} Pow2Grows(m: nat, n: nat)
    requires m <= n
    ensures Pow2(m) <= Pow2(n)
  {
    if m < n { Pow2Grows(m, n - 1); }
  }

  /** Fewer than five discordant pairs never reach the default threshold. */
  lemma FewerThanFiveAreNotEnough(wins: nat, losses: nat)
    requires wins + losses < 5
    ensures Significance(wins, losses) > 0.05
  {
    var n := wins + losses;
    PValueIsATail(wins, n);
    Pow2Grows(n, 4);
    assert Pow2(4) == 16;
    ChooseIsPositive(n, wins);
    QuotientOrder(1, 16, Tail(wins, n), Pow2(n));
    RoundIsMonotone(0.0625, PValue(wins, n));
    assert 62_500_000_000 as real / SCALE == 0.0625;
    RoundKeepsMultiples(62_500_000_000);
  }

  /** Five wins without a loss do. */
  lemma FiveWinsAreEnough(wins: nat)
    requires wins >= 5
    ensures Significance(wins, 0) <= 0.05
  {
    PValueIsATail(wins, wins);
    Pow2Grows(5, wins);
    assert Pow2(5) == 32;
    ChooseAll(wins);
    assert Tail(wins, wins) == 1;
    QuotientOrder(1, Pow2(wins), 1, 32);
    RoundIsMonotone(PValue(wins, wins), 0.03125);
    assert 31_250_000_000 as real / SCALE == 0.03125;
    RoundKeepsMultiples(31_250_000_000);
  }
}
