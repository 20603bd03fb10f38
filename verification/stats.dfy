/** The summary statistics the backtest computes from its equity curve with
    pandas: running peak, drawdown and its minimum, bar-to-bar percentage
    returns, their mean and sample variance, and the Sharpe ratio with its
    zero-variance convention. The square root is a parameter: the model only
    needs it to be positive on positive arguments. */
module Stats {
  import opened Base

  predicate AllPositive(s: seq<real>)
  {
    forall i :: 0 <= i < |s| ==> s[i] > 0.0
  }

  /** Python's left-to-right `sum`. */
  function Sum(s: seq<real>): real
    decreases |s|
  {
    if |s| == 0 then 0.0 else Sum(s[..|s| - 1]) + s[|s| - 1]
  }

  function Last(s: seq<real>): real
    requires |s| > 0
  {
    s[|s| - 1]
  }

  lemma {:induction false} SumAppend(a: seq<real>, b: seq<real>)
    ensures Sum(a + b) == Sum(a) + Sum(b)
    decreases |b|
  {
    if |b| == 0 {
      assert a + b == a;
    } else {
      var ab := a + b;
      assert ab[..|ab| - 1] == a + b[..|b| - 1];
      SumAppend(a, b[..|b| - 1]);
    }
  }

  /** `cummax()` read at the last position of `s`. */
  function Peak(s: seq<real>): (r: real)
    requires |s| > 0
    ensures forall i :: 0 <= i < |s| ==> s[i] <= r
    ensures exists i :: 0 <= i < |s| && s[i] == r
    decreases |s|
  {
    if |s| == 1 then s[0] else Max(Peak(s[..|s| - 1]), s[|s| - 1])
  }

  /** `(equity - peak) / peak` at position `i`: the fall from the highest
      equity seen so far, as a (non-positive) fraction of that high. */
  function DrawdownAt(eq: seq<real>, i: int): (r: real)
    requires AllPositive(eq) && 0 <= i < |eq|
    ensures -1.0 < r <= 0.0
  {
    var p := Peak(eq[..i + 1]);
    assert eq[..i + 1][i] == eq[i];
    DrawdownFraction(eq[i], p)
  }

  /** `(e - p) / p` for a value `e` that does not exceed a positive high `p`. */
  function DrawdownFraction(e: real, p: real): (r: real)
    requires 0.0 < e <= p
    ensures -1.0 < r <= 0.0
  {
    var r := (e - p) / p;
    assert r * p == e - p;
    r
  }

  /** The drawdown series: the drawdown at every position of the curve. */
  function Drawdowns(eq: seq<real>): (d: seq<real>)
    requires AllPositive(eq)
    ensures |d| == |eq|
    ensures forall i :: 0 <= i < |eq| ==> d[i] == DrawdownAt(eq, i)
  {
    seq(|eq|, i requires 0 <= i < |eq| => DrawdownAt(eq, i))
  }

  /** `min()` of a non-empty series. */
  function Least(s: seq<real>): (r: real)
    requires |s| > 0
    ensures forall i :: 0 <= i < |s| ==> r <= s[i]
    ensures exists i :: 0 <= i < |s| && s[i] == r
    decreases |s|
  {
    if |s| == 1 then s[0] else Min(Least(s[..|s| - 1]), s[|s| - 1])
  }

  /** `drawdown.min()`: the worst drawdown over the whole curve. */
  function MaxDrawdown(eq: seq<real>): (r: real)
    requires |eq| > 0 && AllPositive(eq)
    ensures forall i :: 0 <= i < |eq| ==> r <= DrawdownAt(eq, i)
    ensures exists i :: 0 <= i < |eq| && r == DrawdownAt(eq, i)
    ensures -1.0 < r <= 0.0
  {
    var d := Drawdowns(eq);
    var r := Least(d);
    assert exists i :: 0 <= i < |eq| && r == DrawdownAt(eq, i) by {
      var w :| 0 <= w < |d| && d[w] == r;
      assert r == DrawdownAt(eq, w);
    }
    r
  }

  /** `pct_change().dropna()`: one return per pair of consecutive points. */
  function Returns(eq: seq<real>): (r: seq<real>)
    requires AllPositive(eq)
    ensures |eq| > 0 ==> |r| == |eq| - 1
    ensures |eq| == 0 ==> |r| == 0
    ensures forall i :: 0 <= i < |r| ==> eq[i + 1] == eq[i] * (1.0 + r[i])
  {
    if |eq| == 0 then []
    else seq(|eq| - 1, i requires 0 <= i < |eq| - 1 => (eq[i + 1] - eq[i]) / eq[i])
  }

  function Mean(r: seq<real>): real
    requires |r| > 0
  {
    Sum(r) / (|r| as real)
  }

  /** Sum of squared deviations of `r` from `m`. */
  function SquaredDeviation(r: seq<real>, m: real): (d: real)
    ensures d >= 0.0
    decreases |r|
  {
    if |r| == 0 then 0.0
    else
      SquareSign(r[|r| - 1] - m);
      SquaredDeviation(r[..|r| - 1], m) + Square(r[|r| - 1] - m)
  }

  /** The identity; see `Square`. */
  function Same(x: real): real
  {
    x
  }

  /** `x * x`. The second factor goes through `Same` so that the solver sees a
      product of two equal factors rather than a power, which it reasons
      about less reliably. */
  function Square(x: real): real
  {
    x * Same(x)
  }

  lemma ProductPositive(a: real, b: real)
    requires (a > 0.0 && b > 0.0) || (a < 0.0 && b < 0.0)
    ensures a * b > 0.0
  {
  }

  lemma Distribute(a: real, z: real)
    ensures (1.0 + a) * z == z + a * z
  {
  }

  /** A positive factor can be cancelled from both sides of an equation. */
  lemma CancelFactor(x: real, y: real, z: real)
    requires z > 0.0 && x * z == y * z
    ensures x == y
  {
    assert x == (x * z) / z;
    assert y == (y * z) / z;
  }

  /** A quotient by a positive divisor exceeds `lo` when the dividend exceeds `divisor * lo`. */
  lemma QuotientAbove(x: real, y: real, lo: real)
    requires y > 0.0 && x > y * lo
    ensures x / y > lo
  {
    var q := x / y;
    assert q * y == x;
    assert (q - lo) * y == x - lo * y;
  }

  lemma QuotientAtLeast(x: real, y: real, k: real)
    requires y > 0.0 && x >= k * y
    ensures x / y >= k
  {
    var q := x / y;
    assert q * y == x;
    assert (q - k) * y == x - k * y;
  }

  /** A square is positive off zero and zero at zero. */
  lemma SquareSign(x: real)
    ensures x != 0.0 ==> Square(x) > 0.0
    ensures x == 0.0 ==> Square(x) == 0.0
  {
    if x != 0.0 {
      ProductPositive(x, Same(x));
    }
  }

  /** pandas' `var()` with its default of one degree of freedom. */
  function SampleVariance(r: seq<real>): (v: real)
    requires |r| >= 2
    ensures v >= 0.0
  {
    SquaredDeviation(r, Mean(r)) / ((|r| - 1) as real)
  }

  /** The square root the Sharpe ratio divides by, known only to be positive on positive arguments. */
  ghost predicate PositiveRoot(root: real -> real)
  {
    forall x :: x > 0.0 ==> root(x) > 0.0
  }

  /** Trading days per year. */
  const AnnualDays: real := 252.0

  /** `(mean * 252) / (std * sqrt(252))`, or -1 when the returns do not vary. */
  function Sharpe(rets: seq<real>, root: real -> real): (s: real)
    requires |rets| >= 2 && PositiveRoot(root)
    ensures SampleVariance(rets) == 0.0 ==> s == -1.0
    ensures SampleVariance(rets) != 0.0 ==> (s > 0.0 <==> Mean(rets) > 0.0) && (s < 0.0 <==> Mean(rets) < 0.0)
  {
    var v := SampleVariance(rets);
    if v == 0.0 then -1.0
    else
      var den := root(v) * root(AnnualDays);
      assert den > 0.0;
      (Mean(rets) * AnnualDays) / den
  }

  predicate Constant(r: seq<real>)
  {
    forall i :: 0 <= i < |r| ==> r[i] == r[0]
  }

  lemma {:induction false} SumOfConstant(r: seq<real>, c: real)
    requires forall i :: 0 <= i < |r| ==> r[i] == c
    ensures Sum(r) == (|r| as real) * c
    decreases |r|
  {
    if |r| > 0 {
      SumOfConstant(r[..|r| - 1], c);
    }
  }

  /** A sum of squared deviations vanishes exactly when every term equals the centre. */
  lemma {:induction false} SquaredDeviationZero(r: seq<real>, m: real)
    ensures SquaredDeviation(r, m) == 0.0 <==> forall i :: 0 <= i < |r| ==> r[i] == m
    decreases |r|
  {
    if |r| > 0 {
      var n := |r|;
      SquaredDeviationZero(r[..n - 1], m);
      SquareSign(r[n - 1] - m);
      assert forall i :: 0 <= i < n - 1 ==> r[..n - 1][i] == r[i];
    }
  }

  /** The zero-variance branch of the Sharpe ratio is taken exactly when all returns are equal. */
  lemma VarianceZeroIffConstant(r: seq<real>)
    requires |r| >= 2
    ensures SampleVariance(r) == 0.0 <==> Constant(r)
  {
    var m := Mean(r);
    var n := (|r| - 1) as real;
    assert SampleVariance(r) == SquaredDeviation(r, m) / n;
    assert SampleVariance(r) == 0.0 <==> SquaredDeviation(r, m) == 0.0;
    SquaredDeviationZero(r, m);
    if Constant(r) {
      SumOfConstant(r, r[0]);
      assert m == r[0];
    }
  }

  /** An equity curve that never moves has Sharpe ratio -1 by convention. */
  lemma FlatEquitySharpe(eq: seq<real>, root: real -> real)
    requires AllPositive(eq) && |eq| >= 3 && PositiveRoot(root)
    requires forall i :: 0 <= i < |eq| ==> eq[i] == eq[0]
    ensures Sharpe(Returns(eq), root) == -1.0
  {
    var rets := Returns(eq);
    forall i | 0 <= i < |rets|
      ensures rets[i] == 0.0
    {
      assert eq[i + 1] == eq[i];
    }
    VarianceZeroIffConstant(rets);
  }
}
