/** The linear prediction of a signal does not depend on how loud it is. */
module LpcLoudness {
  import opened Autocorrelation
  import opened Constants
  import opened LagWindow
  import opened LagWindowTable
  import opened LevinsonDurbin
  import opened LpcAnalysis
  import opened LsfInterpolation
  import opened Reals

  /** y is c times x. */
  predicate IsLouder(y: seq<real>, c: real, x: seq<real>) {
    |y| == |x| && forall i {:trigger y[i]} :: 0 <= i < |y| ==> y[i] == Times(c, x[i])
  }

  lemma TimesSwaps(c: real, x: real, w: real)
    ensures Times(Times(c, x), w) == Times(c, Times(x, w))
  {
  }

  /** A window keeps it so. */
  lemma LouderUnderWindow(y: seq<real>, c: real, x: seq<real>, w: seq<real>)
    requires IsLouder(y, c, x) && |w| == |x|
    ensures IsLouder(Windowed(y, w), c, Windowed(x, w))
  {
    hide Times;
    forall i | 0 <= i < |y|
      ensures Windowed(y, w)[i] == Times(c, Windowed(x, w)[i])
    {
      TimesSwaps(c, x[i], w[i]);
    }
  }

  lemma ProductOfLouder(c: real, x: real, y: real)
    ensures Times(Times(c, x), Times(c, y)) == Times(Square(c), Times(x, y))
    ensures Times(c, 0.0) == 0.0
  {
  }

  lemma SumOfLouder(d: real, x: real, y: real)
    ensures Times(d, x) + Times(d, y) == Times(d, x + y)
  {
  }

  lemma {:induction false} LaggedIsLouder(y: seq<real>, c: real, x: seq<real>, lag: nat, n: nat)
    requires IsLouder(y, c, x)
    ensures LaggedTo(y, lag, n) == Times(Square(c), LaggedTo(x, lag, n))
  {
    hide Times, Square;
    ProductOfLouder(c, 0.0, 0.0);
    if n == 0 {
      ProductOfLouder(Square(c), 0.0, 0.0);
    } else {
      LaggedIsLouder(y, c, x, lag, n - 1);
      ProductOfLouder(c, Sample(x, n - 1), Sample(x, n - 1 + lag));
      SumOfLouder(Square(c), LaggedTo(x, lag, n - 1), Times(Sample(x, n - 1), Sample(x, n - 1 + lag)));
    }
  }

  /** Its lags are louder by the square. */
  lemma LagsAreLouder(y: seq<real>, c: real, x: seq<real>)
    requires IsLouder(y, c, x)
    ensures IsLouder(Lags(y), Square(c), Lags(x))
  {
    hide Times, Square, LaggedTo;
    forall k | 0 <= k < LPC_FILTERORDER + 1
      ensures Lags(y)[k] == Times(Square(c), Lags(x)[k])
    {
      LaggedIsLouder(y, c, x, k, |x|);
    }
  }

  // ---------- The recursion ----------

  lemma AtIsLouder(s: seq<real>, d: real, r: seq<real>, n: int)
    requires IsLouder(s, d, r)
    ensures At(s, n) == Times(d, At(r, n))
  {
  }

  lemma TermIsLouder(d: real, a: real, v: real, t: real)
    ensures Times(d, t) + a * Times(d, v) == Times(d, t + a * v)
  {
  }

  lemma {:induction false} CorrelatedIsLouder(a: seq<real>, s: seq<real>, d: real, r: seq<real>, j: int, n: nat)
    requires IsLouder(s, d, r) && n <= |a|
    ensures Correlated(a, s, j, 0, n) == Times(d, Correlated(a, r, j, 0, n))
  {
    if n > 0 {
      CorrelatedIsLouder(a, s, d, r, j, n - 1);
      AtIsLouder(s, d, r, n - 1 - j);
      TermIsLouder(d, a[n - 1], At(r, n - 1 - j), Correlated(a, r, j, 0, n - 1));
    }
  }

  lemma QuotientStays(d: real, x: real, y: real)
    requires d > 0.0
    ensures Quotient(-Times(d, x), Times(d, y)) == Quotient(-x, y)
  {
    if y != 0.0 {
      assert d * y != 0.0;
      assert -(d * x) / (d * y) == -x / y;
    }
  }

  lemma ErrorIsLouder(d: real, error: real, k: real, s: real)
    ensures Reduced(Times(d, error), k, Times(d, s)) == Times(d, Reduced(error, k, s))
  {
  }

  /** The predictor of louder lags is the same, its error louder. */
  lemma {:induction false} PredictorStays(s: seq<real>, d: real, r: seq<real>, m: nat)
    requires |r| > 0 && IsLouder(s, d, r) && d > 0.0
    ensures Predict(s, m) == Predict(r, m).(error := Times(d, Predict(r, m).error))
  {
    hide Correlated, Raised, Reduced, Times, Quotient;
    if m > 0 {
      PredictorStays(s, d, r, m - 1);
      var p := Predict(r, m - 1);
      CorrelatedIsLouder(p.a, s, d, r, m, m);
      var c := Correlated(p.a, r, m, 0, m);
      QuotientStays(d, c, p.error);
      ErrorIsLouder(d, p.error, Quotient(-c, p.error), c);
    }
  }

  lemma LouderIsAsLong(y: seq<real>, c: real, x: seq<real>)
    requires IsLouder(y, c, x)
    ensures |y| == |x|
  {
  }

  /** So the frequencies of a block are those of the block made louder or quieter, as long as neither counts as silent. */
  lemma LoudnessDoesNotMatter(an: Analysis, y: seq<real>, c: real, x: seq<real>, w: seq<real>)
    requires c != 0.0 && IsLouder(y, c, x) && |w| == |x|
    requires WindowedLags(x, w)[0] >= EPS && WindowedLags(y, w)[0] >= EPS
    ensures LsfOfBlock(an, y, w) == LsfOfBlock(an, x, w)
  {
    hide Expanded, IsLouder, Lags, LagWin, Predict, Square, Times, Windowed;
    LouderIsAsLong(y, c, x);
    LouderUnderWindow(y, c, x, w);
    LagsAreLouder(Windowed(y, w), c, Windowed(x, w));
    LouderUnderWindow(Lags(Windowed(y, w)), Square(c), Lags(Windowed(x, w)), LagWin());
    SquareIsPositive(c);
    PredictorStays(WindowedLags(y, w), Square(c), WindowedLags(x, w), LPC_FILTERORDER);
  }
}
