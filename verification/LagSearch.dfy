/** xCorrCoef and the three searches that look for the lag of the best correlation coefficient. */
module LagSearch {
  import opened Correlations
  import opened Reals
  import opened SearchSpec
  import opened Sequences

  /** xCorrCoef. */
  function Coefficient(target: seq<real>, regressor: seq<real>): real
    requires |target| == |regressor|
  {
    DotNeedsEnergy(target, regressor, |target|);
    var d := Dot(target, regressor);
    if d > 0.0 then d * d / Energy(regressor) else 0.0
  }

  // ---------- The first best lag ----------

  /** A search: blocks of n samples, one at a fixed position, the other a lag before or behind it. */
  datatype Search = Search(at: nat, n: nat, back: bool)

  /** The signal reaches far enough for lags up to hi. */
  predicate Reaches(q: Search, s: seq<real>, hi: nat) {
    q.at + q.n <= |s| && if q.back then hi <= q.at else q.at + hi + q.n <= |s|
  }

  function Other(q: Search, lag: nat): int {
    if q.back then q.at - lag else q.at + lag
  }

  function LagCoefficient(q: Search, s: seq<real>, lag: nat): real
    requires Reaches(q, s, lag)
  {
    Coefficient(Sub(s, q.at, q.n), Sub(s, Other(q, lag), q.n))
  }

  /** The first of the lags from lo to hi with the largest coefficient. */
  ghost predicate FirstLag(q: Search, s: seq<real>, lo: nat, hi: nat, lag: nat)
    requires Reaches(q, s, hi)
  {
    && lo <= lag <= hi
    && (forall l :: lo <= l <= hi ==> LagCoefficient(q, s, l) <= LagCoefficient(q, s, lag))
    && (forall l :: lo <= l < lag ==> LagCoefficient(q, s, l) < LagCoefficient(q, s, lag))
  }

  /** That lag, by scanning upwards. */
  function BestLag(q: Search, s: seq<real>, lo: nat, hi: nat): (lag: nat)
    requires Reaches(q, s, hi) && lo <= hi
    ensures lo <= lag <= hi
    decreases hi
  {
    if hi == lo then lo else
    var lag := BestLag(q, s, lo, hi - 1);
    if LagCoefficient(q, s, hi) > LagCoefficient(q, s, lag) then hi else lag
  }

  lemma {:induction false} BestLagIsBest(q: Search, s: seq<real>, lo: nat, hi: nat)
    requires Reaches(q, s, hi) && lo <= hi
    ensures FirstLag(q, s, lo, hi, BestLag(q, s, lo, hi))
  {
    hide LagCoefficient;
    if hi > lo {
      BestLagIsBest(q, s, lo, hi - 1);
    }
  }

  // ---------- What the coefficient finds ----------

  /** x is y, louder or quieter. */
  ghost predicate Repeats(x: seq<real>, y: seq<real>)
    requires |x| == |y|
  {
    exists g :: g > 0.0 && IsMultiple(x, g, y)
  }

  lemma QuotientIsPositive(d: real, e: real)
    requires d > 0.0 && e > 0.0
    ensures d / e > 0.0
  {
  }

  /** The coefficient is at most the energy of the block, and all of it exactly at a repetition. */
  lemma RepetitionIsBest(x: seq<real>, y: seq<real>)
    requires |x| == |y| && Energy(x) > 0.0
    ensures Coefficient(x, y) <= Energy(x)
    ensures Coefficient(x, y) == Energy(x) <==> Repeats(x, y)
  {
    hide Times, EnergyRange, DotTo, IsMultiple;
    DotNeedsEnergy(x, y, |x|);
    CauchySchwarz(x, y);
    if Dot(x, y) > 0.0 {
      SquareIs(Dot(x, y));
      SquareAsProduct(Dot(x, y));
      QuotientAtMost(Square(Dot(x, y)), Energy(y), Energy(x));
      OnlyMultiplesMeetBound(x, y);
      QuotientIsPositive(Dot(x, y), Energy(y));
      RepetitionHasFactor(x, y);
    } else {
      NoRepetition(x, y);
    }
  }

  lemma RepetitionHasFactor(x: seq<real>, y: seq<real>)
    requires |x| == |y| && Energy(y) > 0.0
    ensures Repeats(x, y) ==> IsMultiple(x, Dot(x, y) / Energy(y), y)
  {
    hide Times, EnergyRange, DotTo, IsMultiple;
    if Repeats(x, y) {
      var g :| g > 0.0 && IsMultiple(x, g, y);
      FactorIs(x, g, y);
    }
  }

  lemma PositiveProduct(g: real, e: real)
    requires g > 0.0 && e >= 0.0
    ensures Times(g, e) >= 0.0 && (Times(g, e) <= 0.0 ==> e == 0.0)
  {
    if e > 0.0 {
      assert g * e > 0.0;
    }
  }

  /** A repetition correlates. */
  lemma NoRepetition(x: seq<real>, y: seq<real>)
    requires |x| == |y| && Energy(x) > 0.0 && Dot(x, y) <= 0.0
    ensures !Repeats(x, y)
  {
    hide Times, Square, EnergyRange, DotTo, IsMultiple;
    if Repeats(x, y) {
      var g :| g > 0.0 && IsMultiple(x, g, y);
      MultipleIs(x, g, y, |x|);
      EnergyIsNatural(y, |y|);
      PositiveProduct(g, Energy(y));
      TimesZero(Square(g));
      assert false;
    }
  }

  /**
   If the block repeats at any of the lags, the lag found is the smallest at which it does: what
   the search finds in a periodic signal is its period.
   */
  lemma PeriodIsFound(q: Search, s: seq<real>, lo: nat, hi: nat, l: nat)
    requires Reaches(q, s, hi) && lo <= l <= hi
    requires var x := Sub(s, q.at, q.n);
             Energy(x) > 0.0 && Repeats(x, Sub(s, Other(q, l), q.n))
    ensures var lag, x := BestLag(q, s, lo, hi), Sub(s, q.at, q.n);
            && Repeats(x, Sub(s, Other(q, lag), q.n))
            && forall k :: lo <= k < lag ==> !Repeats(x, Sub(s, Other(q, k), q.n))
  {
    hide Coefficient, Repeats, Sub, BestLag, EnergyRange;
    BestLagIsBest(q, s, lo, hi);
    var x := Sub(s, q.at, q.n);
    forall k | lo <= k <= hi
      ensures LagCoefficient(q, s, k) <= Energy(x)
      ensures LagCoefficient(q, s, k) == Energy(x) <==> Repeats(x, Sub(s, Other(q, k), q.n))
    {
      RepetitionIsBest(x, Sub(s, Other(q, k), q.n));
    }
    assert LagCoefficient(q, s, l) == Energy(x);
  }

  // ---------- The routines ----------

  /** xCorrCoef on two blocks of a signal. */
  method XCorrCoef(s: seq<real>, target: nat, regressor: nat, subl: nat) returns (c: real)
    requires target + subl <= |s| && regressor + subl <= |s|
    ensures c == Coefficient(Sub(s, target, subl), Sub(s, regressor, subl))
  {
    hide Times, Sub;
    ghost var x, y := Sub(s, target, subl), Sub(s, regressor, subl);
    var ftmp1, ftmp2 := 0.0, 0.0;
    for i := 0 to subl
      invariant ftmp1 == DotTo(x, y, i) && ftmp2 == EnergyRange(y, 0, i)
    {
      ftmp1 := ftmp1 + Times(s[target + i], s[regressor + i]);
      ftmp2 := ftmp2 + Times(s[regressor + i], s[regressor + i]);
    }
    if ftmp1 > 0.0 {
      DotNeedsEnergy(x, y, subl);
      c := ftmp1 * ftmp1 / ftmp2;
    } else {
      c := 0.0;
    }
  }

  method CoefficientAt(q: Search, s: seq<real>, lag: nat) returns (c: real)
    requires Reaches(q, s, lag)
    ensures c == LagCoefficient(q, s, lag)
  {
    hide Coefficient;
    c := XCorrCoef(s, q.at, Other(q, lag), q.n);
  }

  /** The loop over the lags, as it stands in iLBC_decode and twice in enhancerInterface. */
  method FindLag(q: Search, s: seq<real>, lo: nat, hi: nat) returns (lag: nat)
    requires Reaches(q, s, hi) && lo <= hi
    ensures lag == BestLag(q, s, lo, hi) && FirstLag(q, s, lo, hi, lag)
  {
    hide LagCoefficient, FirstLag;
    lag := lo;
    var maxcc := CoefficientAt(q, s, lag);
    for ilag := lo + 1 to hi + 1
      invariant lag == BestLag(q, s, lo, ilag - 1) && maxcc == LagCoefficient(q, s, lag)
    {
      var cc := CoefficientAt(q, s, ilag);
      if cc > maxcc {
        maxcc, lag := cc, ilag;
      }
    }
    BestLagIsBest(q, s, lo, hi);
  }
}
