/** Energies, cross products and what is left of a signal when a multiple of another is taken out. */
module Correlations {
  import opened Reals
  import opened SearchSpec

  /** v - c * w, sample by sample. */
  function Minus(v: seq<real>, c: real, w: seq<real>): (r: seq<real>)
    requires |v| == |w|
    ensures |r| == |v|
  {
    seq(|v|, j requires 0 <= j < |v| => v[j] - Times(c, w[j]))
  }

  /** x is g times y, sample by sample. */
  predicate IsMultiple(x: seq<real>, g: real, y: seq<real>)
    requires |x| == |y|
  {
    forall i :: 0 <= i < |x| ==> x[i] == Times(g, y[i])
  }

  // ---------- Sums of products ----------

  lemma TimesZero(a: real)
    ensures Times(a, 0.0) == 0.0
  {
  }

  lemma TimesOverSum(a: real, x: real, y: real)
    ensures Times(a, x + y) == Times(a, x) + Times(a, y)
  {
  }

  lemma SquareIs(x: real)
    ensures Times(x, x) == Square(x)
  {
  }

  lemma {:induction false} EnergyIsNatural(v: seq<real>, n: nat)
    requires n <= |v|
    ensures EnergyRange(v, 0, n) >= 0.0
  {
    hide Times;
    if n > 0 {
      EnergyIsNatural(v, n - 1);
      SquareIs(v[n - 1]);
    }
  }

  /** A signal without energy is silent. */
  lemma {:induction false} NoEnergyIsSilence(v: seq<real>, n: nat, i: nat)
    requires i < n <= |v| && EnergyRange(v, 0, n) <= 0.0
    ensures v[i] == 0.0
  {
    hide Times;
    EnergyIsNatural(v, n - 1);
    SquareIs(v[n - 1]);
    if i < n - 1 {
      NoEnergyIsSilence(v, n - 1, i);
    } else {
      TimesOne(v[i]);
      ProductOfZero(1.0, v[i]);
    }
  }

  lemma ProductOfZero(x: real, y: real)
    ensures Times(y, y) >= 0.0 && (Times(x, y) != 0.0 ==> Times(y, y) > 0.0)
  {
    if y > 0.0 {
      assert y * y > 0.0;
    } else if y < 0.0 {
      assert (-y) * (-y) > 0.0;
    }
  }

  lemma TimesOne(x: real)
    ensures Times(1.0, x) == x
  {
  }

  lemma SquareGrows(x: real, y: real)
    requires 0.0 <= y < x
    ensures Square(x) > Square(y)
  {
    var d, u := x - y, x + y;
    assert d * u > 0.0;
    assert x * x - y * y == d * u;
  }

  lemma SquaresCompare(x: real, y: real)
    ensures Square(x) > Square(y) <==> Abs(x) > Abs(y)
  {
    assert Square(x) == Square(Abs(x)) && Square(y) == Square(Abs(y));
    if Abs(x) > Abs(y) {
      SquareGrows(Abs(x), Abs(y));
    } else if Abs(x) < Abs(y) {
      SquareGrows(Abs(y), Abs(x));
    }
  }

  /** A correlation other than zero needs a regressor with energy, so xCorrCoef never divides by zero. */
  lemma {:induction false} DotNeedsEnergy(x: seq<real>, y: seq<real>, n: nat)
    requires n <= |x| && n <= |y|
    ensures EnergyRange(y, 0, n) >= 0.0
    ensures DotTo(x, y, n) != 0.0 ==> EnergyRange(y, 0, n) > 0.0
  {
    hide Times;
    if n > 0 {
      DotNeedsEnergy(x, y, n - 1);
      ProductOfZero(x[n - 1], y[n - 1]);
    }
  }

  // ---------- What is left ----------

  lemma DifferenceSquare(x: real, g: real, v: real)
    ensures Times(x - Times(g, v), x - Times(g, v)) == Times(x, x) - 2.0 * Times(g, Times(x, v)) + Times(Square(g), Times(v, v))
  {
  }

  lemma {:induction false} EnergyOfRest(x: seq<real>, g: real, v: seq<real>, n: nat)
    requires n <= |x| == |v|
    ensures EnergyRange(Minus(x, g, v), 0, n)
            == EnergyRange(x, 0, n) - 2.0 * Times(g, DotTo(x, v, n)) + Times(Square(g), EnergyRange(v, 0, n))
  {
    hide Times, Square;
    if n == 0 {
      TimesZero(g);
      TimesZero(Square(g));
    } else {
      EnergyOfRest(x, g, v, n - 1);
      DifferenceSquare(x[n - 1], g, v[n - 1]);
      TimesOverSum(g, DotTo(x, v, n - 1), Times(x[n - 1], v[n - 1]));
      TimesOverSum(Square(g), EnergyRange(v, 0, n - 1), Times(v[n - 1], v[n - 1]));
    }
  }

  lemma CompletedSquare(t: real, g: real, c: real, e: real)
    ensures Times(t - 2.0 * Times(g, c) + Times(Square(g), e), e) == Times(t, e) - Times(c, c) + Square(Times(g, e) - c)
  {
  }

  lemma RestIs(x: seq<real>, g: real, v: seq<real>)
    requires |v| == |x|
    ensures Times(Energy(Minus(x, g, v)), Energy(v))
            == Times(Energy(x), Energy(v)) - Square(Dot(x, v)) + Square(Times(g, Energy(v)) - Dot(x, v))
  {
    hide Times, Square, EnergyRange, DotTo;
    EnergyOfRest(x, g, v, |x|);
    CompletedSquare(Energy(x), g, Dot(x, v), Energy(v));
    SquareIs(Dot(x, v));
  }

  /** No multiple of a signal takes more than the square of the cross product over its energy. */
  lemma NothingTakesMore(x: seq<real>, g: real, v: seq<real>)
    requires |v| == |x|
    ensures Times(Energy(Minus(x, g, v)), Energy(v)) >= Times(Energy(x), Energy(v)) - Square(Dot(x, v))
  {
    hide Times, Square, EnergyRange, DotTo;
    RestIs(x, g, v);
  }

  lemma DivisionReturns(c: real, e: real)
    requires e > 0.0
    ensures Square(Times(c / e, e) - c) == 0.0
  {
    assert c / e * e == c;
  }

  lemma ProductIsNatural(x: real, y: real)
    requires x >= 0.0 && y >= 0.0
    ensures Times(x, y) >= 0.0
  {
  }

  /** The square of a cross product is at most the product of the energies. */
  lemma CauchySchwarz(x: seq<real>, y: seq<real>)
    requires |x| == |y|
    ensures Square(Dot(x, y)) <= Times(Energy(x), Energy(y))
  {
    hide Times, Square, EnergyRange, DotTo;
    DotNeedsEnergy(x, y, |x|);
    EnergyIsNatural(x, |x|);
    if Energy(y) > 0.0 {
      var g := Dot(x, y) / Energy(y);
      RestIs(x, g, y);
      DivisionReturns(Dot(x, y), Energy(y));
      EnergyIsNatural(Minus(x, g, y), |x|);
      ProductIsNatural(Energy(Minus(x, g, y)), Energy(y));
    } else {
      SquareIs(Dot(x, y));
      TimesZero(Dot(x, y));
      ProductIsNatural(Energy(x), Energy(y));
    }
  }

  // ---------- Multiples ----------

  lemma QuotientAtMost(q: real, e: real, t: real)
    requires e > 0.0 && q <= Times(t, e)
    ensures q / e <= t && (q / e == t <==> q == Times(t, e))
  {
    var d := t * e - q;
    assert d / e == t - q / e;
  }

  lemma SquareAsProduct(d: real)
    ensures Square(d) == d * d
  {
  }

  lemma MultipleStep(g: real, y: real)
    ensures Times(Times(g, y), y) == Times(g, Times(y, y))
    ensures Times(Times(g, y), Times(g, y)) == Times(Square(g), Times(y, y))
  {
  }

  lemma {:induction false} MultipleIs(x: seq<real>, g: real, y: seq<real>, n: nat)
    requires n <= |x| == |y| && IsMultiple(x, g, y)
    ensures DotTo(x, y, n) == Times(g, EnergyRange(y, 0, n))
    ensures EnergyRange(x, 0, n) == Times(Square(g), EnergyRange(y, 0, n))
  {
    hide Times, Square;
    if n == 0 {
      TimesZero(g);
      TimesZero(Square(g));
    } else {
      MultipleIs(x, g, y, n - 1);
      MultipleStep(g, y[n - 1]);
      TimesOverSum(g, EnergyRange(y, 0, n - 1), Times(y[n - 1], y[n - 1]));
      TimesOverSum(Square(g), EnergyRange(y, 0, n - 1), Times(y[n - 1], y[n - 1]));
    }
  }

  lemma SquareOfProduct(g: real, e: real)
    ensures Square(Times(g, e)) == Times(Times(Square(g), e), e)
  {
  }

  lemma ZeroFactor(x: real, e: real)
    requires e > 0.0 && Times(x, e) == 0.0
    ensures x == 0.0
  {
    assert x == x * e / e;
  }

  /** The bound is met exactly by multiples; the factor is the cross product over the energy. */
  lemma OnlyMultiplesMeetBound(x: seq<real>, y: seq<real>)
    requires |x| == |y| && Energy(y) > 0.0
    ensures Square(Dot(x, y)) == Times(Energy(x), Energy(y)) <==> IsMultiple(x, Dot(x, y) / Energy(y), y)
  {
    hide Times, Square, EnergyRange, DotTo, IsMultiple, Minus;
    var g := Dot(x, y) / Energy(y);
    if IsMultiple(x, g, y) {
      MultipleIs(x, g, y, |x|);
      SquareOfProduct(g, Energy(y));
    }
    if Square(Dot(x, y)) == Times(Energy(x), Energy(y)) {
      RestIs(x, g, y);
      DivisionReturns(Dot(x, y), Energy(y));
      ZeroFactor(Energy(Minus(x, g, y)), Energy(y));
      NothingLeft(x, g, y);
    }
  }

  lemma NothingLeft(x: seq<real>, g: real, y: seq<real>)
    requires |x| == |y| && Energy(Minus(x, g, y)) <= 0.0
    ensures IsMultiple(x, g, y)
  {
    hide EnergyRange, Times;
    forall i | 0 <= i < |x|
      ensures x[i] == Times(g, y[i])
    {
      NoEnergyIsSilence(Minus(x, g, y), |x|, i);
    }
  }

  lemma FactorOfProduct(g: real, e: real)
    requires e > 0.0
    ensures Times(g, e) / e == g
  {
  }

  /** A multiple determines its factor. */
  lemma FactorIs(x: seq<real>, g: real, y: seq<real>)
    requires |x| == |y| && Energy(y) > 0.0 && IsMultiple(x, g, y)
    ensures g == Dot(x, y) / Energy(y)
  {
    hide Times, EnergyRange, DotTo, IsMultiple;
    MultipleIs(x, g, y, |x|);
    FactorOfProduct(g, Energy(y));
  }
}
