/** What quantising the start state means to a decoder: it scales back, turns back, and is as near as the levels allow. */
module StartStateMeaning {
  import opened Constants
  import opened Filters
  import opened LsfInterpolation
  import opened Reals
  import opened StartState

  /** Weighting filters without taps. */
  predicate IsFlat(s: Shaping) {
    IsShaping(s) && s.first == s.second == Delay()
  }

  lemma DelayHasNoTaps()
    ensures forall j :: 1 <= j < LPC_FILTERORDER + 1 ==> Delay()[j] == 0.0
  {
  }

  /** They leave everything as it is. */
  lemma {:induction false} FlatShapingPasses(s: Shaping, e: seq<real>)
    requires IsFlat(s)
    ensures NoiseShaped(s, e) == e
  {
    hide Delay, Taps, Zeros;
    if e != [] {
      var n := |e| - 1;
      FlatShapingPasses(s, e[..n]);
      DelayHasNoTaps();
      NoTaps(Delay(), Zeros(LPC_FILTERORDER) + e[..n], LPC_FILTERORDER + n, 1, LPC_FILTERORDER + 1);
    }
  }

  lemma ScaleReturns(p: real, x: real)
    requires p > 0.0
    ensures Times(p / 4.5, Times(4.5 / p, x)) == x
  {
    assert p / 4.5 * (4.5 / p) == 1.0;
    assert p / 4.5 * (4.5 / p * x) == p / 4.5 * (4.5 / p) * x;
  }

  /** What the encoder scales down the decoder scales up. */
  lemma ScaleIsUndone(sh: Shared, x: seq<real>, idxForMax: nat)
    requires idxForMax < 64
    ensures var p := sh.power10(StateFrgq()[idxForMax]); Scaled(Scaled(x, 4.5 / p), p / 4.5) == x
  {
    hide StateFrgq, Times;
    var p := sh.power10(StateFrgq()[idxForMax]);
    forall k | 0 <= k < |x|
      ensures Scaled(Scaled(x, 4.5 / p), p / 4.5)[k] == x[k]
    {
      ScaleReturns(p, x[k]);
    }
  }

  lemma DistanceScales(f: real, x: real, y: real, z: real)
    requires f > 0.0 && Abs(x - y) <= Abs(x - z)
    ensures Abs(Times(f, x) - Times(f, y)) <= Abs(Times(f, x) - Times(f, z))
  {
    DistanceIs(f, x, y);
    DistanceIs(f, x, z);
    var d := Abs(x - z) - Abs(x - y);
    assert f * d >= 0.0;
  }

  lemma DistanceIs(f: real, x: real, y: real)
    requires f > 0.0
    ensures Abs(Times(f, x) - Times(f, y)) == f * Abs(x - y)
  {
    var d := x - y;
    assert f * x - f * y == f * d;
    if d >= 0.0 {
      assert f * d >= 0.0;
    } else {
      assert f * (-d) > 0.0;
    }
  }

  /** With flat weighting the levels a decoder scales up are the nearest of all to the turned signal. */
  lemma LevelsAreNearest(sh: Shared, residual: seq<real>, syntDenum: seq<real>, s: Shaping, idxForMax: nat, idxVec: seq<nat>,
                         k: nat, j: nat)
    requires residual != [] && |syntDenum| == LPC_FILTERORDER + 1 && IsFlat(s)
    requires WellQuantised(sh, residual, syntDenum, s, idxForMax, idxVec) && k < |residual| && j < 8
    ensures var y, scale := Circular(syntDenum, residual), sh.power10(StateFrgq()[idxForMax]) / 4.5;
            && |ScaledLevels(sh, idxForMax, idxVec)| == |y|
            && Abs(y[k] - ScaledLevels(sh, idxForMax, idxVec)[k]) <= Abs(y[k] - Times(scale, StateSq3()[j]))
  {
    hide Circular, StateFrgq, StateSq3, NoiseShaped, Times, IsFlat, WellScaled;
    FlatIs(s);
    var y, p := Circular(syntDenum, residual), sh.power10(StateFrgq()[idxForMax]);
    var e := Scaled(y, 4.5 / p);
    FlatShapingPasses(s, e);
    FlatShapingPasses(s, Levels(idxVec[..k + 1]));
    FlatShapingPasses(s, Levels(idxVec[..k] + [j]));
    assert ClosestAt(s, e, idxVec, k);
    ScaleIsUndone(sh, y, idxForMax);
    assert y[k] == Times(p / 4.5, e[k]);
    DistanceScales(p / 4.5, e[k], StateSq3()[idxVec[k]], StateSq3()[j]);
  }

  lemma FlatIs(s: Shaping)
    requires IsFlat(s)
    ensures IsShaping(s)
  {
  }

  /** The decoder's filter undoes the encoder's, for the two kinds of filter whose answers are known. */
  lemma FiltersCancel(a: seq<real>, x: seq<real>)
    requires |a| == LPC_FILTERORDER + 1 && LPC_FILTERORDER <= |x| && ((a[0] == 1.0 && Turned(a) == a) || a == Delay())
    ensures Turned(Circular(a, Turned(Circular(a, x)))) == x
  {
    hide Circular, Delay;
    var y := Circular(a, x);
    if a == Delay() {
      forall k | 0 <= k < |x|
        ensures Turned(Circular(a, Turned(y)))[k] == x[k]
      {
        var i := |x| - 1 - k;
        DelayRotates(Turned(y), i);
        DelayRotates(x, if i < LPC_FILTERORDER then |x| - 1 - (i + |x| - LPC_FILTERORDER) else |x| - 1 - (i - LPC_FILTERORDER));
      }
    } else {
      PalindromePasses(a, x);
      PalindromePasses(a, Turned(y));
    }
  }
}
