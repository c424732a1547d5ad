/**
 autocorr, and why the recursion on its result never divides by zero: the error of a predictor
 is the energy of the prediction residual, and no predictor silences a signal that is not silent.
 */
module Autocorrelation {
  import opened LevinsonDurbin
  import opened Reals

  /** Sample t of a signal that is zero outside. */
  function Sample(x: seq<real>, t: int): real {
    if 0 <= t < |x| then x[t] else 0.0
  }

  // ---------- The routine ----------

  /** The sum of x[n] * x[n + lag] over the first n samples. */
  function LaggedTo(x: seq<real>, lag: nat, n: nat): real {
    if n == 0 then 0.0 else LaggedTo(x, lag, n - 1) + Times(Sample(x, n - 1), Sample(x, n - 1 + lag))
  }

  /** r is the autocorrelation of x. */
  ghost predicate IsAutocorrelation(r: seq<real>, x: seq<real>) {
    forall lag {:trigger r[lag]} :: 0 <= lag < |r| ==> r[lag] == LaggedTo(x, lag, |x|)
  }

  /** autocorr. */
  method Autocorr(r: array<real>, x: seq<real>, order: nat)
    requires r.Length == order + 1
    modifies r
    ensures IsAutocorrelation(r[..], x)
  {
    hide Times;
    for lag := 0 to order + 1
      invariant forall k {:trigger r[k]} :: 0 <= k < lag ==> r[k] == LaggedTo(x, k, |x|)
    {
      var sum := 0.0;
      var n := 0;
      assert LaggedTo(x, lag, 0) == 0.0;
      while n < |x| - lag
        invariant n <= |x| && sum == LaggedTo(x, lag, n)
      {
        sum := sum + Times(x[n], x[n + lag]);
        n := n + 1;
      }
      NothingLagged(x, lag, n, |x|);
      r[lag] := sum;
    }
  }

  lemma {:induction false} NothingLagged(x: seq<real>, lag: nat, m: nat, n: nat)
    requires m <= n && |x| <= m + lag
    ensures LaggedTo(x, lag, n) == LaggedTo(x, lag, m)
  {
    if m < n {
      NothingLagged(x, lag, m, n - 1);
    }
  }

  // ---------- Products of shifted signals ----------

  /** The sum over the first n times t of x[t - i] * x[t - j]. */
  function Cross(x: seq<real>, i: int, j: int, n: nat): real {
    if n == 0 then 0.0 else Cross(x, i, j, n - 1) + Times(Sample(x, n - 1 - i), Sample(x, n - 1 - j))
  }

  lemma ZeroTimes(x: real)
    ensures Times(0.0, x) == 0.0 && Times(x, 0.0) == 0.0
  {
  }

  lemma TimesCommutes(x: real, y: real)
    ensures Times(x, y) == Times(y, x)
  {
  }

  /** Both shifts may be taken one less when the sum is one shorter: the first product has a sample before the signal. */
  lemma {:induction false} CrossShifts(x: seq<real>, i: nat, j: nat, n: nat)
    ensures Cross(x, i + 1, j + 1, n + 1) == Cross(x, i, j, n)
  {
    hide Times;
    if n == 0 {
      ZeroTimes(Sample(x, -1 - j));
      assert Cross(x, i + 1, j + 1, 0) == 0.0;
    } else {
      CrossShifts(x, i, j, n - 1);
    }
  }

  lemma {:induction false} CrossSwaps(x: seq<real>, i: int, j: int, n: nat)
    ensures Cross(x, i, j, n) == Cross(x, j, i, n)
  {
    hide Times;
    if n > 0 {
      CrossSwaps(x, i, j, n - 1);
      TimesCommutes(Sample(x, n - 1 - i), Sample(x, n - 1 - j));
    }
  }

  /** One shift only: past the end of the signal nothing is added, and before it nothing was missed. */
  lemma {:induction false} CrossIsLagged(x: seq<real>, lag: nat, n: nat)
    ensures Cross(x, lag, 0, n + lag) == LaggedTo(x, lag, n)
  {
    hide Times;
    if n > 0 {
      CrossIsLagged(x, lag, n - 1);
    } else {
      CrossBefore(x, lag, lag);
    }
  }

  lemma {:induction false} CrossBefore(x: seq<real>, lag: nat, n: nat)
    requires n <= lag
    ensures Cross(x, lag, 0, n) == 0.0
  {
    hide Times;
    if n > 0 {
      CrossBefore(x, lag, n - 1);
      ZeroTimes(Sample(x, n - 1));
    }
  }

  lemma {:induction false} CrossUnshifted(x: seq<real>, i: nat, j: nat, n: nat)
    requires j <= i && j <= n
    ensures Cross(x, i, j, n) == Cross(x, i - j, 0, n - j)
  {
    if j > 0 {
      CrossShifts(x, i - 1, j - 1, n - 1);
      CrossUnshifted(x, i - 1, j - 1, n - 1);
    }
  }

  /** The product sum of two shifts is the autocorrelation at their distance, once the sum is long enough. */
  lemma CrossIsAt(x: seq<real>, r: seq<real>, i: nat, j: nat, m: nat)
    requires IsAutocorrelation(r, x) && i < m <= |r| && j < m
    ensures Cross(x, i, j, |x| + m) == At(r, i - j)
  {
    hide LaggedTo, Cross;
    var u, v := if i < j then j else i, if i < j then i else j;
    if i < j {
      CrossSwaps(x, i, j, |x| + m);
    }
    CrossUnshifted(x, u, v, |x| + m);
    CrossIsLagged(x, u - v, |x| + m - u);
    LaggedEnds(x, u - v, |x| + m - u);
    assert r[u - v] == LaggedTo(x, u - v, |x|);
  }

  lemma LaggedEnds(x: seq<real>, lag: nat, n: nat)
    requires n >= |x|
    ensures LaggedTo(x, lag, n) == LaggedTo(x, lag, |x|)
  {
    NothingLagged(x, lag, |x|, n);
  }

  // ---------- The prediction residual ----------

  /** The first m taps of the predictor at time t. */
  function Residual(a: seq<real>, x: seq<real>, t: int, m: nat): real
    requires m <= |a|
  {
    if m == 0 then 0.0 else Residual(a, x, t, m - 1) + Times(a[m - 1], Sample(x, t - (m - 1)))
  }

  /** Its energy over the first n times. */
  function ResidualEnergy(a: seq<real>, x: seq<real>, n: nat): real {
    if n == 0 then 0.0 else
    ResidualEnergy(a, x, n - 1) + Square(Residual(a, x, n - 1, |a|))
  }

  /** Its product sum with the signal shifted by j. */
  function WithSignal(a: seq<real>, x: seq<real>, j: int, n: nat): real {
    if n == 0 then 0.0 else
    WithSignal(a, x, j, n - 1) + Times(Residual(a, x, n - 1, |a|), Sample(x, n - 1 - j))
  }

  /** The sum of a[i] * Cross(i, j) over the first m taps. */
  function TapCross(a: seq<real>, x: seq<real>, j: int, m: nat, n: nat): real
    requires m <= |a|
  {
    if m == 0 then 0.0 else TapCross(a, x, j, m - 1, n) + Times(a[m - 1], Cross(x, m - 1, j, n))
  }

  /** The sum of a[j] times the product sum with shift j over the first m taps. */
  function TapSignal(a: seq<real>, x: seq<real>, m: nat, n: nat): real
    requires m <= |a|
  {
    if m == 0 then 0.0 else TapSignal(a, x, m - 1, n) + Times(a[m - 1], WithSignal(a, x, m - 1, n))
  }

  lemma Distributes(x: real, y: real, z: real)
    ensures Times(x, y + z) == Times(x, y) + Times(x, z) && Times(y + z, x) == Times(y, x) + Times(z, x)
  {
  }

  lemma Associates(x: real, y: real, z: real)
    ensures Times(Times(x, y), z) == Times(x, Times(y, z)) && Times(z, Times(x, y)) == Times(x, Times(z, y))
  {
  }

  /** One more time adds to every product sum of the taps. */
  lemma {:induction false} TapCrossStep(a: seq<real>, x: seq<real>, j: int, m: nat, n: nat)
    requires m <= |a| && n > 0
    ensures TapCross(a, x, j, m, n) == TapCross(a, x, j, m, n - 1) + Times(Residual(a, x, n - 1, m), Sample(x, n - 1 - j))
  {
    hide Times, Sample;
    var s := Sample(x, n - 1 - j);
    if m == 0 {
      ZeroTimes(s);
    } else {
      TapCrossStep(a, x, j, m - 1, n);
      var u := Sample(x, n - 1 - (m - 1));
      Distributes(a[m - 1], Cross(x, m - 1, j, n - 1), Times(u, s));
      Distributes(s, Residual(a, x, n - 1, m - 1), Times(a[m - 1], u));
      Associates(a[m - 1], u, s);
    }
  }

  lemma {:induction false} TapCrossNone(a: seq<real>, x: seq<real>, j: int, m: nat)
    requires m <= |a|
    ensures TapCross(a, x, j, m, 0) == 0.0
  {
    if m > 0 {
      TapCrossNone(a, x, j, m - 1);
    }
  }

  lemma {:induction false} SignalIsTapCross(a: seq<real>, x: seq<real>, j: int, n: nat)
    ensures WithSignal(a, x, j, n) == TapCross(a, x, j, |a|, n)
  {
    hide Times, Sample, Residual;
    if n == 0 {
      TapCrossNone(a, x, j, |a|);
    } else {
      SignalIsTapCross(a, x, j, n - 1);
      TapCrossStep(a, x, j, |a|, n);
    }
  }

  lemma {:induction false} TapSignalStep(a: seq<real>, x: seq<real>, m: nat, n: nat)
    requires m <= |a| && n > 0
    ensures TapSignal(a, x, m, n)
            == TapSignal(a, x, m, n - 1) + Times(Residual(a, x, n - 1, |a|), Residual(a, x, n - 1, m))
  {
    hide Times, Sample;
    var y := Residual(a, x, n - 1, |a|);
    if m == 0 {
      ZeroTimes(y);
    } else {
      TapSignalStep(a, x, m - 1, n);
      var u := Sample(x, n - 1 - (m - 1));
      Distributes(a[m - 1], WithSignal(a, x, m - 1, n - 1), Times(y, u));
      Distributes(y, Residual(a, x, n - 1, m - 1), Times(a[m - 1], u));
      Associates(a[m - 1], u, y);
      TimesCommutes(y, u);
    }
  }

  lemma {:induction false} TapSignalNone(a: seq<real>, x: seq<real>, m: nat)
    requires m <= |a|
    ensures TapSignal(a, x, m, 0) == 0.0
  {
    if m > 0 {
      TapSignalNone(a, x, m - 1);
    }
  }

  lemma SquareIs(x: real)
    ensures Times(x, x) == Square(x)
  {
  }

  /** The energy of the residual, tap by tap. */
  lemma {:induction false} EnergyByTaps(a: seq<real>, x: seq<real>, n: nat)
    ensures ResidualEnergy(a, x, n) == TapSignal(a, x, |a|, n)
  {
    hide Times, Square, Residual;
    if n == 0 {
      TapSignalNone(a, x, |a|);
    } else {
      EnergyByTaps(a, x, n - 1);
      TapSignalStep(a, x, |a|, n);
      SquareIs(Residual(a, x, n - 1, |a|));
    }
  }

  /** A product sum of the taps is a left-hand side of the normal equations. */
  lemma {:induction false} TapCrossIsCorrelated(a: seq<real>, x: seq<real>, r: seq<real>, j: nat, m: nat)
    requires IsAutocorrelation(r, x) && m <= |a| <= |r| && j < |a|
    ensures TapCross(a, x, j, m, |x| + |a|) == Correlated(a, r, j, 0, m)
  {
    hide Cross;
    if m > 0 {
      TapCrossIsCorrelated(a, x, r, j, m - 1);
      CrossIsAt(x, r, m - 1, j, |a|);
    }
  }

  // ---------- The quadratic form of a sequence of lags ----------

  /** The sum of b[j] times the left-hand side of equation j over the first n equations. */
  function FormTo(b: seq<real>, r: seq<real>, n: nat): real
    requires n <= |b|
  {
    if n == 0 then 0.0 else FormTo(b, r, n - 1) + Times(b[n - 1], Correlated(b, r, n - 1, 0, |b|))
  }

  /** The sum of b[i] * b[j] * r[|i - j|] over all i and j. */
  function Form(b: seq<real>, r: seq<real>): real {
    FormTo(b, r, |b|)
  }

  /** For a solution of the normal equations only the first term is left. */
  lemma {:induction false} FormOfSolution(a: seq<real>, r: seq<real>, error: real, n: nat)
    requires 0 < n <= |a| && Solves(a, r, error)
    ensures FormTo(a, r, n) == error
  {
    hide Correlated;
    if n == 1 {
      assert FormTo(a, r, 0) == 0.0;
    } else {
      FormOfSolution(a, r, error, n - 1);
    }
  }

  lemma {:induction false} FormByTaps(a: seq<real>, x: seq<real>, r: seq<real>, m: nat)
    requires IsAutocorrelation(r, x) && m <= |a| <= |r|
    ensures TapSignal(a, x, m, |x| + |a|) == FormTo(a, r, m)
  {
    hide TapCross, Correlated, WithSignal;
    if m > 0 {
      FormByTaps(a, x, r, m - 1);
      SignalIsTapCross(a, x, m - 1, |x| + |a|);
      TapCrossIsCorrelated(a, x, r, m - 1, |a|);
    }
  }

  /** The form of an autocorrelation is the energy of the filtered signal. */
  lemma FormIsEnergy(a: seq<real>, x: seq<real>, r: seq<real>)
    requires IsAutocorrelation(r, x) && |a| <= |r|
    ensures Form(a, r) == ResidualEnergy(a, x, |x| + |a|)
  {
    EnergyByTaps(a, x, |x| + |a|);
    FormByTaps(a, x, r, |a|);
  }

  /** The error of a solution is the energy of its prediction residual. */
  lemma ErrorIsResidualEnergy(a: seq<real>, x: seq<real>, r: seq<real>, error: real)
    requires IsAutocorrelation(r, x) && |a| <= |r| && Solves(a, r, error)
    ensures error == ResidualEnergy(a, x, |x| + |a|)
  {
    FormIsEnergy(a, x, r);
    FormOfSolution(a, r, error, |a|);
  }

  // ---------- It is positive ----------

  /** The signal is not silent, and t is its first sound. */
  predicate FirstSound(x: seq<real>, t: nat) {
    t < |x| && x[t] != 0.0 && forall i :: 0 <= i < t ==> x[i] == 0.0
  }

  /** At the first sound no predictor has anything to go by. */
  lemma {:induction false} ResidualAtFirst(a: seq<real>, x: seq<real>, t: nat, m: nat)
    requires 0 < m <= |a| && a[0] == 1.0 && FirstSound(x, t)
    ensures Residual(a, x, t, m) == x[t]
  {
    if m > 1 {
      ResidualAtFirst(a, x, t, m - 1);
    } else {
      assert Residual(a, x, t, 0) == 0.0;
    }
  }

  lemma {:induction false} EnergyAtLeast(a: seq<real>, x: seq<real>, t: nat, n: nat)
    ensures ResidualEnergy(a, x, n) >= 0.0
    ensures t < n ==> ResidualEnergy(a, x, n) >= Square(Residual(a, x, t, |a|))
  {
    hide Square, Residual;
    if n > 0 {
      EnergyAtLeast(a, x, t, n - 1);
    }
  }

  lemma ProductIsPositive(x: real, y: real)
    requires x > 0.0 && y > 0.0
    ensures Times(x, y) > 0.0
  {
  }

  lemma SquareIsPositive(x: real)
    requires x != 0.0
    ensures Square(x) > 0.0
  {
    ProductIsPositive(Abs(x), Abs(x));
    assert Times(Abs(x), Abs(x)) == Square(x);
  }

  lemma {:induction false} FirstSoundExists(x: seq<real>, n: nat) returns (t: nat)
    requires n <= |x| && exists i :: 0 <= i < n && x[i] != 0.0
    ensures FirstSound(x, t)
  {
    if forall i :: 0 <= i < n - 1 ==> x[i] == 0.0 {
      t := n - 1;
    } else {
      t := FirstSoundExists(x, n - 1);
    }
  }

  // ---------- The recursion on positive forms ----------

  /** No form of order up to m is negative. */
  ghost predicate Semidefinite(r: seq<real>, m: nat) {
    forall b: seq<real> :: |b| <= m + 1 ==> Form(b, r) >= 0.0
  }

  /** No predictor of order up to m has the form 0. */
  ghost predicate Definite(r: seq<real>, m: nat) {
    forall b: seq<real> :: 0 < |b| <= m + 1 && b[0] == 1.0 ==> Form(b, r) > 0.0
  }

  lemma {:induction false} NeverZero(r: seq<real>, m: nat)
    requires m < |r| && Definite(r, m)
    ensures Regular(r, m) && Predict(r, m).error > 0.0
  {
    hide Predict, Correlated, Form;
    if m > 0 {
      NeverZero(r, m - 1);
    }
    PredictIsCorrect(r, m);
    var p := Predict(r, m);
    assert Form(p.a, r) > 0.0;
    FormOfSolution(p.a, r, p.error, |p.a|);
    FormIs(p.a, r);
  }

  lemma FormIs(b: seq<real>, r: seq<real>)
    ensures Form(b, r) == FormTo(b, r, |b|)
  {
  }

  lemma LargeReflection(e: real, k: real)
    requires e > 0.0 && (k >= 1.0 || k <= -1.0)
    ensures e * (1.0 - k * k) <= 0.0
  {
    assert k * k >= 1.0;
    assert e * (k * k - 1.0) >= 0.0;
  }

  /** On a definite sequence every error is positive and every reflection coefficient is below 1 in magnitude. */
  lemma {:induction false} DefiniteIsRegular(r: seq<real>, m: nat)
    requires m < |r| && Definite(r, m)
    ensures Regular(r, m) && Predict(r, m).error > 0.0
    ensures forall n :: 0 <= n < m ==> -1.0 < Predict(r, m).k[n] < 1.0
  {
    hide Correlated, Form, Raised, Quotient;
    NeverZero(r, m);
    if m > 0 {
      DefiniteIsRegular(r, m - 1);
      var p := Predict(r, m - 1);
      NextFollows(p, r);
      var k := Predict(r, m).k[m - 1];
      assert Predict(r, m) == Next(p, r);
      if k >= 1.0 || k <= -1.0 {
        LargeReflection(p.error, k);
      }
    }
  }

  // ---------- Autocorrelations ----------

  /** A silent signal has no energy at lag 0. */
  lemma {:induction false} SilenceHasNoEnergy(x: seq<real>, n: nat)
    requires n <= |x| && forall i :: 0 <= i < n ==> x[i] == 0.0
    ensures LaggedTo(x, 0, n) == 0.0
  {
    if n > 0 {
      SilenceHasNoEnergy(x, n - 1);
    }
  }

  lemma SoundExists(r: seq<real>, x: seq<real>) returns (t: nat)
    requires IsAutocorrelation(r, x) && 0 < |r| && r[0] != 0.0
    ensures FirstSound(x, t)
  {
    if forall i :: 0 <= i < |x| ==> x[i] == 0.0 {
      SilenceHasNoEnergy(x, |x|);
      assert false;
    }
    t := FirstSoundExists(x, |x|);
  }

  lemma AutocorrelationIsSemidefinite(r: seq<real>, x: seq<real>, m: nat)
    requires IsAutocorrelation(r, x) && m < |r|
    ensures Semidefinite(r, m)
  {
    hide Form, ResidualEnergy;
    forall b: seq<real> | |b| <= m + 1
      ensures Form(b, r) >= 0.0
    {
      FormIsEnergy(b, x, r);
      EnergyAtLeast(b, x, 0, |x| + |b|);
    }
  }

  lemma AutocorrelationIsDefinite(r: seq<real>, x: seq<real>, m: nat)
    requires IsAutocorrelation(r, x) && m < |r| && r[0] != 0.0
    ensures Definite(r, m)
  {
    hide Form, Residual, ResidualEnergy, Square;
    var t := SoundExists(r, x);
    SquareIsPositive(x[t]);
    forall b: seq<real> | 0 < |b| <= m + 1 && b[0] == 1.0
      ensures Form(b, r) > 0.0
    {
      FormIsEnergy(b, x, r);
      ResidualAtFirst(b, x, t, |b|);
      EnergyAtLeast(b, x, t, |x| + |b|);
    }
  }

  /**
   On the autocorrelation of any signal that is not silent, the recursion meets no zero error,
   every error stays positive and every reflection coefficient is below 1 in magnitude.
   */
  lemma AutocorrelationIsRegular(r: seq<real>, x: seq<real>, m: nat)
    requires IsAutocorrelation(r, x) && m < |r| && r[0] != 0.0
    ensures Regular(r, m) && Predict(r, m).error > 0.0
    ensures forall n :: 0 <= n < m ==> -1.0 < Predict(r, m).k[n] < 1.0
  {
    AutocorrelationIsDefinite(r, x, m);
    DefiniteIsRegular(r, m);
  }
}
