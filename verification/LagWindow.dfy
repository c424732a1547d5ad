/**
 The lag window between autocorr and levdurb. When the window itself is never negative as a
 quadratic form, the windowed autocorrelation of a signal is as safe for the recursion as the
 bare one: lag by lag, the product of the two is a sum of forms of the window.
 */
module LagWindow {
  import opened Autocorrelation
  import opened LevinsonDurbin
  import opened Reals

  /** window: lag by lag. */
  function Windowed(x: seq<real>, w: seq<real>): (z: seq<real>)
    requires |x| == |w|
    ensures |z| == |x|
  {
    seq(|x|, k requires 0 <= k < |x| => Times(x[k], w[k]))
  }

  /** window. */
  method Window(x: seq<real>, y: seq<real>) returns (z: array<real>)
    requires |x| == |y|
    ensures fresh(z) && z[..] == Windowed(x, y)
  {
    hide Times;
    z := new real[|x|];
    for i := 0 to |x|
      invariant forall k {:trigger z[k]} :: 0 <= k < i ==> z[k] == Times(x[k], y[k])
    {
      z[i] := Times(x[i], y[i]);
    }
  }

  // ---------- The form of a product of lags ----------

  /** The taps, each with the sample it meets at time t. */
  function Met(a: seq<real>, x: seq<real>, t: int): (b: seq<real>)
    ensures |b| == |a|
  {
    seq(|a|, i requires 0 <= i < |a| => Times(a[i], Sample(x, t - i)))
  }

  /** The forms of the window on what the taps meet, over the first n times. */
  function FormsMet(a: seq<real>, x: seq<real>, w: seq<real>, n: nat): real {
    if n == 0 then 0.0 else FormsMet(a, x, w, n - 1) + Form(Met(a, x, n - 1), w)
  }

  /** The sum of a[i] * w[|i - j|] times the product sum of shifts i and j over the first m taps and n times. */
  function Row(a: seq<real>, x: seq<real>, w: seq<real>, j: nat, m: nat, n: nat): real
    requires m <= |a|
  {
    if m == 0 then 0.0
    else Row(a, x, w, j, m - 1, n) + Times(a[m - 1], Times(At(w, m - 1 - j), Cross(x, m - 1, j, n)))
  }

  function Rows(a: seq<real>, x: seq<real>, w: seq<real>, m: nat, n: nat): real
    requires m <= |a|
  {
    if m == 0 then 0.0 else Rows(a, x, w, m - 1, n) + Times(a[m - 1], Row(a, x, w, m - 1, |a|, n))
  }

  lemma Rearranged(a: real, w: real, u: real, s: real)
    ensures Times(a, Times(w, Times(u, s))) == Times(s, Times(Times(a, u), w))
  {
  }

  lemma {:induction false} RowNone(a: seq<real>, x: seq<real>, w: seq<real>, j: nat, m: nat)
    requires m <= |a|
    ensures Row(a, x, w, j, m, 0) == 0.0
  {
    hide Times;
    if m > 0 {
      RowNone(a, x, w, j, m - 1);
      ZeroTimes(At(w, m - 1 - j));
      ZeroTimes(a[m - 1]);
    }
  }

  lemma {:induction false} RowsNone(a: seq<real>, x: seq<real>, w: seq<real>, m: nat)
    requires m <= |a|
    ensures Rows(a, x, w, m, 0) == 0.0
  {
    hide Times, Row;
    if m > 0 {
      RowsNone(a, x, w, m - 1);
      RowNone(a, x, w, m - 1, |a|);
      ZeroTimes(a[m - 1]);
    }
  }

  lemma CorrelatedStep(b: seq<real>, w: seq<real>, j: int, m: nat)
    requires 0 < m <= |b|
    ensures Correlated(b, w, j, 0, m) == Correlated(b, w, j, 0, m - 1) + Times(b[m - 1], At(w, m - 1 - j))
  {
  }

  lemma {:induction false} RowStep(a: seq<real>, x: seq<real>, w: seq<real>, j: nat, m: nat, n: nat)
    requires m <= |a| && n > 0
    ensures Row(a, x, w, j, m, n)
            == Row(a, x, w, j, m, n - 1) + Times(Sample(x, n - 1 - j), Correlated(Met(a, x, n - 1), w, j, 0, m))
  {
    hide Times, Sample, Correlated, At;
    var s, b := Sample(x, n - 1 - j), Met(a, x, n - 1);
    if m == 0 {
      NothingCorrelated(b, w, j);
      ZeroTimes(s);
    } else {
      RowStep(a, x, w, j, m - 1, n);
      CorrelatedStep(b, w, j, m);
      var u, v := Sample(x, n - 1 - (m - 1)), At(w, m - 1 - j);
      Distributes(v, Cross(x, m - 1, j, n - 1), Times(u, s));
      Distributes(a[m - 1], Times(v, Cross(x, m - 1, j, n - 1)), Times(v, Times(u, s)));
      Rearranged(a[m - 1], v, u, s);
      Distributes(s, Correlated(b, w, j, 0, m - 1), Times(b[m - 1], v));
    }
  }

  lemma NothingCorrelated(b: seq<real>, w: seq<real>, j: int)
    ensures Correlated(b, w, j, 0, 0) == 0.0
  {
  }

  lemma {:induction false} RowsStep(a: seq<real>, x: seq<real>, w: seq<real>, m: nat, n: nat)
    requires m <= |a| && n > 0
    ensures Rows(a, x, w, m, n) == Rows(a, x, w, m, n - 1) + FormTo(Met(a, x, n - 1), w, m)
  {
    hide Times, Sample, Correlated, Row;
    if m > 0 {
      RowsStep(a, x, w, m - 1, n);
      var b := Met(a, x, n - 1);
      var s, c := Sample(x, n - 1 - (m - 1)), Correlated(b, w, m - 1, 0, |a|);
      RowStep(a, x, w, m - 1, |a|, n);
      Distributes(a[m - 1], Row(a, x, w, m - 1, |a|, n - 1), Times(s, c));
      Associates(a[m - 1], s, c);
    }
  }

  lemma {:induction false} RowsAreForms(a: seq<real>, x: seq<real>, w: seq<real>, n: nat)
    ensures Rows(a, x, w, |a|, n) == FormsMet(a, x, w, n)
  {
    hide Met, Rows, FormTo;
    if n == 0 {
      RowsNone(a, x, w, |a|);
    } else {
      RowsAreForms(a, x, w, n - 1);
      RowsStep(a, x, w, |a|, n);
    }
  }

  lemma WindowedAt(r: seq<real>, w: seq<real>, n: int)
    requires |r| == |w| && -|r| < n < |r|
    ensures At(Windowed(r, w), n) == Times(At(w, n), At(r, n))
  {
  }

  lemma {:induction false} RowIsCorrelated(a: seq<real>, x: seq<real>, r: seq<real>, w: seq<real>, j: nat, m: nat)
    requires IsAutocorrelation(r, x) && m <= |a| <= |r| == |w| && j < |a|
    ensures Row(a, x, w, j, m, |x| + |a|) == Correlated(a, Windowed(r, w), j, 0, m)
  {
    hide Cross, Times, Windowed, At, Correlated;
    if m == 0 {
      NothingCorrelated(a, Windowed(r, w), j);
    } else {
      RowIsCorrelated(a, x, r, w, j, m - 1);
      CrossIsAt(x, r, m - 1, j, |a|);
      WindowedAt(r, w, m - 1 - j);
      CorrelatedStep(a, Windowed(r, w), j, m);
    }
  }

  lemma {:induction false} RowsAreForm(a: seq<real>, x: seq<real>, r: seq<real>, w: seq<real>, m: nat)
    requires IsAutocorrelation(r, x) && m <= |a| <= |r| == |w|
    ensures Rows(a, x, w, m, |x| + |a|) == FormTo(a, Windowed(r, w), m)
  {
    hide Row, Windowed, Correlated, Times;
    if m > 0 {
      RowsAreForm(a, x, r, w, m - 1);
      RowIsCorrelated(a, x, r, w, m - 1, |a|);
    }
  }

  /** The form of a windowed autocorrelation is the sum, over all times, of the window's form on what the taps meet. */
  lemma WindowedForm(a: seq<real>, x: seq<real>, r: seq<real>, w: seq<real>)
    requires IsAutocorrelation(r, x) && |a| <= |r| == |w|
    ensures Form(a, Windowed(r, w)) == FormsMet(a, x, w, |x| + |a|)
  {
    hide FormsMet, FormTo, IsAutocorrelation, Rows, Windowed;
    RowsAreForm(a, x, r, w, |a|);
    RowsAreForms(a, x, w, |x| + |a|);
  }

  // ---------- It is positive ----------

  lemma {:induction false} FormsAtLeast(a: seq<real>, x: seq<real>, w: seq<real>, t: nat, n: nat)
    requires forall b: seq<real> :: |b| == |a| ==> Form(b, w) >= 0.0
    ensures FormsMet(a, x, w, n) >= 0.0
    ensures t < n ==> FormsMet(a, x, w, n) >= Form(Met(a, x, t), w)
  {
    hide Form, Met;
    if n > 0 {
      FormsAtLeast(a, x, w, t, n - 1);
    }
  }

  lemma {:induction false} OneTapCorrelated(b: seq<real>, w: seq<real>, m: nat)
    requires 0 < m <= |b| && forall i :: 1 <= i < |b| ==> b[i] == 0.0
    ensures Correlated(b, w, 0, 0, m) == Times(b[0], At(w, 0))
  {
    hide Correlated, At;
    if m > 1 {
      OneTapCorrelated(b, w, m - 1);
    } else {
      NothingCorrelated(b, w, 0);
    }
    CorrelatedStep(b, w, 0, m);
  }

  lemma {:induction false} OneTapForm(b: seq<real>, w: seq<real>, m: nat)
    requires 0 < m <= |b| && forall i :: 1 <= i < |b| ==> b[i] == 0.0
    ensures FormTo(b, w, m) == Times(b[0], Times(b[0], At(w, 0)))
  {
    hide Correlated, At, Times;
    if m > 1 {
      OneTapForm(b, w, m - 1);
      ZeroTimes(Correlated(b, w, m - 1, 0, |b|));
    } else {
      OneTapCorrelated(b, w, |b|);
      assert FormTo(b, w, 0) == 0.0;
    }
  }

  /** At the first sound the first tap meets it and the others meet silence. */
  lemma FormAtFirst(a: seq<real>, x: seq<real>, w: seq<real>, t: nat)
    requires 0 < |a| && a[0] == 1.0 && 0 < |w| && w[0] > 0.0 && FirstSound(x, t)
    ensures Form(Met(a, x, t), w) > 0.0
  {
    var b := Met(a, x, t);
    assert b[0] == x[t];
    OneTapForm(b, w, |b|);
    SquareIsPositive(x[t]);
    ProductIsPositive(Square(x[t]), w[0]);
    assert Times(b[0], Times(b[0], At(w, 0))) == Times(Square(x[t]), w[0]);
  }

  lemma WindowedIsDefinite(r: seq<real>, x: seq<real>, w: seq<real>, m: nat)
    requires IsAutocorrelation(r, x) && m < |r| == |w| && r[0] != 0.0 && w[0] > 0.0 && Semidefinite(w, m)
    ensures Definite(Windowed(r, w), m)
  {
    hide Form, FormsMet, Met, Windowed;
    var t := SoundExists(r, x);
    forall a: seq<real> | 0 < |a| <= m + 1 && a[0] == 1.0
      ensures Form(a, Windowed(r, w)) > 0.0
    {
      WindowedForm(a, x, r, w);
      FormsAtLeast(a, x, w, t, |x| + |a|);
      FormAtFirst(a, x, w, t);
    }
  }

  /**
   What levdurb gets in the codec: the autocorrelation of a signal that is not silent under a
   lag window whose forms are not negative. No error is zero, all are positive, and every
   reflection coefficient is below 1 in magnitude.
   */
  lemma WindowedIsRegular(r: seq<real>, x: seq<real>, w: seq<real>, m: nat)
    requires IsAutocorrelation(r, x) && m < |r| == |w| && r[0] != 0.0 && w[0] > 0.0 && Semidefinite(w, m)
    ensures Regular(Windowed(r, w), m) && Predict(Windowed(r, w), m).error > 0.0
    ensures forall n :: 0 <= n < m ==> -1.0 < Predict(Windowed(r, w), m).k[n] < 1.0
  {
    WindowedIsDefinite(r, x, w, m);
    DefiniteIsRegular(Windowed(r, w), m);
  }

  // ---------- Which windows ----------

  /** An autocorrelation with lag 0 raised, as by white noise. */
  predicate IsRaised(w: seq<real>, r: seq<real>) {
    |w| == |r| > 0 && w[0] >= r[0] && forall k :: 1 <= k < |w| ==> w[k] == r[k]
  }

  lemma {:induction false} RaisedCorrelated(b: seq<real>, w: seq<real>, r: seq<real>, j: nat, m: nat)
    requires IsRaised(w, r) && m <= |b| && j < |b|
    ensures Correlated(b, w, j, 0, m) == Correlated(b, r, j, 0, m) + if j < m then Times(b[j], w[0] - r[0]) else 0.0
  {
    hide Correlated, Times;
    if m == 0 {
      NothingCorrelated(b, w, j);
      NothingCorrelated(b, r, j);
    } else {
      RaisedCorrelated(b, w, r, j, m - 1);
      CorrelatedStep(b, w, j, m);
      CorrelatedStep(b, r, j, m);
      if j == m - 1 {
        Distributes(b[j], r[0], w[0] - r[0]);
      } else {
        assert At(w, m - 1 - j) == At(r, m - 1 - j);
      }
    }
  }

  lemma {:induction false} RaisedForm(b: seq<real>, w: seq<real>, r: seq<real>, n: nat)
    requires IsRaised(w, r) && n <= |b|
    ensures FormTo(b, w, n) >= FormTo(b, r, n)
  {
    hide Correlated, Times;
    if n > 0 {
      RaisedForm(b, w, r, n - 1);
      RaisedCorrelated(b, w, r, n - 1, |b|);
      Distributes(b[n - 1], Correlated(b, r, n - 1, 0, |b|), Times(b[n - 1], w[0] - r[0]));
      NoiseAdds(b[n - 1], w[0] - r[0]);
    }
  }

  lemma NoiseAdds(b: real, c: real)
    requires c >= 0.0
    ensures Times(b, Times(b, c)) >= 0.0
  {
    assert b * b >= 0.0;
    assert b * (b * c) == (b * b) * c;
  }

  /** Raising lag 0 keeps a window semidefinite, so an autocorrelation with white noise is one. */
  lemma RaisedIsSemidefinite(w: seq<real>, r: seq<real>, m: nat)
    requires IsRaised(w, r) && Semidefinite(r, m)
    ensures Semidefinite(w, m)
  {
    hide FormTo;
    forall b: seq<real> | |b| <= m + 1
      ensures Form(b, w) >= 0.0
    {
      RaisedForm(b, w, r, |b|);
      assert Form(b, r) >= 0.0;
    }
  }
}
