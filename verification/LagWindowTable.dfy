/**
 The lag window of the codec has no negative form. It is close to a sum of two cosines, which
 have none, and what is missing at the lags is made up for by the white noise at lag 0.
 */
module LagWindowTable {
  import opened Autocorrelation
  import opened Constants
  import opened LagWindow
  import opened LevinsonDurbin
  import opened Reals

  /** lpc_lagwinTbl. */
  function LagWin(): (w: seq<real>)
    ensures |w| == LPC_FILTERORDER + 1
  {
    [1.000100, 0.998890, 0.995569, 0.990057, 0.982392, 0.972623, 0.960816, 0.947047, 0.931405, 0.913989, 0.894909]
  }

  // ---------- Sums and multiples ----------

  /** w is u plus c times v. */
  predicate IsSum(w: seq<real>, u: seq<real>, c: real, v: seq<real>) {
    |w| == |u| == |v| && forall k {:trigger w[k]} :: 0 <= k < |w| ==> w[k] == u[k] + Times(c, v[k])
  }

  lemma {:induction false} CorrelatedSum(b: seq<real>, w: seq<real>, u: seq<real>, c: real, v: seq<real>, j: int, m: nat)
    requires IsSum(w, u, c, v) && m <= |b|
    ensures Correlated(b, w, j, 0, m) == Correlated(b, u, j, 0, m) + Times(c, Correlated(b, v, j, 0, m))
  {
    hide Correlated, Times;
    if m == 0 {
      NothingCorrelated(b, w, j);
      NothingCorrelated(b, u, j);
      NothingCorrelated(b, v, j);
      ZeroTimes(c);
    } else {
      CorrelatedSum(b, w, u, c, v, j, m - 1);
      CorrelatedStep(b, w, j, m);
      CorrelatedStep(b, u, j, m);
      CorrelatedStep(b, v, j, m);
      ZeroTimes(c);
      Distributes(b[m - 1], At(u, m - 1 - j), Times(c, At(v, m - 1 - j)));
      Distributes(c, Correlated(b, v, j, 0, m - 1), Times(b[m - 1], At(v, m - 1 - j)));
      Associates(c, At(v, m - 1 - j), b[m - 1]);
    }
  }

  lemma {:induction false} FormSum(b: seq<real>, w: seq<real>, u: seq<real>, c: real, v: seq<real>, n: nat)
    requires IsSum(w, u, c, v) && n <= |b|
    ensures FormTo(b, w, n) == FormTo(b, u, n) + Times(c, FormTo(b, v, n))
  {
    hide Correlated, Times, IsSum;
    if n == 0 {
      ZeroTimes(c);
    } else {
      FormSum(b, w, u, c, v, n - 1);
      CorrelatedSum(b, w, u, c, v, n - 1, |b|);
      var x, y := Correlated(b, u, n - 1, 0, |b|), Correlated(b, v, n - 1, 0, |b|);
      Distributes(b[n - 1], x, Times(c, y));
      Distributes(c, FormTo(b, v, n - 1), Times(b[n - 1], y));
      Associates(c, y, b[n - 1]);
    }
  }

  lemma SumIsSemidefinite(w: seq<real>, u: seq<real>, c: real, v: seq<real>, m: nat)
    requires IsSum(w, u, c, v) && c >= 0.0 && Semidefinite(u, m) && Semidefinite(v, m)
    ensures Semidefinite(w, m)
  {
    hide FormTo, IsSum;
    forall b: seq<real> | |b| <= m + 1
      ensures Form(b, w) >= 0.0
    {
      FormSum(b, w, u, c, v, |b|);
      assert Form(b, u) >= 0.0 && Form(b, v) >= 0.0;
    }
  }

  // ---------- Cosines ----------

  /** Cosine, and sine over the sine of the angle, of k times the angle whose cosine is x. */
  function Turn(x: real, k: nat): (real, real) {
    if k == 0 then (1.0, 0.0) else Rotated(x, 1.0 - x * x, Turn(x, k - 1))
  }

  function Rotated(x: real, s: real, p: (real, real)): (real, real) {
    (x * p.0 - s * p.1, p.0 + x * p.1)
  }

  function Cosines(x: real, n: nat): (w: seq<real>)
    ensures |w| == n
  {
    seq(n, k requires 0 <= k < n => Turn(x, k).0)
  }

  lemma Rotation(x: real, s: real, t: real, v: real, t': real, v': real)
    requires s == 1.0 - x * x
    ensures (x * t - s * v) * (x * t' - s * v') + s * ((t + x * v) * (t' + x * v')) == t * t' + s * (v * v')
  {
    assert (x * t - s * v) * (x * t' - s * v') == x * x * (t * t') - x * s * (t * v') - x * s * (v * t') + s * s * (v * v');
    assert (t + x * v) * (t' + x * v') == t * t' + x * (t * v') + x * (v * t') + x * x * (v * v');
    assert x * x * (t * t') + s * (t * t') == t * t' by {
      assert (x * x + s) * (t * t') == t * t';
    }
    assert s * s * (v * v') + s * (x * x * (v * v')) == s * (v * v') by {
      assert s * ((s + x * x) * (v * v')) == s * (v * v');
    }
  }

  /** What two turns have in common: the cosine of their difference. */
  function Common(s: real, p: (real, real), q: (real, real)): real {
    Times(p.0, q.0) + Times(s, Times(p.1, q.1))
  }

  lemma RotationKeepsCommon(x: real, s: real, p: (real, real), q: (real, real))
    requires s == 1.0 - x * x
    ensures Common(s, Rotated(x, s, p), Rotated(x, s, q)) == Common(s, p, q)
  {
    Rotation(x, s, p.0, p.1, q.0, q.1);
  }

  lemma CommonWithNone(s: real, p: (real, real))
    ensures Common(s, p, (1.0, 0.0)) == p.0
  {
  }

  lemma {:induction false} CosineOfDifference(x: real, i: nat, j: nat)
    requires j <= i
    ensures Turn(x, i - j).0 == Common(1.0 - x * x, Turn(x, i), Turn(x, j))
  {
    hide Common, Rotated;
    if j > 0 {
      CosineOfDifference(x, i - 1, j - 1);
      RotationKeepsCommon(x, 1.0 - x * x, Turn(x, i - 1), Turn(x, j - 1));
    } else {
      CommonWithNone(1.0 - x * x, Turn(x, i));
    }
  }

  lemma CosineOfLag(x: real, n: nat, d: int)
    requires d < n && 0 - d < n
    ensures At(Cosines(x, n), d) == if d >= 0 then Turn(x, d).0 else Turn(x, -d).0
  {
    hide Turn;
  }

  lemma CosineAt(x: real, n: nat, i: nat, j: nat)
    requires i < n && j < n
    ensures At(Cosines(x, n), i - j) == Common(1.0 - x * x, Turn(x, i), Turn(x, j))
  {
    hide Turn, Times, At, Cosines, Common;
    CosineOfLag(x, n, i - j);
    if j <= i {
      CosineOfDifference(x, i, j);
    } else {
      CosineOfDifference(x, j, i);
      CommonSwaps(1.0 - x * x, Turn(x, i), Turn(x, j));
    }
  }

  /** The sum of b[i] times the cosine, or the sine, of i over the first m taps. */
  function Along(b: seq<real>, x: real, m: nat, sine: bool): real
    requires m <= |b|
  {
    if m == 0 then 0.0
    else Along(b, x, m - 1, sine) + Times(b[m - 1], if sine then Turn(x, m - 1).1 else Turn(x, m - 1).0)
  }

  lemma {:induction false} CosineCorrelated(b: seq<real>, x: real, n: nat, j: nat, m: nat)
    requires m <= |b| <= n && j < n
    ensures Correlated(b, Cosines(x, n), j, 0, m)
            == Common(1.0 - x * x, (Along(b, x, m, false), Along(b, x, m, true)), Turn(x, j))
  {
    hide Correlated, Times, Turn, Cosines;
    var s, q, w := 1.0 - x * x, Turn(x, j), Cosines(x, n);
    if m == 0 {
      NothingCorrelated(b, w, j);
      ZeroTimes(q.0);
      ZeroTimes(q.1);
      ZeroTimes(s);
    } else {
      CosineCorrelated(b, x, n, j, m - 1);
      CorrelatedStep(b, w, j, m);
      CosineAt(x, n, m - 1, j);
      CommonGrows(s, Along(b, x, m - 1, false), Along(b, x, m - 1, true), b[m - 1], Turn(x, m - 1), q);
    }
  }

  lemma CommonGrows(s: real, c: real, d: real, b: real, p: (real, real), q: (real, real))
    ensures Common(s, (c + Times(b, p.0), d + Times(b, p.1)), q) == Common(s, (c, d), q) + Times(b, Common(s, p, q))
  {
    hide Times;
    Distributes(q.0, c, Times(b, p.0));
    Distributes(q.1, d, Times(b, p.1));
    Distributes(s, Times(d, q.1), Times(Times(b, p.1), q.1));
    Distributes(b, Times(p.0, q.0), Times(s, Times(p.1, q.1)));
    Associates(b, p.0, q.0);
    Associates(b, p.1, q.1);
    Associates(s, Times(p.1, q.1), b);
    TimesCommutes(b, Times(p.1, q.1));
    TimesCommutes(b, Times(s, Times(p.1, q.1)));
    Associates(s, b, Times(p.1, q.1));
    Associates(b, s, Times(p.1, q.1));
    Swap(s, b, Times(p.1, q.1));
  }

  lemma Swap(s: real, b: real, z: real)
    ensures Times(s, Times(b, z)) == Times(b, Times(s, z))
  {
  }

  lemma {:induction false} CosineForm(b: seq<real>, x: real, n: nat, m: nat)
    requires m <= |b| <= n
    ensures FormTo(b, Cosines(x, n), m)
            == Common(1.0 - x * x, (Along(b, x, |b|, false), Along(b, x, |b|, true)),
                      (Along(b, x, m, false), Along(b, x, m, true)))
  {
    hide Correlated, Times, Turn, Cosines;
    var s, c, d := 1.0 - x * x, Along(b, x, |b|, false), Along(b, x, |b|, true);
    if m == 0 {
      ZeroTimes(c);
      ZeroTimes(d);
      ZeroTimes(s);
    } else {
      CosineForm(b, x, n, m - 1);
      CosineCorrelated(b, x, n, m - 1, |b|);
      CommonGrows(s, Along(b, x, m - 1, false), Along(b, x, m - 1, true), b[m - 1], Turn(x, m - 1), (c, d));
      CommonSwaps(s, (c, d), (Along(b, x, m, false), Along(b, x, m, true)));
      CommonSwaps(s, (c, d), (Along(b, x, m - 1, false), Along(b, x, m - 1, true)));
      CommonSwaps(s, (c, d), Turn(x, m - 1));
    }
  }

  lemma CommonSwaps(s: real, p: (real, real), q: (real, real))
    ensures Common(s, p, q) == Common(s, q, p)
  {
    hide Times;
    TimesCommutes(p.0, q.0);
    TimesCommutes(p.1, q.1);
  }

  lemma CommonIsPositive(s: real, p: (real, real))
    requires s >= 0.0
    ensures Common(s, p, p) >= 0.0
  {
    SquareIs(p.0);
    SquareIs(p.1);
    assert s * Square(p.1) >= 0.0;
  }

  lemma SineIsReal(x: real)
    requires -1.0 <= x <= 1.0
    ensures 1.0 - x * x >= 0.0
  {
    ProductIsNotNegative(1.0 - x, 1.0 + x);
    assert (1.0 - x) * (1.0 + x) == 1.0 - x * x;
  }

  lemma ProductIsNotNegative(u: real, v: real)
    requires u >= 0.0 && v >= 0.0
    ensures u * v >= 0.0
  {
  }

  /** Cosines have no negative form: it is a sum of two squares. */
  lemma CosinesAreSemidefinite(x: real, m: nat)
    requires -1.0 <= x <= 1.0
    ensures Semidefinite(Cosines(x, m + 1), m)
  {
    hide FormTo, Along, Cosines, Common;
    SineIsReal(x);
    forall b: seq<real> | |b| <= m + 1
      ensures Form(b, Cosines(x, m + 1)) >= 0.0
    {
      CosineForm(b, x, m + 1, |b|);
      CommonIsPositive(1.0 - x * x, (Along(b, x, |b|, false), Along(b, x, |b|, true)));
    }
  }

  // ---------- Corrections of single lags ----------

  /** The autocorrelation of two pulses a lag apart: 2 at lag 0, their sign at that lag. */
  function Pulses(lag: nat, sign: real, n: nat): (w: seq<real>)
    requires 0 < lag
    ensures |w| == n
  {
    seq(n, k requires 0 <= k < n => if k == 0 then 2.0 else if k == lag then sign else 0.0)
  }

  function TwoPulses(lag: nat, sign: real): (y: seq<real>)
    requires 0 < lag
    ensures |y| == lag + 1
  {
    seq(lag + 1, t requires 0 <= t <= lag => if t == 0 then 1.0 else if t == lag then sign else 0.0)
  }

  lemma {:induction false} PulsesLagged(lag: nat, sign: real, k: nat, n: nat)
    requires 0 < lag && (sign == 1.0 || sign == -1.0) && n <= lag + 1
    ensures LaggedTo(TwoPulses(lag, sign), k, n)
            == (if n == 0 then 0.0 else if k == 0 then 1.0 else if k == lag then sign else 0.0)
               + if n == lag + 1 && k == 0 then 1.0 else 0.0
  {
    if n > 0 {
      PulsesLagged(lag, sign, k, n - 1);
    }
  }

  lemma PulsesAreSemidefinite(lag: nat, sign: real, m: nat)
    requires 0 < lag && (sign == 1.0 || sign == -1.0)
    ensures Semidefinite(Pulses(lag, sign, m + 1), m)
  {
    hide LaggedTo, TwoPulses;
    var w, y := Pulses(lag, sign, m + 1), TwoPulses(lag, sign);
    forall k {:trigger w[k]} | 0 <= k < |w|
      ensures w[k] == LaggedTo(y, k, |y|)
    {
      PulsesLagged(lag, sign, k, lag + 1);
    }
    AutocorrelationIsSemidefinite(w, y, m);
  }

  /** How far w and u are apart at lags 1 to n. */
  function Apart(w: seq<real>, u: seq<real>, n: nat): real
    requires n < |w| == |u|
  {
    if n == 0 then 0.0 else Apart(w, u, n - 1) + Abs(w[n] - u[n])
  }

  /** The first n lags of w, the others of u, and twice the difference more at lag 0. */
  function Mixed(w: seq<real>, u: seq<real>, n: nat): (r: seq<real>)
    requires n < |w| == |u|
    ensures |r| == |w|
  {
    seq(|w|, k requires 0 <= k < |w| => if k == 0 then u[0] + 2.0 * Apart(w, u, n) else if k <= n then w[k] else u[k])
  }

  lemma {:induction false} MixedIsSemidefinite(w: seq<real>, u: seq<real>, n: nat, m: nat)
    requires n < |w| == |u| == m + 1 && Semidefinite(u, m)
    ensures Semidefinite(Mixed(w, u, n), m)
  {
    hide Semidefinite;
    if n == 0 {
      assert Mixed(w, u, 0) == u;
    } else {
      MixedIsSemidefinite(w, u, n - 1, m);
      var d := w[n] - u[n];
      var sign := if d < 0.0 then -1.0 else 1.0;
      PulsesAreSemidefinite(n, sign, m);
      assert IsSum(Mixed(w, u, n), Mixed(w, u, n - 1), Abs(d), Pulses(n, sign, m + 1));
      SumIsSemidefinite(Mixed(w, u, n), Mixed(w, u, n - 1), Abs(d), Pulses(n, sign, m + 1), m);
    }
  }

  /** A sequence near one without negative forms has none itself, if lag 0 makes up for the difference. */
  lemma NearIsSemidefinite(w: seq<real>, u: seq<real>, m: nat)
    requires |w| == |u| == m + 1 && Semidefinite(u, m) && w[0] >= u[0] + 2.0 * Apart(w, u, m)
    ensures Semidefinite(w, m)
  {
    hide Semidefinite, Apart;
    MixedIsSemidefinite(w, u, m, m);
    RaisedIsSemidefinite(w, Mixed(w, u, m), m);
  }

  // ---------- The table ----------

  /** Two cosines that come close to the table. */
  const NARROW: real := 0.99941
  const WIDE: real := 0.99416

  function Approximation(): (u: seq<real>)
    ensures |u| == LPC_FILTERORDER + 1
  {
    seq(LPC_FILTERORDER + 1, k requires 0 <= k < LPC_FILTERORDER + 1 =>
      0.901 * Turn(NARROW, k).0 + 0.099 * Turn(WIDE, k).0)
  }

  lemma ApproximationIsSemidefinite()
    ensures Semidefinite(Approximation(), LPC_FILTERORDER)
  {
    hide Semidefinite, Turn;
    var n := LPC_FILTERORDER + 1;
    var none := seq(n, _ => 0.0);
    var first := seq(n, k requires 0 <= k < n => 0.901 * Turn(NARROW, k).0);
    NothingIsSemidefinite(none, LPC_FILTERORDER);
    CosinesAreSemidefinite(NARROW, LPC_FILTERORDER);
    CosinesAreSemidefinite(WIDE, LPC_FILTERORDER);
    assert IsSum(first, none, 0.901, Cosines(NARROW, n));
    SumIsSemidefinite(first, none, 0.901, Cosines(NARROW, n), LPC_FILTERORDER);
    assert IsSum(Approximation(), first, 0.099, Cosines(WIDE, n));
    SumIsSemidefinite(Approximation(), first, 0.099, Cosines(WIDE, n), LPC_FILTERORDER);
  }

  /** A silent signal's autocorrelation. */
  lemma NothingIsSemidefinite(none: seq<real>, m: nat)
    requires |none| == m + 1 && forall k :: 0 <= k <= m ==> none[k] == 0.0
    ensures Semidefinite(none, m)
  {
    hide Semidefinite;
    forall k {:trigger none[k]} | 0 <= k < |none|
      ensures none[k] == LaggedTo([], k, 0)
    {
    }
    AutocorrelationIsSemidefinite(none, [], m);
  }

  /** The cosines to seven places. */
  lemma NarrowTurn(x: real, k: nat)
    requires x == NARROW
    ensures Turn(x, 0) == (1.0, 0.0)
    ensures var p, q := Turn(x, k), Turn(x, k + 1);
            q.0 == 0.99941 * p.0 - 0.0011796519 * p.1 && q.1 == p.0 + 0.99941 * p.1
  {
  }

  lemma NarrowTurns(x: real)
    requires x == NARROW
    ensures 0.99941000 <= Turn(x, 1).0 <= 0.99941000
    ensures 0.99764069 <= Turn(x, 2).0 <= 0.99764070
    ensures 0.99469417 <= Turn(x, 3).0 <= 0.99469419
    ensures 0.99057391 <= Turn(x, 4).0 <= 0.99057394
    ensures 0.98528477 <= Turn(x, 5).0 <= 0.98528481
    ensures 0.97883299 <= Turn(x, 6).0 <= 0.97883304
    ensures 0.97122619 <= Turn(x, 7).0 <= 0.97122625
    ensures 0.96247334 <= Turn(x, 8).0 <= 0.96247341
    ensures 0.95258477 <= Turn(x, 9).0 <= 0.95258485
    ensures 0.94157215 <= Turn(x, 10).0 <= 0.94157224
  {
    hide Turn;
    NarrowTurn(x, 0);
    assert 0.99941000 <= Turn(x, 1).0 <= 0.99941000 && 1.00000000 <= Turn(x, 1).1 <= 1.00000000;
    NarrowTurn(x, 1);
    assert 0.99764069 <= Turn(x, 2).0 <= 0.99764070 && 1.99882000 <= Turn(x, 2).1 <= 1.99882000;
    NarrowTurn(x, 2);
    assert 0.99469417 <= Turn(x, 3).0 <= 0.99469419 && 2.99528138 <= Turn(x, 3).1 <= 2.99528140;
    NarrowTurn(x, 3);
    assert 0.99057391 <= Turn(x, 4).0 <= 0.99057394 && 3.98820833 <= Turn(x, 4).1 <= 3.98820838;
    NarrowTurn(x, 4);
    assert 0.98528477 <= Turn(x, 5).0 <= 0.98528481 && 4.97642919 <= Turn(x, 5).1 <= 4.97642928;
    NarrowTurn(x, 5);
    assert 0.97883299 <= Turn(x, 6).0 <= 0.97883304 && 5.95877786 <= Turn(x, 6).1 <= 5.95877800;
    NarrowTurn(x, 6);
    assert 0.97122619 <= Turn(x, 7).0 <= 0.97122625 && 6.93409517 <= Turn(x, 7).1 <= 6.93409537;
    NarrowTurn(x, 7);
    assert 0.96247334 <= Turn(x, 8).0 <= 0.96247341 && 7.90123024 <= Turn(x, 8).1 <= 7.90123051;
    NarrowTurn(x, 8);
    assert 0.95258477 <= Turn(x, 9).0 <= 0.95258485 && 8.85904185 <= Turn(x, 9).1 <= 8.85904220;
    NarrowTurn(x, 9);
    assert 0.94157215 <= Turn(x, 10).0 <= 0.94157224 && 9.80639978 <= Turn(x, 10).1 <= 9.80640022;
  }

  lemma WideTurn(x: real, k: nat)
    requires x == WIDE
    ensures Turn(x, 0) == (1.0, 0.0)
    ensures var p, q := Turn(x, k), Turn(x, k + 1);
            q.0 == 0.99416 * p.0 - 0.0116458944 * p.1 && q.1 == p.0 + 0.99416 * p.1
  {
  }

  lemma WideTurns(x: real)
    requires x == WIDE
    ensures 0.99416000 <= Turn(x, 1).0 <= 0.99416000
    ensures 0.97670821 <= Turn(x, 2).0 <= 0.97670822
    ensures 0.94784846 <= Turn(x, 3).0 <= 0.94784848
    ensures 0.90791784 <= Turn(x, 4).0 <= 0.90791787
    ensures 0.85738274 <= Turn(x, 5).0 <= 0.85738278
    ensures 0.79683341 <= Turn(x, 6).0 <= 0.79683346
    ensures 0.72697707 <= Turn(x, 7).0 <= 0.72697713
    ensures 0.64862963 <= Turn(x, 8).0 <= 0.64862971
    ensures 0.56270620 <= Turn(x, 9).0 <= 0.56270629
    ensures 0.47021036 <= Turn(x, 10).0 <= 0.47021046
  {
    hide Turn;
    WideTurn(x, 0);
    assert 0.99416000 <= Turn(x, 1).0 <= 0.99416000 && 1.00000000 <= Turn(x, 1).1 <= 1.00000000;
    WideTurn(x, 1);
    assert 0.97670821 <= Turn(x, 2).0 <= 0.97670822 && 1.98832000 <= Turn(x, 2).1 <= 1.98832000;
    WideTurn(x, 2);
    assert 0.94784846 <= Turn(x, 3).0 <= 0.94784848 && 2.95341642 <= Turn(x, 3).1 <= 2.95341644;
    WideTurn(x, 3);
    assert 0.90791784 <= Turn(x, 4).0 <= 0.90791787 && 3.88401692 <= Turn(x, 4).1 <= 3.88401697;
    WideTurn(x, 4);
    assert 0.85738274 <= Turn(x, 5).0 <= 0.85738278 && 4.76925210 <= Turn(x, 5).1 <= 4.76925219;
    WideTurn(x, 5);
    assert 0.79683341 <= Turn(x, 6).0 <= 0.79683346 && 5.59878240 <= Turn(x, 6).1 <= 5.59878254;
    WideTurn(x, 6);
    assert 0.72697707 <= Turn(x, 7).0 <= 0.72697713 && 6.36291892 <= Turn(x, 7).1 <= 6.36291911;
    WideTurn(x, 7);
    assert 0.64862963 <= Turn(x, 8).0 <= 0.64862971 && 7.05273654 <= Turn(x, 8).1 <= 7.05273680;
    WideTurn(x, 8);
    assert 0.56270620 <= Turn(x, 9).0 <= 0.56270629 && 7.66017818 <= Turn(x, 9).1 <= 7.66017853;
    WideTurn(x, 9);
    assert 0.47021036 <= Turn(x, 10).0 <= 0.47021046 && 8.17814893 <= Turn(x, 10).1 <= 8.17814938;
  }

  lemma TableIsNear(k: nat)
    requires 1 <= k <= LPC_FILTERORDER
    ensures Abs(LagWin()[k] - Approximation()[k]) <= 0.000004
  {
    hide Turn;
    NarrowTurns(NARROW);
    WideTurns(WIDE);
  }

  lemma {:induction false} TableIsNearTo(n: nat)
    requires n <= LPC_FILTERORDER
    ensures Apart(LagWin(), Approximation(), n) <= 0.000004 * n as real
  {
    hide Approximation, LagWin;
    if n > 0 {
      TableIsNearTo(n - 1);
      TableIsNear(n);
    }
  }

  /** The lag window of the codec has no negative form. */
  lemma LagWinIsSemidefinite()
    ensures Semidefinite(LagWin(), LPC_FILTERORDER) && LagWin()[0] > 0.0
  {
    hide Semidefinite, Apart;
    ApproximationIsSemidefinite();
    TableIsNearTo(LPC_FILTERORDER);
    NearIsSemidefinite(LagWin(), Approximation(), LPC_FILTERORDER);
  }
}
