/**
 The Levinson-Durbin recursion. The routine updates the predictor in place, two coefficients
 at a time; it is proved to realise the simultaneous update, and to solve the normal equations.
 */
module LevinsonDurbin {
  import opened Constants

  // ---------- Specification ----------

  /** The autocorrelation at lag n, of either sign. */
  function At(r: seq<real>, n: int): real {
    if 0 <= n < |r| then r[n] else if 0 < -n < |r| then r[-n] else 0.0
  }

  /** The sum of a[i] * r[|i - j|] over lo <= i < hi. */
  function Correlated(a: seq<real>, r: seq<real>, j: int, lo: nat, hi: nat): real
    requires lo <= hi <= |a|
    decreases hi
  {
    if lo == hi then 0.0 else Correlated(a, r, j, lo, hi - 1) + a[hi - 1] * At(r, hi - 1 - j)
  }

  /** A division of the recursion; by a zero error there is no quotient, and nothing is claimed after it. */
  function Quotient(x: real, y: real): real {
    if y == 0.0 then 0.0 else x / y
  }

  /** A predictor, its reflection coefficients and its error energy. */
  datatype Predictor = Predictor(a: seq<real>, k: seq<real>, error: real)

  /** The predictor of order one more: a[i] + k * a[|a| - i] for all i at once, a being zero beyond its end. */
  function Raised(a: seq<real>, k: real): (b: seq<real>)
    requires |a| > 0
    ensures |b| == |a| + 1 && b[0] == a[0]
  {
    seq(|a| + 1, i requires 0 <= i <= |a| =>
      if i == 0 then a[0] else if i == |a| then k * a[0] else a[i] + k * a[|a| - i])
  }

  /** The error energy after reflection coefficient k met a mismatch of s. */
  function Reduced(error: real, k: real, s: real): real {
    error + k * s
  }

  /** From one order to the next. */
  function Next(p: Predictor, r: seq<real>): (q: Predictor)
    requires |p.a| > 0
    ensures |q.a| == |p.a| + 1 && |q.k| == |p.k| + 1 && q.a[0] == p.a[0]
  {
    var s := Correlated(p.a, r, |p.a|, 0, |p.a|);
    var k := Quotient(-s, p.error);
    Predictor(Raised(p.a, k), p.k + [k], Reduced(p.error, k, s))
  }

  /** The recursion as a mathematical function. */
  function Predict(r: seq<real>, m: nat): (p: Predictor)
    requires |r| > 0
    ensures |p.a| == m + 1 && |p.k| == m && p.a[0] == 1.0
  {
    if m == 0 then Predictor([1.0], [], r[0]) else Next(Predict(r, m - 1), r)
  }

  /** Every division of the recursion up to order m is by a nonzero error. */
  ghost predicate Regular(r: seq<real>, m: nat)
    requires |r| > 0
  {
    forall n :: 0 <= n < m ==> Predict(r, n).error != 0.0
  }

  /** a is a solution of the normal equations, with the given error. */
  ghost predicate Solves(a: seq<real>, r: seq<real>, error: real) {
    && |a| > 0
    && a[0] == 1.0
    && (forall j :: 1 <= j < |a| ==> Correlated(a, r, j, 0, |a|) == 0.0)
    && Correlated(a, r, 0, 0, |a|) == error
  }

  /** r0 times the product of 1 - k[i]^2. */
  function Attenuated(r0: real, k: seq<real>): real {
    if k == [] then r0 else
    var n := |k| - 1;
    Attenuated(r0, k[..n]) * (1.0 - k[n] * k[n])
  }

  // ---------- Sums ----------

  lemma {:induction false} CorrelatedFromFirst(a: seq<real>, r: seq<real>, j: int, lo: nat, hi: nat)
    requires lo < hi <= |a|
    ensures Correlated(a, r, j, lo, hi) == a[lo] * At(r, lo - j) + Correlated(a, r, j, lo + 1, hi)
    decreases hi
  {
    if lo + 1 < hi {
      CorrelatedFromFirst(a, r, j, lo, hi - 1);
    } else {
      assert Correlated(a, r, j, lo, hi) == Correlated(a, r, j, lo, lo) + a[lo] * At(r, lo - j);
    }
  }

  lemma {:induction false} CorrelatedReversed(a: seq<real>, b: seq<real>, r: seq<real>, j: int, lo: nat, hi: nat)
    requires |b| == |a| + 1 && 1 <= lo <= hi <= |b|
    requires forall i :: 1 <= i <= |a| ==> b[i] == a[|a| - i]
    ensures Correlated(b, r, j, lo, hi) == Correlated(a, r, |a| - j, |b| - hi, |b| - lo)
    decreases hi
  {
    if lo < hi {
      CorrelatedReversed(a, b, r, j, lo, hi - 1);
      CorrelatedFromFirst(a, r, |a| - j, |b| - hi, |b| - lo);
      assert At(r, hi - 1 - j) == At(r, |b| - hi - (|a| - j));
      assert b[hi - 1] == a[|b| - hi];
    }
  }

  lemma {:induction false} CorrelatedLinear(a: seq<real>, b: seq<real>, c: seq<real>, k: real, r: seq<real>, j: int, hi: nat)
    requires hi <= |a| == |b| == |c|
    requires forall i :: 0 <= i < hi ==> c[i] == a[i] + k * b[i]
    ensures Correlated(c, r, j, 0, hi) == Correlated(a, r, j, 0, hi) + k * Correlated(b, r, j, 0, hi)
    decreases hi
  {
    if hi > 0 {
      CorrelatedLinear(a, b, c, k, r, j, hi - 1);
      var t := At(r, hi - 1 - j);
      assert c[hi - 1] * t == a[hi - 1] * t + k * (b[hi - 1] * t);
    }
  }

  lemma {:induction false} CorrelatedAgree(a: seq<real>, b: seq<real>, r: seq<real>, j: int, lo: nat, hi: nat)
    requires lo <= hi <= |a| && hi <= |b|
    requires forall i :: lo <= i < hi ==> a[i] == b[i]
    ensures Correlated(a, r, j, lo, hi) == Correlated(b, r, j, lo, hi)
    decreases hi
  {
    if lo < hi {
      CorrelatedAgree(a, b, r, j, lo, hi - 1);
    }
  }

  // ---------- Correctness of the recursion ----------

  function Extended(a: seq<real>): seq<real> {
    a + [0.0]
  }

  /** The predictor backwards, behind a zero. */
  function Backwards(a: seq<real>): (b: seq<real>)
    ensures |b| == |a| + 1 && b[0] == 0.0
    ensures forall i :: 1 <= i <= |a| ==> b[i] == a[|a| - i]
  {
    [0.0] + seq(|a|, i requires 0 <= i < |a| => a[|a| - 1 - i])
  }

  lemma CorrelatedExtended(a: seq<real>, r: seq<real>, j: int)
    ensures Correlated(Extended(a), r, j, 0, |a| + 1) == Correlated(a, r, j, 0, |a|)
  {
    CorrelatedAgree(a, Extended(a), r, j, 0, |a|);
  }

  lemma CorrelatedBackwards(a: seq<real>, r: seq<real>, j: int)
    ensures Correlated(Backwards(a), r, j, 0, |a| + 1) == Correlated(a, r, |a| - j, 0, |a|)
  {
    CorrelatedFromFirst(Backwards(a), r, j, 0, |a| + 1);
    CorrelatedReversed(a, Backwards(a), r, j, 1, |a| + 1);
  }

  lemma RaisedSplits(a: seq<real>, k: real)
    requires 0 < |a|
    ensures forall i :: 0 <= i < |a| + 1 ==> Raised(a, k)[i] == Extended(a)[i] + k * Backwards(a)[i]
  {
  }

  /** The correlation of a raised predictor: the old one, plus k times the old one seen backwards. */
  lemma RaisedCorrelation(a: seq<real>, k: real, r: seq<real>, j: int)
    requires 0 < |a|
    ensures Correlated(Raised(a, k), r, j, 0, |a| + 1)
         == Correlated(a, r, j, 0, |a|) + k * Correlated(a, r, |a| - j, 0, |a|)
  {
    hide Correlated, Raised;
    RaisedSplits(a, k);
    CorrelatedLinear(Extended(a), Backwards(a), Raised(a, k), k, r, j, |a| + 1);
    CorrelatedExtended(a, r, j);
    CorrelatedBackwards(a, r, j);
  }

  /** If one order is solved, so is the next; the new error is (1 - k^2) times the old. */
  lemma RaiseSolves(a: seq<real>, r: seq<real>, error: real, k: real)
    requires Solves(a, r, error)
    requires k * error == -Correlated(a, r, |a|, 0, |a|)
    ensures Solves(Raised(a, k), r, error * (1.0 - k * k))
  {
    hide Correlated, Raised;
    var b := Raised(a, k);
    forall j | 1 <= j < |b|
      ensures Correlated(b, r, j, 0, |b|) == 0.0
    {
      RaisedCorrelation(a, k, r, j);
    }
    RaisedCorrelation(a, k, r, 0);
    ErrorRatio(error, k, -(k * error));
  }

  lemma ErrorRatio(error: real, k: real, s: real)
    requires k * error == -s
    ensures error + k * s == error * (1.0 - k * k)
  {
    assert k * s == -(k * (k * error));
  }

  /** q is the order after p, got by a true division. */
  ghost predicate Follows(p: Predictor, q: Predictor, r: seq<real>, k: real) {
    && 0 < |p.a|
    && q.a == Raised(p.a, k) && q.k == p.k + [k]
    && k * p.error == -Correlated(p.a, r, |p.a|, 0, |p.a|)
    && q.error == p.error * (1.0 - k * k)
  }

  ghost predicate Correct(p: Predictor, r: seq<real>)
    requires |r| > 0
  {
    Solves(p.a, r, p.error) && p.error == Attenuated(r[0], p.k)
  }

  lemma QuotientTimes(x: real, y: real)
    requires y != 0.0
    ensures Quotient(x, y) * y == x
  {
  }

  lemma NextFollows(p: Predictor, r: seq<real>)
    requires |p.a| > 0 && p.error != 0.0
    ensures Follows(p, Next(p, r), r, Next(p, r).k[|p.k|])
  {
    var s := Correlated(p.a, r, |p.a|, 0, |p.a|);
    var k := Quotient(-s, p.error);
    hide Correlated, Raised, Quotient;
    QuotientTimes(-s, p.error);
    ErrorRatio(p.error, k, s);
  }

  lemma FollowingIsCorrect(p: Predictor, q: Predictor, r: seq<real>, k: real)
    requires |r| > 0 && Correct(p, r) && Follows(p, q, r, k)
    ensures Correct(q, r)
  {
    hide Correlated, Raised;
    RaiseSolves(p.a, r, p.error, k);
    assert q.k[..|p.k|] == p.k;
  }

  /** At every order reached without a zero error the normal equations hold. */
  lemma {:induction false} PredictIsCorrect(r: seq<real>, m: nat)
    requires |r| > 0 && Regular(r, m)
    ensures Correct(Predict(r, m), r)
  {
    if m == 0 {
      assert Correlated([1.0], r, 0, 0, 1) == Correlated([1.0], r, 0, 0, 0) + 1.0 * At(r, 0);
    } else {
      hide Next;
      PredictIsCorrect(r, m - 1);
      NextFollows(Predict(r, m - 1), r);
      FollowingIsCorrect(Predict(r, m - 1), Predict(r, m), r, Predict(r, m).k[m - 1]);
    }
  }

  // ---------- The routine ----------

  /**
   The paired update: cells i + 1 and m - i change together; for odd m the two are the same
   cell at the middle, where the second write of the pair repeats the first.
   */
  method ReflectInPlace(a: array<real>, m: nat, k: real)
    requires m < a.Length
    modifies a
    ensures forall i :: 1 <= i <= m ==> a[i] == old(a[i]) + k * old(a[m + 1 - i])
    ensures forall i :: 0 <= i < a.Length && !(1 <= i <= m) ==> a[i] == old(a[i])
  {
    var half := (m + 1) / 2;
    for i := 0 to half
      invariant forall n :: 1 <= n <= i || m - i < n <= m ==> a[n] == old(a[n]) + k * old(a[m + 1 - n])
      invariant forall n :: 0 <= n < a.Length && !(1 <= n <= i || m - i < n <= m) ==> a[n] == old(a[n])
    {
      var sum := a[i + 1] + k * a[m - i];
      a[m - i] := a[m - i] + k * a[i + 1];
      a[i + 1] := sum;
    }
  }

  /** What the first m + 1 predictor cells and m reflection cells hold after order m. */
  ghost predicate Holds(a: seq<real>, k: seq<real>, p: Predictor) {
    p.a <= a && p.k <= k
  }

  /** r[m + 1] plus the part of the sum that the routine accumulates. */
  lemma SumOfStep(p: seq<real>, r: seq<real>, m: nat)
    requires |p| == m + 1 && p[0] == 1.0 && m + 1 < |r|
    ensures Correlated(p, r, m + 1, 0, m + 1) == r[m + 1] + Correlated(p, r, m + 1, 1, m + 1)
  {
    CorrelatedFromFirst(p, r, m + 1, 0, m + 1);
  }

  /** Reflecting the cells of a predictor and adding the new last coefficient raises it. */
  lemma RaisedInCells(was: seq<real>, now: seq<real>, p: seq<real>, k: real)
    requires 0 < |p| < |was| == |now| && p <= was && p[0] == 1.0
    requires forall i :: 1 <= i < |p| ==> now[i] == was[i] + k * was[|p| - i]
    requires now[0] == was[0] && now[|p|] == k
    ensures Raised(p, k) <= now
  {
    forall i | 0 <= i <= |p|
      ensures Raised(p, k)[i] == now[i]
    {
      assert k * 1.0 == k;
    }
  }

  /** The prediction of r[m + 1] by the current coefficients. */
  method Mismatch(a: array<real>, r: seq<real>, m: nat, ghost p: seq<real>) returns (sum: real)
    requires m + 1 < |r| && |p| == m + 1 && p <= a[..] && p[0] == 1.0
    ensures sum == Correlated(p, r, m + 1, 0, m + 1)
  {
    sum := r[m + 1];
    for i := 0 to m
      invariant sum == r[m + 1] + Correlated(p, r, m + 1, 1, i + 1)
    {
      assert a[i + 1] == p[i + 1];
      assert At(r, i + 1 - (m + 1)) == r[m - i];
      sum := sum + a[i + 1] * r[m - i];
    }
    SumOfStep(p, r, m);
  }

  /** The new reflection coefficient enters both arrays. */
  method Enter(a: array<real>, k: array<real>, m: nat, refl: real, ghost p: Predictor)
    requires a != k && |p.a| == m + 1 < a.Length && |p.k| == m < k.Length
    requires Holds(a[..], k[..], p) && p.a[0] == 1.0
    modifies a, k
    ensures Raised(p.a, refl) <= a[..] && p.k + [refl] <= k[..]
  {
    hide Raised;
    k[m] := refl;
    ReflectInPlace(a, m, refl);
    a[m + 1] := refl;
    RaisedInCells(old(a[..]), a[..], p.a, refl);
  }

  /** Order m to order m + 1 of the routine, for m at least 1. */
  method Step(a: array<real>, k: array<real>, r: seq<real>, m: nat, alpha: real) returns (next: real)
    requires a != k && 1 <= m < k.Length && k.Length + 1 == a.Length == |r|
    requires Holds(a[..], k[..], Predict(r, m)) && alpha == Predict(r, m).error
    modifies a, k
    ensures Holds(a[..], k[..], Predict(r, m + 1)) && next == Predict(r, m + 1).error
  {
    ghost var p := Predict(r, m);
    assert Predict(r, m + 1) == Next(p, r);
    hide Predict, Raised, Quotient, Correlated, Reduced;
    var sum := Mismatch(a, r, m, p.a);
    NextIs(p, r, sum);
    hide Next;
    var refl := Quotient(-sum, alpha);
    next := Reduced(alpha, refl, sum);
    Enter(a, k, m, refl, p);
  }

  lemma NextIs(p: Predictor, r: seq<real>, s: real)
    requires |p.a| > 0 && s == Correlated(p.a, r, |p.a|, 0, |p.a|)
    ensures var k := Quotient(-s, p.error);
            Next(p, r) == Predictor(Raised(p.a, k), p.k + [k], Reduced(p.error, k, s))
  {
  }

  lemma FirstCorrelation(a: seq<real>, r: seq<real>)
    requires |a| == 1 && a[0] == 1.0 && |r| > 1
    ensures Correlated(a, r, 1, 0, 1) == r[1]
  {
    assert Correlated(a, r, 1, 0, 1) == Correlated(a, r, 1, 0, 0) + a[0] * At(r, -1);
  }

  lemma FirstOrder(r: seq<real>, k: real)
    requires |r| > 1 && k == Quotient(-r[1], r[0])
    ensures Predict(r, 1) == Predictor([1.0, k], [k], r[0] + k * r[1])
  {
    hide Quotient;
    var p := Predict(r, 0);
    assert Predict(r, 1) == Next(p, r);
    FirstCorrelation(p.a, r);
    RaisedInCells([1.0, 0.0], [1.0, k], p.a, k);
    hide Correlated, Raised;
    NextIs(p, r, r[1]);
    assert p.error == r[0] && p.k + [k] == [k];
    assert Raised(p.a, k) == [1.0, k];
  }

  /**
   levdurb. A signal of (almost) no energy gets the trivial predictor. Any other gets the
   solution of the normal equations, if no intermediate error is zero.
   */
  method Levdurb(a: array<real>, k: array<real>, r: seq<real>, order: nat)
    requires a != k && 1 <= order == k.Length && a.Length == |r| == order + 1
    modifies a, k
    ensures r[0] < EPS ==> a[..] == [1.0] + k[..] && forall i :: 0 <= i < order ==> k[i] == 0.0
    ensures r[0] >= EPS ==> a[..] == Predict(r, order).a && k[..] == Predict(r, order).k
    ensures r[0] >= EPS && Regular(r, order) ==> Solves(a[..], r, Attenuated(r[0], k[..]))
  {
    hide Predict;
    a[0] := 1.0;
    if r[0] < EPS {
      for i := 0 to order
        invariant a[0] == 1.0
        invariant forall n :: 0 <= n < i ==> k[n] == 0.0
        invariant forall n :: 1 <= n <= i ==> a[n] == 0.0
      {
        k[i] := 0.0;
        a[i + 1] := 0.0;
      }
    } else {
      k[0] := Quotient(-r[1], r[0]);
      a[1] := k[0];
      var alpha := r[0] + r[1] * k[0];
      FirstOrder(r, k[0]);
      for m := 1 to order
        invariant Holds(a[..], k[..], Predict(r, m)) && alpha == Predict(r, m).error
      {
        alpha := Step(a, k, r, m, alpha);
      }
      if Regular(r, order) {
        PredictIsCorrect(r, order);
      }
    }
  }
}
