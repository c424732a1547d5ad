/**
 enhancerInterface: the buffer of past residual with its repair after a loss, the pitch periods
 found in its downsampled copy, and the lag that goes back to the concealment. The smoothing of
 one block from the buffer and the periods is not part of this model.
 */
module Enhancer {
  import opened Constants
  import opened Correlations
  import opened Filters
  import opened LagSearch
  import opened LsfInterpolation
  import opened Reals
  import opened SearchSpec
  import opened Sequences

  /** The samples of the buffer before the new frame. */
  const OLD: nat := ENH_NBLOCKS_EXTRA * ENH_BLOCKL

  // ---------- The buffer ----------

  function Appended(buf: seq<real>, x: seq<real>): (b: seq<real>)
    requires |buf| == ENH_BUFL && |x| == BLOCKL
    ensures |b| == ENH_BUFL
  {
    buf[BLOCKL..] + x
  }

  /** The first block of a frame with the block a lag later. */
  const AHEAD: Search := Search(0, ENH_BLOCKL, false)

  function LagAhead(x: seq<real>): (lag: nat)
    requires |x| == BLOCKL
    ensures 20 <= lag < 120
  {
    BestLag(AHEAD, x, 20, 119)
  }

  /** The gain from the later block to the first, from 0 to 1. */
  function GainAhead(x: seq<real>, lag: nat): (gain: real)
    requires |x| == BLOCKL && lag < 120
    ensures 0.0 <= gain <= 1.0
  {
    var first, later := Sub(x, 0, ENH_BLOCKL), Sub(x, lag, ENH_BLOCKL);
    DotNeedsEnergy(first, later, ENH_BLOCKL);
    var num, den := Dot(first, later), Energy(later);
    if num <= 0.0 then 0.0 else if num / den > 1.0 then 1.0 else num / den
  }

  /** Sample k of the last old block, extrapolated backwards: the gain times the sample one lag later. */
  function Extrapolated(b: seq<real>, gain: real, lag: nat, k: nat): real
    requires |b| == ENH_BUFL && 0 < lag < 120 && k < ENH_BUFL
    decreases ENH_BUFL - k
  {
    if k >= OLD then b[k] else Times(gain, Extrapolated(b, gain, lag, k + lag))
  }

  function Repaired(b: seq<real>, gain: real, lag: nat): (r: seq<real>)
    requires |b| == ENH_BUFL && 0 < lag < 120
    ensures |r| == ENH_BUFL
  {
    seq(ENH_BUFL, k requires 0 <= k < ENH_BUFL => if k < OLD - ENH_BLOCKL then b[k] else Extrapolated(b, gain, lag, k))
  }

  /** The buffer for a frame: the new residual behind the old, the last old block replaced if it was concealed. */
  function Refreshed(buf: seq<real>, x: seq<real>, afterLoss: bool): (b: seq<real>)
    requires |buf| == ENH_BUFL && |x| == BLOCKL
    ensures |b| == ENH_BUFL
  {
    if afterLoss then Repaired(Appended(buf, x), GainAhead(x, LagAhead(x)), LagAhead(x)) else Appended(buf, x)
  }

  /** The repaired block continues the new frame backwards with its own period, and nothing else changes. */
  lemma RepairIsPeriodic(buf: seq<real>, x: seq<real>, k: nat)
    requires |buf| == ENH_BUFL && |x| == BLOCKL && k < ENH_BUFL
    ensures var b, lag := Refreshed(buf, x, true), LagAhead(x);
            b[k] == if OLD - ENH_BLOCKL <= k < OLD then Times(GainAhead(x, lag), b[k + lag]) else Appended(buf, x)[k]
  {
    hide GainAhead, LagAhead, Appended;
  }

  lemma ScaledDown(g: real, x: real, m: real)
    requires 0.0 <= g <= 1.0 && Abs(x) <= m
    ensures Abs(Times(g, x)) <= m
  {
    assert Abs(g * x) == g * Abs(x);
    assert g * Abs(x) <= Abs(x);
  }

  /** It is never louder than the new frame. */
  lemma {:induction false} RepairIsQuiet(b: seq<real>, gain: real, lag: nat, k: nat, m: real)
    requires |b| == ENH_BUFL && 0 < lag < 120 && k < ENH_BUFL && 0.0 <= gain <= 1.0
    requires forall i :: OLD <= i < ENH_BUFL ==> Abs(b[i]) <= m
    ensures Abs(Extrapolated(b, gain, lag, k)) <= m
    decreases ENH_BUFL - k
  {
    hide Times, Abs;
    if k < OLD {
      RepairIsQuiet(b, gain, lag, k + lag, m);
      ScaledDown(gain, Extrapolated(b, gain, lag, k + lag), m);
    }
  }

  // ---------- Downsampling and periods ----------

  /** lpFilt_coefsTbl. */
  function LpFilt(): (t: seq<real>)
    ensures |t| == FILTERORDER_DS
  {
    [-0.066650, 0.125000, 0.316650, 0.414063, 0.316650, 0.125000, -0.066650]
  }

  /** Where output k of n samples is taken: every second sample, and at last the one two behind the end. */
  function DownSamplePoint(n: nat, k: nat): nat {
    if k + 1 < n / 2 then DELAY_DS + 2 * k else n + 1
  }

  /** The low-pass filtered signal at these points, zeros assumed behind its end. */
  function Downsampled(coef: seq<real>, state: seq<real>, x: seq<real>): (d: seq<real>)
    requires |coef| == FILTERORDER_DS && |state| == FILTERORDER_DS - 1 && |x| >= FILTERORDER_DS - 2
    ensures |d| == |x| / 2
  {
    seq(|x| / 2, k requires 0 <= k < |x| / 2 =>
      Taps(coef, state + x + [0.0, 0.0], |state| + DownSamplePoint(|x|, k), 0, FILTERORDER_DS))
  }

  /** The points are evenly spaced if and only if the number of samples is even. */
  lemma EvenSpacing(n: nat)
    requires n >= 4
    ensures (forall k :: 0 <= k < n / 2 ==> DownSamplePoint(n, k) == DELAY_DS + 2 * k) <==> n % 2 == 0
  {
    assert DownSamplePoint(n, n / 2 - 1) == n + 1;
  }

  /** The downsampled end of the buffer: 60 samples of the past, then the frame. */
  function HalfRate(buf: seq<real>): (d: seq<real>)
    requires |buf| == ENH_BUFL
    ensures |d| == (BLOCKL + 120) / 2
  {
    Downsampled(LpFilt(), Sub(buf, OLD - 126, 6), Sub(buf, OLD - 120, BLOCKL + 120))
  }

  /** A block of the frame with the block a lag earlier, at half the rate. */
  function Behind(i: nat): Search {
    Search(60 + i * ENH_BLOCKL_HALF, ENH_BLOCKL_HALF, true)
  }

  /** The pitch period of block i of the new frame, in full samples. */
  function Period(buf: seq<real>, i: nat): (lag: nat)
    requires |buf| == ENH_BUFL && i < ENH_NBLOCKS
    ensures 20 <= lag <= 118
  {
    2 * BestLag(Behind(i), HalfRate(buf), 10, 59)
  }

  function Periods(period: seq<real>, buf: seq<real>): (p: seq<real>)
    requires |period| == ENH_NBLOCKS_TOT && |buf| == ENH_BUFL
    ensures |p| == ENH_NBLOCKS_TOT
  {
    period[ENH_NBLOCKS..] + [Period(buf, 0) as real, Period(buf, 1) as real, Period(buf, 2) as real]
  }

  /** The enhanced frame: three blocks, each smoothed around its place in the buffer, one block behind the new frame. */
  function Enhanced(sh: Shared, buf: seq<real>, period: seq<real>): (e: seq<real>)
    ensures |e| == BLOCKL
  {
    seq(BLOCKL, k requires 0 <= k < BLOCKL =>
      sh.smooth(buf, period, (4 + k / ENH_BLOCKL) * ENH_BLOCKL, k % ENH_BLOCKL))
  }

  // ---------- The state ----------

  predicate IsEnhancer(buf: seq<real>, period: seq<real>) {
    && |buf| == ENH_BUFL && |period| == ENH_NBLOCKS_TOT
    && forall i :: 0 <= i < ENH_NBLOCKS_TOT ==> 20.0 <= period[i] <= 118.0
  }

  /** Every period stays one the smoothing and the concealment can use. */
  lemma PeriodsStayInRange(buf: seq<real>, period: seq<real>, b: seq<real>)
    requires IsEnhancer(buf, period) && |b| == ENH_BUFL
    ensures IsEnhancer(b, Periods(period, b))
  {
    hide Period;
  }

  // ---------- DownSample ----------

  /** One more tap of the filter, wherever it falls. */
  lemma TapStep(coef: seq<real>, state: seq<real>, x: seq<real>, i: nat, j: nat)
    requires |coef| == FILTERORDER_DS && |state| == FILTERORDER_DS - 1 && i < |x| && j < FILTERORDER_DS
    ensures var all := state + x + [0.0, 0.0];
            && (j <= i ==> Taps(coef, all, |state| + i, 0, j + 1) == Taps(coef, all, |state| + i, 0, j) + coef[j] * x[i - j])
            && (j > i ==> Taps(coef, all, |state| + i, 0, j + 1)
                          == Taps(coef, all, |state| + i, 0, j) + coef[j] * state[|state| + i - j])
  {
    var all := state + x + [0.0, 0.0];
    assert all[|state| + i - j] == if j <= i then x[i - j] else state[|state| + i - j];
  }

  /** One sample: taps into the input first, then into the state before it. */
  method DownSampleAt(coef: seq<real>, state: seq<real>, x: seq<real>, i: nat) returns (o: real)
    requires |coef| == FILTERORDER_DS && |state| == FILTERORDER_DS - 1 && i < |x|
    ensures o == Taps(coef, state + x + [0.0, 0.0], |state| + i, 0, FILTERORDER_DS)
  {
    hide Taps;
    ghost var all := state + x + [0.0, 0.0];
    var stop := if i < FILTERORDER_DS then i + 1 else FILTERORDER_DS;
    o := 0.0;
    NoTapsYet(coef, all, |state| + i);
    for j := 0 to stop
      invariant o == Taps(coef, all, |state| + i, 0, j)
    {
      TapStep(coef, state, x, i, j);
      o := o + coef[j] * x[i - j];
    }
    for j := stop to FILTERORDER_DS
      invariant o == Taps(coef, all, |state| + i, 0, j)
    {
      TapStep(coef, state, x, i, j);
      o := o + coef[j] * state[|state| + i - j];
    }
  }

  lemma NoTapsYet(coef: seq<real>, x: seq<real>, i: int)
    ensures Taps(coef, x, i, 0, 0) == 0.0
  {
  }

  /** The sample two behind the end: the taps that reach the input. */
  method DownSampleEnd(coef: seq<real>, state: seq<real>, x: seq<real>) returns (o: real)
    requires |coef| == FILTERORDER_DS && |state| == FILTERORDER_DS - 1 && |x| >= FILTERORDER_DS - 2
    ensures o == Taps(coef, state + x + [0.0, 0.0], |state| + |x| + 1, 0, FILTERORDER_DS)
  {
    ghost var all := state + x + [0.0, 0.0];
    ghost var at := |state| + |x| + 1;
    assert Taps(coef, all, at, 0, 2) == 0.0 by {
      assert all[at] == 0.0 && all[at - 1] == 0.0;
      assert Taps(coef, all, at, 0, 0) == 0.0;
      assert Taps(coef, all, at, 0, 1) == 0.0 + coef[0] * all[at];
      assert Taps(coef, all, at, 0, 2) == Taps(coef, all, at, 0, 1) + coef[1] * all[at - 1];
    }
    o := 0.0;
    for j := 0 to FILTERORDER_DS - 2
      invariant o == Taps(coef, all, at, 0, j + 2)
    {
      assert all[at - (j + 2)] == x[|x| - 1 - j];
      o := o + coef[j + 2] * x[|x| - 1 - j];
    }
  }

  /** DownSample, for as many samples as the taps at the end read. */
  method DownSample(x: seq<real>, coef: seq<real>, state: seq<real>) returns (out: array<real>)
    requires |coef| == FILTERORDER_DS && |state| == FILTERORDER_DS - 1 && |x| >= FILTERORDER_DS - 2
    ensures fresh(out) && out[..] == Downsampled(coef, state, x)
  {
    hide Taps;
    ghost var d := Downsampled(coef, state, x);
    out := new real[|x| / 2];
    var i, n := DELAY_DS, 0;
    while i < |x|
      invariant i == DELAY_DS + 2 * n && n <= |x| / 2 - 1
      invariant forall k :: 0 <= k < n ==> out[k] == d[k]
    {
      out[n] := DownSampleAt(coef, state, x, i);
      assert out[n] == d[n];
      i, n := i + 2, n + 1;
    }
    out[n] := DownSampleEnd(coef, state, x);
    assert out[n] == d[n];
  }

  // ---------- enhancerInterface ----------

  /** The gain of the first block over the one a lag later. */
  method FindGain(x: seq<real>, lag: nat) returns (gain: real)
    requires |x| == BLOCKL && lag < 120
    ensures gain == GainAhead(x, lag)
  {
    hide Times, Sub;
    ghost var first, later := Sub(x, 0, ENH_BLOCKL), Sub(x, lag, ENH_BLOCKL);
    var ftmp1, ftmp2 := 0.0, 0.0;
    for i := 0 to ENH_BLOCKL
      invariant ftmp1 == DotTo(first, later, i) && ftmp2 == EnergyRange(later, 0, i)
    {
      ftmp1 := ftmp1 + Times(x[i], x[i + lag]);
      ftmp2 := ftmp2 + Times(x[i + lag], x[i + lag]);
    }
    gain := 0.0;
    if ftmp1 > 0.0 {
      DotNeedsEnergy(first, later, ENH_BLOCKL);
      gain := ftmp1 / ftmp2;
    }
    if gain > 1.0 {
      gain := 1.0;
    }
  }

  /** The two loops that write the last old block backwards: from the frame, then from what they have written. */
  method Repair(buf: array<real>, x: seq<real>, gain: real, lag: nat)
    requires buf.Length == ENH_BUFL && |x| == BLOCKL && buf[OLD..] == x && 0 < lag < 120
    modifies buf
    ensures buf[..] == Repaired(old(buf[..]), gain, lag)
  {
    hide Times;
    ghost var b := buf[..];
    var start := if lag > ENH_BLOCKL then ENH_BLOCKL else lag;
    var n := 0;
    while n < start
      invariant n <= start
      invariant forall k {:trigger buf[k]} :: 0 <= k < ENH_BUFL ==>
                  buf[k] == if k < OLD - n then b[k] else Extrapolated(b, gain, lag, k)
    {
      assert Extrapolated(b, gain, lag, OLD - 1 - n) == Times(gain, Extrapolated(b, gain, lag, OLD - 1 - n + lag));
      assert b[OLD - 1 - n + lag] == x[lag - 1 - n];
      buf[OLD - 1 - n] := Times(gain, x[lag - 1 - n]);
      n := n + 1;
    }
    while n < ENH_BLOCKL
      invariant n <= ENH_BLOCKL && (n > start ==> n >= lag) && n >= start
      invariant forall k {:trigger buf[k]} :: 0 <= k < ENH_BUFL ==>
                  buf[k] == if k < OLD - n then b[k] else Extrapolated(b, gain, lag, k)
    {
      buf[OLD - 1 - n] := Times(gain, buf[OLD - 1 - n + lag]);
      n := n + 1;
    }
    assert buf[..] == Repaired(b, gain, lag);
  }

  /** The buffer brought up to date. */
  method Refresh(buf: array<real>, x: seq<real>, afterLoss: bool)
    requires buf.Length == ENH_BUFL && |x| == BLOCKL
    modifies buf
    ensures buf[..] == Refreshed(old(buf[..]), x, afterLoss)
  {
    hide Extrapolated, GainAhead;
    forall k | 0 <= k < OLD {
      buf[k] := buf[k + BLOCKL];
    }
    forall k | 0 <= k < BLOCKL {
      buf[OLD + k] := x[k];
    }
    assert buf[..] == Appended(old(buf[..]), x);
    if afterLoss {
      var lag := FindLag(AHEAD, x, 20, 119);
      var gain := FindGain(x, lag);
      Repair(buf, x, gain, lag);
    }
  }

  /** The periods brought up to date; the last lag found is returned. */
  method FindPeriods(buf: seq<real>, period: array<real>) returns (lag: nat)
    requires |buf| == ENH_BUFL && period.Length == ENH_NBLOCKS_TOT
    modifies period
    ensures period[..] == Periods(old(period[..]), buf) && lag == Period(buf, ENH_NBLOCKS - 1)
  {
    hide BestLag, Downsampled, FirstLag;
    forall k | 0 <= k < ENH_NBLOCKS_EXTRA {
      period[k] := period[k + ENH_NBLOCKS];
    }
    ghost var shifted := period[..];
    var lpState := Sub(buf, OLD - 126, 6);
    var out := DownSample(Sub(buf, OLD - 120, BLOCKL + 120), LpFilt(), lpState);
    var downsampled := out[..];
    lag := 0;
    for iblock := 0 to ENH_NBLOCKS
      modifies period
      invariant forall k :: 0 <= k < ENH_NBLOCKS_EXTRA ==> period[k] == old(period[k + ENH_NBLOCKS])
      invariant forall k :: 0 <= k < iblock ==> period[ENH_NBLOCKS_EXTRA + k] == Period(buf, k) as real
      invariant iblock > 0 ==> lag == Period(buf, iblock - 1)
    {
      var half := FindLag(Behind(iblock), downsampled, 10, 59);
      lag := half * 2;
      period[ENH_NBLOCKS_EXTRA + iblock] := lag as real;
    }
  }

  /** enhancerInterface. */
  method EnhancerInterface(sh: Shared, x: seq<real>, buf: array<real>, period: array<real>, afterLoss: bool)
    returns (out: array<real>, lag: nat)
    requires buf.Length == ENH_BUFL && period.Length == ENH_NBLOCKS_TOT && buf != period && |x| == BLOCKL
    modifies buf, period
    ensures buf[..] == Refreshed(old(buf[..]), x, afterLoss) && period[..] == Periods(old(period[..]), buf[..])
    ensures fresh(out) && out[..] == Enhanced(sh, buf[..], period[..]) && lag == Period(buf[..], ENH_NBLOCKS - 1)
  {
    hide Refreshed, Periods, Period;
    Refresh(buf, x, afterLoss);
    lag := FindPeriods(buf[..], period);
    out := new real[BLOCKL];
    var b, p := buf[..], period[..];
    ghost var e := Enhanced(sh, b, p);
    for iblock := 0 to ENH_NBLOCKS
      modifies out
      invariant forall k :: 0 <= k < iblock * ENH_BLOCKL ==> out[k] == e[k]
    {
      forall k | 0 <= k < ENH_BLOCKL {
        out[iblock * ENH_BLOCKL + k] := sh.smooth(b, p, (4 + iblock) * ENH_BLOCKL, k);
      }
      forall k | iblock * ENH_BLOCKL <= k < (iblock + 1) * ENH_BLOCKL
        ensures out[k] == e[k]
      {
        assert k / ENH_BLOCKL == iblock && k == iblock * ENH_BLOCKL + k % ENH_BLOCKL;
        assert out[k] == sh.smooth(b, p, (4 + iblock) * ENH_BLOCKL, k % ENH_BLOCKL);
      }
    }
  }

  // ---------- Where the enhancer reads ----------

  /** A smoothing that leaves every block as it is. */
  ghost predicate Copies(sh: Shared) {
    forall b: seq<real>, p: seq<real>, at: nat, i: nat :: at + i < |b| ==> sh.smooth(b, p, at, i) == b[at + i]
  }

  /** Apart from the smoothing, the enhanced frame is the buffer from one block before the new frame on. */
  lemma EnhancedReads(sh: Shared, buf: seq<real>, period: seq<real>)
    requires Copies(sh) && |buf| == ENH_BUFL
    ensures Enhanced(sh, buf, period) == Sub(buf, OLD - ENH_BLOCKL, BLOCKL)
  {
  }

  /** A smoothing that shows the period it is given for a block. */
  ghost predicate ShowsPeriods(sh: Shared) {
    forall b: seq<real>, p: seq<real>, at: nat, i: nat :: at / ENH_BLOCKL < |p| ==> sh.smooth(b, p, at, i) == p[at / ENH_BLOCKL]
  }

  /** Every block is smoothed with the periods kept for the buffer, its own at its place. */
  lemma EnhancedHasPeriods(sh: Shared, buf: seq<real>, period: seq<real>, k: nat)
    requires ShowsPeriods(sh) && |period| == ENH_NBLOCKS_TOT && k < BLOCKL
    ensures Enhanced(sh, buf, period)[k] == period[4 + k / ENH_BLOCKL]
  {
    assert (4 + k / ENH_BLOCKL) * ENH_BLOCKL / ENH_BLOCKL == 4 + k / ENH_BLOCKL;
  }

  // ---------- The periods are pitch periods ----------

  /** Sample t of the buffer, zeros assumed behind its end. */
  function At(buf: seq<real>, t: nat): real {
    if t < |buf| then buf[t] else 0.0
  }

  /** What the half-rate signal is filtered from: the buffer from 126 samples before the frame on, and two zeros. */
  function HalfRateInput(buf: seq<real>): (x: seq<real>)
    requires |buf| == ENH_BUFL
    ensures |x| == BLOCKL + 128
    ensures forall t {:trigger x[t]} :: 0 <= t < |x| ==> x[t] == At(buf, OLD - 126 + t)
  {
    Sub(buf, OLD - 126, 6) + Sub(buf, OLD - 120, BLOCKL + 120) + [0.0, 0.0]
  }

  /** The filter reads the same from both sides, and output k is centred on sample 2 k of what is downsampled. */
  lemma HalfRateIsCentred(buf: seq<real>, k: nat, j: nat)
    requires |buf| == ENH_BUFL && k < (BLOCKL + 120) / 2 && j < FILTERORDER_DS
    ensures LpFilt()[j] == LpFilt()[FILTERORDER_DS - 1 - j]
    ensures HalfRate(buf)[k] == Taps(LpFilt(), HalfRateInput(buf), 9 + 2 * k, 0, FILTERORDER_DS)
    ensures HalfRateInput(buf)[9 + 2 * k - j] == At(buf, OLD - 120 + 2 * k + 3 - j)
  {
    hide Taps;
    LpFiltIsSymmetric(j);
    assert |Sub(buf, OLD - 126, 6)| + DownSamplePoint(BLOCKL + 120, k) == 9 + 2 * k;
  }

  lemma LpFiltIsSymmetric(j: nat)
    requires j < FILTERORDER_DS
    ensures LpFilt()[j] == LpFilt()[FILTERORDER_DS - 1 - j]
  {
  }

  /** The n samples up to i are g times those d samples before. */
  predicate Follows(x: seq<real>, i: nat, d: nat, g: real, n: nat) {
    i < |x| && n + d <= i + 1 && forall t {:trigger x[t]} :: i - n < t <= i ==> x[t] == Times(g, x[t - d])
  }

  lemma FollowsAt(x: seq<real>, i: nat, d: nat, g: real, n: nat)
    requires Follows(x, i, d, g, n) && n > 0
    ensures i < |x| && n + d <= i + 1
    ensures x[i - (n - 1)] == Times(g, x[i - d - (n - 1)]) && Follows(x, i, d, g, n - 1)
  {
    hide Times;
  }

  lemma FollowsFits(x: seq<real>, i: nat, d: nat, g: real, n: nat)
    requires Follows(x, i, d, g, n)
    ensures i < |x| && n + d <= i + 1
  {
  }

  lemma {:induction false} TapsFollow(a: seq<real>, x: seq<real>, i: nat, d: nat, g: real, n: nat)
    requires n <= |a| && Follows(x, i, d, g, n)
    ensures i < |x| && n + d <= i + 1
    ensures Taps(a, x, i, 0, n) == Times(g, Taps(a, x, i - d, 0, n))
  {
    hide Follows;
    FollowsFits(x, i, d, g, n);
    if n > 0 {
      FollowsAt(x, i, d, g, n);
      TapsFollow(a, x, i, d, g, n - 1);
      ScaledTap(g, Taps(a, x, i - d, 0, n - 1), a[n - 1], x[i - d - (n - 1)]);
    }
  }

  lemma ScaledTap(g: real, t: real, a: real, x: real)
    ensures Times(g, t) + a * Times(g, x) == Times(g, t + a * x)
  {
  }

  /** Block i, and the three samples on either side that its filtered samples reach, repeat 2 p samples before. */
  ghost predicate RepeatsAt(buf: seq<real>, i: nat, p: nat, g: real)
    requires |buf| == ENH_BUFL && i < ENH_NBLOCKS && 10 <= p <= 59
  {
    forall t {:trigger At(buf, t)} :: OLD + i * ENH_BLOCKL - 3 <= t < OLD + (i + 1) * ENH_BLOCKL + 2
      ==> At(buf, t) == Times(g, At(buf, t - 2 * p))
  }

  lemma RepeatAt(buf: seq<real>, i: nat, p: nat, g: real, t: nat)
    requires |buf| == ENH_BUFL && i < ENH_NBLOCKS && 10 <= p <= 59 && RepeatsAt(buf, i, p, g)
    requires OLD + i * ENH_BLOCKL - 3 <= t < OLD + (i + 1) * ENH_BLOCKL + 2
    ensures At(buf, t) == Times(g, At(buf, t - 2 * p))
  {
    hide Times, At;
  }

  lemma InputRepeats(buf: seq<real>, i: nat, p: nat, g: real, m: nat)
    requires |buf| == ENH_BUFL && i < ENH_NBLOCKS && 10 <= p <= 59 && RepeatsAt(buf, i, p, g) && m < ENH_BLOCKL_HALF
    ensures Follows(HalfRateInput(buf), 9 + 2 * (60 + i * ENH_BLOCKL_HALF + m), 2 * p, g, FILTERORDER_DS)
  {
    hide Times, HalfRateInput, At, RepeatsAt;
    var x, at := HalfRateInput(buf), 9 + 2 * (60 + i * ENH_BLOCKL_HALF + m);
    forall t {:trigger x[t]} | at - FILTERORDER_DS < t <= at
      ensures x[t] == Times(g, x[t - 2 * p])
    {
      RepeatAt(buf, i, p, g, OLD - 126 + t);
    }
  }

  lemma HalfRateRepeats(buf: seq<real>, i: nat, p: nat, g: real, m: nat)
    requires |buf| == ENH_BUFL && i < ENH_NBLOCKS && 10 <= p <= 59 && RepeatsAt(buf, i, p, g) && m < ENH_BLOCKL_HALF
    ensures HalfRate(buf)[60 + i * ENH_BLOCKL_HALF + m] == Times(g, HalfRate(buf)[60 + i * ENH_BLOCKL_HALF + m - p])
  {
    hide Follows, Taps, Times, LpFilt, HalfRate, HalfRateInput, Sub, At, RepeatsAt;
    var k := 60 + i * ENH_BLOCKL_HALF + m;
    HalfRateIsCentred(buf, k, 0);
    HalfRateIsCentred(buf, k - p, 0);
    InputRepeats(buf, i, p, g, m);
    TapsFollow(LpFilt(), HalfRateInput(buf), 9 + 2 * k, 2 * p, g, FILTERORDER_DS);
  }

  /** If a block of the new frame repeats at an even lag from 20 to 118, its period is at most that lag, and such a lag too. */
  lemma PeriodIsPitch(buf: seq<real>, i: nat, p: nat, g: real)
    requires |buf| == ENH_BUFL && i < ENH_NBLOCKS && 10 <= p <= 59 && g > 0.0 && RepeatsAt(buf, i, p, g)
    requires Energy(Sub(HalfRate(buf), 60 + i * ENH_BLOCKL_HALF, ENH_BLOCKL_HALF)) > 0.0
    ensures var half, at, n := HalfRate(buf), 60 + i * ENH_BLOCKL_HALF, Period(buf, i) / 2;
            && Period(buf, i) == 2 * n && 10 <= n <= p
            && Repeats(Sub(half, at, ENH_BLOCKL_HALF), Sub(half, at - n, ENH_BLOCKL_HALF))
  {
    hide HalfRate, RepeatsAt, BestLag, Times, EnergyRange;
    var half, at := HalfRate(buf), 60 + i * ENH_BLOCKL_HALF;
    var x, y := Sub(half, at, ENH_BLOCKL_HALF), Sub(half, at - p, ENH_BLOCKL_HALF);
    forall m | 0 <= m < ENH_BLOCKL_HALF
      ensures x[m] == Times(g, y[m])
    {
      HalfRateRepeats(buf, i, p, g, m);
    }
    assert IsMultiple(x, g, y);
    PeriodIsFound(Behind(i), half, 10, 59, p);
  }

  // ---------- The gain of the repair ----------

  lemma Parabola(d: real, e: real, g: real, h: real)
    ensures (Times(Square(h), e) - 2.0 * Times(h, d)) - (Times(Square(g), e) - 2.0 * Times(g, d))
            == Times(Square(h - g), e) + 2.0 * Times(h - g, Times(g, e) - d)
  {
  }

  lemma RestOfClamped(d: real, e: real, g: real, h: real)
    requires e >= 0.0 && 0.0 <= h <= 1.0
    requires (g == 0.0 && d <= 0.0) || (g == 1.0 && d >= e) || Times(g, e) == d
    ensures Times(Square(h - g), e) + 2.0 * Times(h - g, Times(g, e) - d) >= 0.0
  {
    ProductIsNatural(Square(h - g), e);
    if g == 0.0 {
      ProductIsNatural(h, -d);
    } else if g == 1.0 {
      ProductIsNatural(1.0 - h, d - e);
      assert Times(h - 1.0, e - d) == Times(1.0 - h, d - e);
    }
  }

  lemma QuotientReturns(d: real, e: real)
    requires e > 0.0
    ensures Times(d / e, e) == d && (d / e > 1.0 ==> d >= e)
  {
  }

  /** No gain from 0 to 1 leaves less of the first block than the one of the repair. */
  lemma GainAheadIsBest(x: seq<real>, lag: nat, h: real)
    requires |x| == BLOCKL && lag < 120 && 0.0 <= h <= 1.0
    ensures var first, later := Sub(x, 0, ENH_BLOCKL), Sub(x, lag, ENH_BLOCKL);
            Energy(Minus(first, GainAhead(x, lag), later)) <= Energy(Minus(first, h, later))
  {
    hide Times, Square, EnergyRange, DotTo, Sub, Minus;
    var first, later, g := Sub(x, 0, ENH_BLOCKL), Sub(x, lag, ENH_BLOCKL), GainAhead(x, lag);
    DotNeedsEnergy(first, later, ENH_BLOCKL);
    EnergyOfRest(first, g, later, ENH_BLOCKL);
    EnergyOfRest(first, h, later, ENH_BLOCKL);
    if Dot(first, later) > 0.0 {
      QuotientReturns(Dot(first, later), Energy(later));
    }
    RestOfClamped(Dot(first, later), Energy(later), g, h);
    Parabola(Dot(first, later), Energy(later), g, h);
  }
}
