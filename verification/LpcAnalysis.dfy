/** SimpleAnalysis: two windows on the signal with its look-back, a predictor for each, its spectral frequencies. */
module LpcAnalysis {
  import opened Autocorrelation
  import opened Constants
  import opened LagWindow
  import opened LagWindowTable
  import opened LevinsonDurbin
  import opened LsfInterpolation
  import opened Reals
  import opened Sequences

  /**
   The two signal windows, and coefficient k of the frequencies of a filter, by a root search
   that is not part of this model.
   */
  datatype Analysis = Analysis(win: seq<real>, asymWin: seq<real>, a2lsf: (seq<real>, nat) -> real)

  predicate IsAnalysis(an: Analysis) {
    |an.win| == |an.asymWin| == BLOCKL
  }

  // ---------- Specification ----------

  function Lags(x: seq<real>): (r: seq<real>)
    ensures |r| == LPC_FILTERORDER + 1 && IsAutocorrelation(r, x)
  {
    seq(LPC_FILTERORDER + 1, k requires 0 <= k < LPC_FILTERORDER + 1 => LaggedTo(x, k, |x|))
  }

  /** What levdurb is given for a block under a window. */
  function WindowedLags(x: seq<real>, w: seq<real>): (r: seq<real>)
    requires |x| == |w|
    ensures |r| == LPC_FILTERORDER + 1
  {
    Windowed(Lags(Windowed(x, w)), LagWin())
  }

  /** What it makes of it. */
  function PredictorOf(r: seq<real>): (a: seq<real>)
    requires |r| == LPC_FILTERORDER + 1
    ensures |a| == LPC_FILTERORDER + 1
  {
    if r[0] < EPS then [1.0] + seq(LPC_FILTERORDER, _ => 0.0) else Predict(r, LPC_FILTERORDER).a
  }

  function LsfOfBlock(an: Analysis, x: seq<real>, w: seq<real>): (lsf: seq<real>)
    requires |x| == |w|
    ensures |lsf| == LPC_FILTERORDER
  {
    var lp := Expanded(PredictorOf(WindowedLags(x, w)), LPC_CHIRP_SYNTDENUM);
    seq(LPC_FILTERORDER, k requires 0 <= k < LPC_FILTERORDER => an.a2lsf(lp, k))
  }

  /** Both vectors of a frame, of the block with the samples before it. */
  function LsfOf(an: Analysis, signal: seq<real>): (lsf: seq<real>)
    requires IsAnalysis(an) && |signal| == LPC_LOOKBACK + BLOCKL
    ensures |lsf| == 2 * LPC_FILTERORDER
  {
    LsfOfBlock(an, Sub(signal, 0, BLOCKL), an.win) + LsfOfBlock(an, Sub(signal, LPC_LOOKBACK, BLOCKL), an.asymWin)
  }

  /**
   The second vector is that of the new block alone; the first does not depend on its last
   samples, but on as many before it.
   */
  lemma VectorsHaveTheirBlocks(an: Analysis, before: seq<real>, block: seq<real>, other: seq<real>)
    requires IsAnalysis(an) && |before| == |other| == LPC_LOOKBACK && |block| == BLOCKL
    ensures LsfOf(an, before + block)[LPC_FILTERORDER..] == LsfOf(an, other + block)[LPC_FILTERORDER..]
            == LsfOfBlock(an, block, an.asymWin)
    ensures LsfOf(an, block + before)[..LPC_FILTERORDER] == LsfOf(an, block + other)[..LPC_FILTERORDER]
            == LsfOfBlock(an, block, an.win)
  {
    hide LsfOfBlock;
    assert Sub(before + block, LPC_LOOKBACK, BLOCKL) == block == Sub(other + block, LPC_LOOKBACK, BLOCKL);
    assert Sub(block + before, 0, BLOCKL) == block == Sub(block + other, 0, BLOCKL);
  }

  /** Of a block only what its window lets through matters. */
  lemma OnlyTheWindowIsSeen(an: Analysis, x: seq<real>, y: seq<real>, w: seq<real>)
    requires |x| == |y| == |w| && forall i :: 0 <= i < |w| && w[i] != 0.0 ==> x[i] == y[i]
    ensures LsfOfBlock(an, x, w) == LsfOfBlock(an, y, w)
  {
    hide Lags, PredictorOf, Expanded, LagWin;
    forall i | 0 <= i < |w|
      ensures Windowed(x, w)[i] == Windowed(y, w)[i]
    {
    }
    assert Windowed(x, w) == Windowed(y, w);
  }

  // ---------- The recursion is safe ----------

  lemma ZeroLag(r: seq<real>, w: seq<real>)
    requires |r| == |w| > 0 && Windowed(r, w)[0] != 0.0
    ensures r[0] != 0.0
  {
  }

  /**
   Whatever the signal and its window: either the energy is negligible and the filter trivial,
   or no error of the recursion is zero and the filter solves the normal equations, with every
   reflection coefficient below 1 in magnitude.
   */
  lemma AnalysisIsSafe(x: seq<real>, w: seq<real>)
    requires |x| == |w|
    ensures var r := WindowedLags(x, w);
            var p := Predict(r, LPC_FILTERORDER);
            if r[0] < EPS then PredictorOf(r) == [1.0] + seq(LPC_FILTERORDER, _ => 0.0)
            else && PredictorOf(r) == p.a && Regular(r, LPC_FILTERORDER) && Solves(p.a, r, p.error) && p.error > 0.0
                 && forall n :: 0 <= n < LPC_FILTERORDER ==> -1.0 < p.k[n] < 1.0
  {
    hide LagWin, Predict, Windowed, Regular, Solves, Semidefinite;
    var r := WindowedLags(x, w);
    if r[0] >= EPS {
      ZeroLag(Lags(Windowed(x, w)), LagWin());
      LagWinIsSemidefinite();
      WindowedIsRegular(Lags(Windowed(x, w)), Windowed(x, w), LagWin(), LPC_FILTERORDER);
      PredictIsCorrect(r, LPC_FILTERORDER);
    }
  }

  /**
   The frequencies of a block are those of a filter that solves the normal equations of the
   windowed block, its lags windowed too and the filter bandwidth expanded; or, when there is
   next to no energy, of the filter without taps.
   */
  lemma BlockIsPredicted(an: Analysis, x: seq<real>, w: seq<real>) returns (a: seq<real>, r: seq<real>, error: real)
    requires |x| == |w|
    ensures |r| == |a| == LPC_FILTERORDER + 1 && IsAutocorrelation(r, Windowed(x, w))
    ensures if Windowed(r, LagWin())[0] < EPS then a == [1.0] + seq(LPC_FILTERORDER, _ => 0.0)
            else Solves(a, Windowed(r, LagWin()), error) && error > 0.0
    ensures forall k :: 0 <= k < LPC_FILTERORDER ==>
              LsfOfBlock(an, x, w)[k]
              == an.a2lsf(seq(LPC_FILTERORDER + 1, i requires 0 <= i < LPC_FILTERORDER + 1 =>
                   Times(Power(LPC_CHIRP_SYNTDENUM, i), a[i])), k)
  {
    hide LagWin, Predict, Windowed, Regular, Solves, Power, Times, IsAutocorrelation;
    AnalysisIsSafe(x, w);
    r := Lags(Windowed(x, w));
    a, error := PredictorOf(WindowedLags(x, w)), Predict(WindowedLags(x, w), LPC_FILTERORDER).error;
    assert Expanded(a, LPC_CHIRP_SYNTDENUM)
           == seq(LPC_FILTERORDER + 1, i requires 0 <= i < LPC_FILTERORDER + 1 => Times(Power(LPC_CHIRP_SYNTDENUM, i), a[i]));
  }

  // ---------- The routine ----------

  lemma LagsAre(r: seq<real>, x: seq<real>)
    requires |r| == LPC_FILTERORDER + 1 && IsAutocorrelation(r, x)
    ensures r == Lags(x)
  {
    forall k | 0 <= k < |r|
      ensures r[k] == Lags(x)[k]
    {
    }
  }

  lemma TrivialPredictor(a: seq<real>, k: seq<real>, r: seq<real>)
    requires |r| == LPC_FILTERORDER + 1 && |k| == LPC_FILTERORDER && r[0] < EPS
    requires a == [1.0] + k && forall i :: 0 <= i < LPC_FILTERORDER ==> k[i] == 0.0
    ensures a == PredictorOf(r)
  {
  }

  /** One round of the loop. */
  method AnalyseBlock(an: Analysis, x: seq<real>, w: seq<real>) returns (lsf: seq<real>)
    requires |x| == |w|
    ensures lsf == LsfOfBlock(an, x, w)
  {
    hide LagWin, Expanded, IsAutocorrelation, Lags, Predict, Solves, Windowed;
    var temp := Window(x, w);
    var r := new real[LPC_FILTERORDER + 1];
    Autocorr(r, temp[..], LPC_FILTERORDER);
    LagsAre(r[..], Windowed(x, w));
    var windowed := Window(r[..], LagWin());
    var lp, k := new real[LPC_FILTERORDER + 1], new real[LPC_FILTERORDER];
    Levdurb(lp, k, windowed[..], LPC_FILTERORDER);
    if windowed[0] < EPS {
      TrivialPredictor(lp[..], k[..], windowed[..]);
    }
    var lp2 := BwExpand(lp[..], LPC_CHIRP_SYNTDENUM);
    lsf := seq(LPC_FILTERORDER, k requires 0 <= k < LPC_FILTERORDER => an.a2lsf(lp2, k));
  }

  /** SimpleAnalysis: the last samples stay behind for the next frame. */
  method SimpleAnalysis(an: Analysis, data: seq<real>, lpcBuffer: array<real>) returns (lsf: seq<real>)
    requires IsAnalysis(an) && |data| == BLOCKL && lpcBuffer.Length == LPC_LOOKBACK + BLOCKL
    modifies lpcBuffer
    ensures lsf == LsfOf(an, old(lpcBuffer[..LPC_LOOKBACK]) + data)
    ensures lpcBuffer[..LPC_LOOKBACK] == Sub(data, BLOCKL - LPC_LOOKBACK, LPC_LOOKBACK)
  {
    hide LsfOfBlock;
    ghost var signal := lpcBuffer[..LPC_LOOKBACK] + data;
    forall i | 0 <= i < BLOCKL {
      lpcBuffer[LPC_LOOKBACK + i] := data[i];
    }
    assert lpcBuffer[..] == signal;
    var first := AnalyseBlock(an, lpcBuffer[..BLOCKL], an.win);
    var second := AnalyseBlock(an, lpcBuffer[LPC_LOOKBACK..], an.asymWin);
    assert lpcBuffer[..BLOCKL] == Sub(signal, 0, BLOCKL) && lpcBuffer[LPC_LOOKBACK..] == Sub(signal, LPC_LOOKBACK, BLOCKL);
    lsf := first + second;
    forall i | 0 <= i < LPC_LOOKBACK {
      lpcBuffer[i] := lpcBuffer[BLOCKL + i];
    }
  }
}
