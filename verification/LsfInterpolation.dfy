/**
 From dequantised line spectral frequencies to the filters of the six subframes, on both
 sides, with the one vector that is remembered from frame to frame.
 */
module LsfInterpolation {
  import opened Constants
  import opened Reals

  /**
   The parts of the codec both sides compute alike, by numerical methods that are not part of
   this model: coefficient k of the filter of a vector, coefficient k of the two vectors after
   the separation check, powers and logarithms of ten; and, for the decoder, sample k of the
   smoothed block at a position of the enhancer's buffer under its periods.
   */
  datatype Shared = Shared(
    lsf2a: (seq<real>, nat) -> real, check: (seq<real>, nat) -> real, power10: real -> Positive, log10: real -> real,
    smooth: (seq<real>, seq<real>, nat, nat) -> real)

  // ---------- Specification ----------

  function Weight(i: nat): real
    requires i < NSUB
  {
    if i == 0 then 0.5 else if i == 1 then 1.0 else if i == 2 then 2.0 / 3.0 else if i == 3 then 1.0 / 3.0 else 0.0
  }

  function Between(x: seq<real>, y: seq<real>, coef: real): (z: seq<real>)
    requires |x| == |y|
    ensures |z| == |x|
  {
    seq(|x|, k requires 0 <= k < |x| => coef * x[k] + (1.0 - coef) * y[k])
  }

  function FilterOf(sh: Shared, lsf: seq<real>): (a: seq<real>)
    ensures |a| == LPC_FILTERORDER + 1 && a[0] == 1.0
  {
    seq(LPC_FILTERORDER + 1, k requires 0 <= k < LPC_FILTERORDER + 1 => if k == 0 then 1.0 else sh.lsf2a(lsf, k))
  }

  function CheckedLsf(sh: Shared, lsf: seq<real>): (c: seq<real>)
    ensures |c| == |lsf|
  {
    seq(|lsf|, k requires 0 <= k < |lsf| => sh.check(lsf, k))
  }

  function FirstOf(lsf: seq<real>): (v: seq<real>)
    requires |lsf| == 2 * LPC_FILTERORDER
    ensures |v| == LPC_FILTERORDER
  {
    lsf[..LPC_FILTERORDER]
  }

  function SecondOf(lsf: seq<real>): (v: seq<real>)
    requires |lsf| == 2 * LPC_FILTERORDER
    ensures |v| == LPC_FILTERORDER
  {
    lsf[LPC_FILTERORDER..]
  }

  /** The vector of subframe i: between the remembered and the first one, then between first and second. */
  function SubframeLsf(past: seq<real>, lsf: seq<real>, i: nat): (v: seq<real>)
    requires |past| == LPC_FILTERORDER && |lsf| == 2 * LPC_FILTERORDER && i < NSUB
    ensures |v| == LPC_FILTERORDER
  {
    if i == 0 then Between(past, FirstOf(lsf), Weight(0)) else Between(FirstOf(lsf), SecondOf(lsf), Weight(i))
  }

  function SubframeFilters(sh: Shared, past: seq<real>, lsf: seq<real>): (f: seq<seq<real>>)
    requires |past| == LPC_FILTERORDER && |lsf| == 2 * LPC_FILTERORDER
    ensures |f| == NSUB && forall i :: 0 <= i < NSUB ==> |f[i]| == LPC_FILTERORDER + 1 && f[i][0] == 1.0
  {
    seq(NSUB, i requires 0 <= i < NSUB => FilterOf(sh, SubframeLsf(past, lsf, i)))
  }

  /** The past matters to the first subframe only; the second uses the first vector, the last two the second. */
  lemma PastMattersOnce(sh: Shared, past: seq<real>, other: seq<real>, lsf: seq<real>, i: nat)
    requires |past| == |other| == LPC_FILTERORDER && |lsf| == 2 * LPC_FILTERORDER && 1 <= i < NSUB
    ensures SubframeFilters(sh, past, lsf)[i] == SubframeFilters(sh, other, lsf)[i]
    ensures i == 1 ==> SubframeFilters(sh, past, lsf)[i] == FilterOf(sh, FirstOf(lsf))
    ensures i >= 4 ==> SubframeFilters(sh, past, lsf)[i] == FilterOf(sh, SecondOf(lsf))
  {
    if i == 1 {
      assert SubframeLsf(past, lsf, i) == FirstOf(lsf);
    } else if i >= 4 {
      assert SubframeLsf(past, lsf, i) == SecondOf(lsf);
    }
  }

  /** The vectors go from the first to the second in three equal steps, and stay there; the first stands halfway from the past. */
  lemma EqualSteps(past: seq<real>, lsf: seq<real>, k: nat)
    requires |past| == LPC_FILTERORDER && |lsf| == 2 * LPC_FILTERORDER && k < LPC_FILTERORDER
    ensures var v := (i: nat) requires i < NSUB => SubframeLsf(past, lsf, i)[k];
            && 2.0 * v(0) == past[k] + FirstOf(lsf)[k] && v(1) == FirstOf(lsf)[k]
            && v(2) - v(1) == v(3) - v(2) == v(4) - v(3) && v(4) == v(5) == SecondOf(lsf)[k]
  {
  }

  /** Coefficient i scaled by the i-th power of the chirp. */
  function Expanded(a: seq<real>, chirp: real): (e: seq<real>)
    ensures |e| == |a|
  {
    seq(|a|, i requires 0 <= i < |a| => Times(Power(chirp, i), a[i]))
  }

  function WeightingFilters(sh: Shared, past: seq<real>, lsf: seq<real>): (f: seq<seq<real>>)
    requires |past| == LPC_FILTERORDER && |lsf| == 2 * LPC_FILTERORDER
    ensures |f| == NSUB && forall i :: 0 <= i < NSUB ==> |f[i]| == LPC_FILTERORDER + 1
  {
    var a := SubframeFilters(sh, past, lsf);
    seq(NSUB, i requires 0 <= i < NSUB => Expanded(a[i], LPC_CHIRP_WEIGHTDENUM))
  }

  lemma FiltersAt(sh: Shared, past: seq<real>, lsf: seq<real>, i: nat)
    requires |past| == LPC_FILTERORDER && |lsf| == 2 * LPC_FILTERORDER && i < NSUB
    ensures SubframeFilters(sh, past, lsf)[i]
            == FilterOf(sh, if i == 0 then Between(past, lsf[..LPC_FILTERORDER], Weight(0))
                            else Between(lsf[..LPC_FILTERORDER], lsf[LPC_FILTERORDER..], Weight(i)))
    ensures WeightingFilters(sh, past, lsf)[i] == Expanded(SubframeFilters(sh, past, lsf)[i], LPC_CHIRP_WEIGHTDENUM)
  {
  }

  // ---------- The routines ----------

  /** interpolate. */
  method Interpolate(in1: seq<real>, in2: seq<real>, coef: real) returns (r: seq<real>)
    requires |in1| == |in2|
    ensures r == Between(in1, in2, coef)
  {
    var invcoef := 1.0 - coef;
    var out := new real[|in1|];
    for i := 0 to |in1|
      invariant forall k {:trigger out[k]} :: 0 <= k < i ==> out[k] == Between(in1, in2, coef)[k]
    {
      out[i] := coef * in1[i] + invcoef * in2[i];
    }
    r := out[..];
  }

  /** bwexpand, with the running power of the factor. */
  method BwExpand(input: seq<real>, coef: real) returns (r: seq<real>)
    requires |input| > 0
    ensures r == Expanded(input, coef)
  {
    hide Times;
    var chirp := coef;
    var out := new real[|input|];
    out[0] := input[0];
    FirstPowers(coef, input[0]);
    for i := 1 to |input|
      invariant chirp == Power(coef, i)
      invariant forall k {:trigger out[k]} :: 0 <= k < i ==> out[k] == Times(Power(coef, k), input[k])
    {
      out[i] := Times(chirp, input[i]);
      chirp := Times(chirp, coef);
    }
    r := out[..];
  }

  lemma FirstPowers(c: real, x: real)
    ensures Times(Power(c, 0), x) == x && Power(c, 1) == c
  {
    assert Power(c, 0) == 1.0;
  }

  /** LSFinterpolate2a_enc and LSFinterpolate2a_dec, which are the same. */
  method LSFinterpolate2a(sh: Shared, lsf1: seq<real>, lsf2: seq<real>, coef: real) returns (a: seq<real>)
    requires |lsf1| == |lsf2|
    ensures a == FilterOf(sh, Between(lsf1, lsf2, coef))
  {
    var lsftmp := Interpolate(lsf1, lsf2, coef);
    a := FilterOf(sh, lsftmp);
  }

  /** DecoderInterpolateLSF: the filters of the frame and the vector to remember. */
  method DecoderInterpolateLSF(sh: Shared, lsfdeqold: seq<real>, lsfdeq: seq<real>)
    returns (syntdenum: array<seq<real>>, weightdenum: array<seq<real>>, remembered: seq<real>)
    requires |lsfdeqold| == LPC_FILTERORDER && |lsfdeq| == 2 * LPC_FILTERORDER
    ensures fresh(syntdenum) && syntdenum[..] == SubframeFilters(sh, lsfdeqold, lsfdeq)
    ensures fresh(weightdenum) && weightdenum[..] == WeightingFilters(sh, lsfdeqold, lsfdeq)
    ensures remembered == SecondOf(lsfdeq)
  {
    hide Between, FilterOf, Expanded, SubframeFilters, WeightingFilters;
    var lsfdeq2 := lsfdeq[LPC_FILTERORDER..];
    syntdenum, weightdenum := new seq<real>[NSUB], new seq<real>[NSUB];
    var lp := LSFinterpolate2a(sh, lsfdeqold, lsfdeq[..LPC_FILTERORDER], Weight(0));
    FiltersAt(sh, lsfdeqold, lsfdeq, 0);
    syntdenum[0] := lp;
    var wd := BwExpand(lp, LPC_CHIRP_WEIGHTDENUM);
    weightdenum[0] := wd;
    for i := 1 to NSUB
      invariant forall k {:trigger syntdenum[k]} :: 0 <= k < i ==> syntdenum[k] == SubframeFilters(sh, lsfdeqold, lsfdeq)[k]
      invariant forall k {:trigger weightdenum[k]} :: 0 <= k < i ==> weightdenum[k] == WeightingFilters(sh, lsfdeqold, lsfdeq)[k]
    {
      lp := LSFinterpolate2a(sh, lsfdeq[..LPC_FILTERORDER], lsfdeq2, Weight(i));
      FiltersAt(sh, lsfdeqold, lsfdeq, i);
      syntdenum[i] := lp;
      wd := BwExpand(lp, LPC_CHIRP_WEIGHTDENUM);
      weightdenum[i] := wd;
    }
    remembered := lsfdeq2;
  }

  /** SimpleInterpolateLSF: synthesis filters from the quantised vectors, weighting filters from the unquantised ones. */
  method SimpleInterpolateLSF(sh: Shared, lsf: seq<real>, lsfdeq: seq<real>, lsfold: seq<real>, lsfdeqold: seq<real>)
    returns (syntdenum: array<seq<real>>, weightdenum: array<seq<real>>, remembered: seq<real>, rememberedDeq: seq<real>)
    requires |lsf| == |lsfdeq| == 2 * LPC_FILTERORDER && |lsfold| == |lsfdeqold| == LPC_FILTERORDER
    ensures fresh(syntdenum) && syntdenum[..] == SubframeFilters(sh, lsfdeqold, lsfdeq)
    ensures fresh(weightdenum) && weightdenum[..] == WeightingFilters(sh, lsfold, lsf)
    ensures remembered == SecondOf(lsf) && rememberedDeq == SecondOf(lsfdeq)
  {
    hide Between, FilterOf, Expanded, SubframeFilters, WeightingFilters;
    var lsf2, lsfdeq2 := lsf[LPC_FILTERORDER..], lsfdeq[LPC_FILTERORDER..];
    syntdenum, weightdenum := new seq<real>[NSUB], new seq<real>[NSUB];
    var lp := LSFinterpolate2a(sh, lsfdeqold, lsfdeq[..LPC_FILTERORDER], Weight(0));
    FiltersAt(sh, lsfdeqold, lsfdeq, 0);
    FiltersAt(sh, lsfold, lsf, 0);
    syntdenum[0] := lp;
    lp := LSFinterpolate2a(sh, lsfold, lsf[..LPC_FILTERORDER], Weight(0));
    var wd := BwExpand(lp, LPC_CHIRP_WEIGHTDENUM);
    weightdenum[0] := wd;
    for i := 1 to NSUB
      invariant forall k {:trigger syntdenum[k]} :: 0 <= k < i ==> syntdenum[k] == SubframeFilters(sh, lsfdeqold, lsfdeq)[k]
      invariant forall k {:trigger weightdenum[k]} :: 0 <= k < i ==> weightdenum[k] == WeightingFilters(sh, lsfold, lsf)[k]
    {
      lp := LSFinterpolate2a(sh, lsfdeq[..LPC_FILTERORDER], lsfdeq2, Weight(i));
      FiltersAt(sh, lsfdeqold, lsfdeq, i);
      FiltersAt(sh, lsfold, lsf, i);
      syntdenum[i] := lp;
      lp := LSFinterpolate2a(sh, lsf[..LPC_FILTERORDER], lsf2, Weight(i));
      wd := BwExpand(lp, LPC_CHIRP_WEIGHTDENUM);
      weightdenum[i] := wd;
    }
    remembered, rememberedDeq := lsf2, lsfdeq2;
  }
}
