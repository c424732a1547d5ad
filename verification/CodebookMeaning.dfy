/** What the codebook is for: the vector of a lag continues a signal that has that period. */
module CodebookMeaning {
  import opened Codebook
  import opened Constants
  import opened Sequences

  /** The index of a lag in its section: lags of a whole vector and more first, then the short ones from 20 on. */
  function IndexOfLag(lMem: nat, len: nat, lag: nat): (i: nat)
    requires Suits(lMem, len) && lag <= lMem && (len <= lag || (len == SUBL && SUBL / 2 <= lag))
    ensures i < BaseSize(lMem, len)
  {
    if len <= lag then lag - len else Plain(lMem, len) + lag - SUBL / 2
  }

  /** x goes on from the memory with a period, which a memory of two short periods has already. */
  predicate GoesOn(x: seq<real>, mem: seq<real>, lag: nat) {
    && |mem| <= |x| && x[..|mem|] == mem && 0 < lag <= |mem|
    && (forall t {:trigger x[t]} :: |mem| <= t < |x| ==> x[t] == x[t - lag])
    && (lag < |x| - |mem| ==> 2 * lag <= |mem| && forall t {:trigger x[t]} :: |mem| - lag <= t < |mem| ==> x[t] == x[t - lag])
  }

  lemma MixOfEqual(a: real, x: real)
    ensures Mix(a, x, x) == x
  {
  }

  /** Sample j of the continuation, in the memory. */
  lemma Continuation(mem: seq<real>, x: seq<real>, lag: nat, j: nat)
    requires GoesOn(x, mem, lag) && |mem| + j < |x|
    ensures j < lag ==> x[|mem| + j] == mem[|mem| - lag + j]
    ensures lag < |x| - |mem| && j < 2 * lag ==> 2 * lag <= |mem| && x[|mem| + j] == mem[|mem| - 2 * lag + j]
  {
    var n, t := |mem|, |mem| + j;
    assert x[t] == x[t - lag];
    assert t - lag < n ==> x[t - lag] == x[..n][t - lag];
    if lag < |x| - n && j < 2 * lag {
      assert x[t - lag] == x[t - 2 * lag];
      assert x[t - 2 * lag] == x[..n][t - 2 * lag];
    }
  }

  /** The codebook vector of a lag is the continuation of any signal with that period. */
  lemma LagContinues(mem: seq<real>, x: seq<real>, len: nat, lag: nat)
    requires Suits(|mem|, len) && |x| == |mem| + len && GoesOn(x, mem, lag)
    requires len <= lag || (len == SUBL && SUBL / 2 <= lag)
    ensures SectionVec(mem, IndexOfLag(|mem|, len, lag), len) == x[|mem|..]
  {
    hide Mix, GoesOn;
    GoesFar(mem, x, lag);
    var v, n := SectionVec(mem, IndexOfLag(|mem|, len, lag), len), |mem|;
    forall j | 0 <= j < len
      ensures v[j] == x[n + j]
    {
      Continuation(mem, x, lag, j);
      if lag < len {
        MixOfEqual(Alfa(if j < lag - 5 then 0 else j - (lag - 5)), x[n + j]);
      }
    }
  }

  lemma GoesFar(mem: seq<real>, x: seq<real>, lag: nat)
    requires GoesOn(x, mem, lag)
    ensures |mem| <= |x| && 0 < lag <= |mem|
  {
  }

  /**
   In general a short lag fades over: the first samples are those a lag before the end, the last
   those two lags before, and the five before the seam move from one to the other in equal steps.
   */
  lemma SeamFades(mem: seq<real>, lag: nat, t: nat)
    requires SUBL / 2 <= lag < SUBL && 2 * lag <= |mem| && t < 5
    ensures var n, j := |mem|, lag - 5 + t;
            5.0 * (Augmented(mem, lag)[j] - mem[n - lag + j]) == t as real * (mem[n - 2 * lag + j] - mem[n - lag + j])
  {
    var n, j := |mem|, lag - 5 + t;
    FadeStep(t, mem[n - lag + j], mem[n - 2 * lag + j]);
  }

  lemma FadeStep(t: nat, x: real, y: real)
    ensures 5.0 * (Mix(Alfa(t), x, y) - x) == t as real * (y - x)
  {
  }

  // ---------- The filtered section ----------

  /** One sample of 1 at p, silence elsewhere. */
  predicate IsImpulse(mem: seq<real>, p: nat) {
    p < |mem| && forall i {:trigger mem[i]} :: 0 <= i < |mem| ==> mem[i] == if i == p then 1.0 else 0.0
  }

  lemma {:induction false} ImpulseTo(mem: seq<real>, p: nat, k: nat, n: nat)
    requires IsImpulse(mem, p) && k < |mem| && n <= CB_FILTERLEN
    ensures FilterSum(mem, k, n) == if 0 <= p + 3 - k < n then CbFilters()[p + 3 - k] else 0.0
  {
    hide CbFilters;
    if n > 0 {
      ImpulseTo(mem, p, k, n - 1);
    }
  }

  /** The eight taps of the filter, in order, come three samples late; at the ends of the memory they are cut off. */
  lemma ImpulseAnswer(mem: seq<real>, p: nat, k: nat)
    requires IsImpulse(mem, p) && k < |mem|
    ensures Filtered(mem)[k] == if 0 <= p + 3 - k < CB_FILTERLEN then CbFilters()[p + 3 - k] else 0.0
  {
    hide CbFilters, FilterSum;
    ImpulseTo(mem, p, k, CB_FILTERLEN);
  }
}
