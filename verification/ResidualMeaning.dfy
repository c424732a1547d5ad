/**
 Where the vectors of a frame lie: every subframe is predicted from the decoded samples next to
 it, and was searched for the residual at its place, with the weighting filter of its place.
 */
module ResidualMeaning {
  import opened Codebook
  import opened Constants
  import opened ResidualEncoding
  import opened ResidualSpec
  import opened Sequences
  import Filters

  /** The entry of subframe q: those after the start block come first, those before it follow, nearest first. */
  function EntryOf(q: nat, start: nat): (k: nat)
    requires 1 <= start <= 5 && q < NSUB && !(start - 1 <= q <= start)
    ensures k < NASUB
  {
    if q > start then q - start - 1 else 3 - q
  }

  function Three(a: seq<nat>, k: nat): (e: seq<nat>)
    requires CB_NSTAGES * k + CB_NSTAGES <= |a|
  {
    a[CB_NSTAGES * k..CB_NSTAGES * k + CB_NSTAGES]
  }

  /** The samples next to subframe q, the nearest last: from the start block to it, or backwards from the end of the frame. */
  function Beside(r: seq<real>, q: nat, start: nat): (m: seq<real>)
    requires |r| == BLOCKL && 1 <= start <= 5 && q < NSUB && !(start - 1 <= q <= start)
  {
    if q > start then r[SUBL * (start - 1)..SUBL * q] else Reverse(r[SUBL * (q + 1)..])
  }

  /** The samples of subframe q in the order in which they are predicted. */
  function Oriented(r: seq<real>, q: nat, start: nat): (v: seq<real>)
    requires |r| == BLOCKL && 1 <= start <= 5 && q < NSUB && !(start - 1 <= q <= start)
    ensures |v| == SUBL
  {
    if q > start then r[SUBL * q..SUBL * q + SUBL] else Reverse(r[SUBL * q..SUBL * q + SUBL])
  }

  lemma {:induction false} ExtendedParts(s: seq<real>, cb: seq<nat>, gain: seq<nat>, from: nat, n: nat, m: nat)
    requires AllConstructible(cb, gain, from, n) && m <= n
    ensures Extended(s, cb, gain, from, n)[..|s| + SUBL * m] == Extended(s, cb, gain, from, m)
    decreases n
  {
    hide Constructible, Constructed, Entry, Recent;
    if m < n {
      ExtendedParts(s, cb, gain, from, n - 1, m);
      assert EntryConstructible(cb, gain, from + n - 1);
      var x := Extended(s, cb, gain, from, n - 1);
      assert Extended(s, cb, gain, from, n)[..|s| + SUBL * m] == x[..|s| + SUBL * m];
    }
  }

  lemma ThreeIsEntry(a: seq<nat>, k: nat)
    requires CB_NSTAGES * k + CB_NSTAGES <= |a|
    ensures Three(a, k) == Entry(a, k)
  {
  }

  lemma ExtendedStep(s: seq<real>, cb: seq<nat>, gain: seq<nat>, from: nat, m: nat)
    requires AllConstructible(cb, gain, from, m + 1)
    ensures Constructible(Three(cb, from + m), Three(gain, from + m), CB_MEML, SUBL)
    ensures Extended(s, cb, gain, from, m + 1)
            == Extended(s, cb, gain, from, m)
               + Constructed(Recent(Extended(s, cb, gain, from, m), CB_MEML), Three(cb, from + m), Three(gain, from + m), SUBL)
  {
    hide Constructible, Constructed, Recent, Three, Entry;
    assert EntryConstructible(cb, gain, from + m);
    ThreeIsEntry(cb, from + m);
    ThreeIsEntry(gain, from + m);
  }

  lemma Fewer(cb: seq<nat>, gain: seq<nat>, from: nat, n: nat, m: nat)
    requires AllConstructible(cb, gain, from, n) && m <= n
    ensures AllConstructible(cb, gain, from, m)
  {
  }

  /** Subframe m of a run is the vector its entry stands for, on the samples before it. */
  lemma ExtendedPart(s: seq<real>, cb: seq<nat>, gain: seq<nat>, from: nat, n: nat, m: nat)
    requires AllConstructible(cb, gain, from, n) && m < n
    ensures Constructible(Three(cb, from + m), Three(gain, from + m), CB_MEML, SUBL)
    ensures var x, at := Extended(s, cb, gain, from, n), |s| + SUBL * m;
            x[at..at + SUBL] == Constructed(Recent(x[..at], CB_MEML), Three(cb, from + m), Three(gain, from + m), SUBL)
  {
    hide AllConstructible, Constructible, Constructed, Recent, Extended, Three;
    Fewer(cb, gain, from, n, m + 1);
    ExtendedStep(s, cb, gain, from, m);
    ExtendedParts(s, cb, gain, from, n, m);
    ExtendedParts(s, cb, gain, from, n, m + 1);
    var x, at := Extended(s, cb, gain, from, n), |s| + SUBL * m;
    assert x[at..at + SUBL] == x[..|s| + SUBL * (m + 1)][at..];
  }

  /** A signal that keeps another and goes on, read backwards, ends with that one read backwards. */
  lemma EndOfReversed(x: seq<real>, s: seq<real>)
    requires |s| <= |x| && forall i {:trigger s[i]} :: 0 <= i < |s| ==> x[i] == s[i]
    ensures Reverse(x)[|x| - |s|..] == Reverse(s)
  {
  }

  /** The end of a frame that is a backward run turned round is what the run began with. */
  lemma RunTurned(fwd: seq<real>, cb: seq<nat>, gain: seq<nat>, from: nat, n: nat)
    requires AllConstructible(cb, gain, from, n)
    ensures var r := Reverse(Extended(Reverse(fwd), cb, gain, from, n));
            && |r| == |fwd| + SUBL * n && r[SUBL * n..] == fwd
            && Reverse(r) == Extended(Reverse(fwd), cb, gain, from, n)
  {
    hide AllConstructible, Extended, Reverse;
    var bwd := Extended(Reverse(fwd), cb, gain, from, n);
    ExtendedKeeps(Reverse(fwd), cb, gain, from, n);
    EndOfReversed(bwd, Reverse(fwd));
    ReverseReverse(fwd);
    ReverseReverse(bwd);
  }

  /** Both runs in the decoded frame. */
  lemma FrameIs(block: seq<real>, start: nat, cb: seq<nat>, gain: seq<nat>)
    requires |block| == STATE_LEN && 1 <= start <= 5
    requires |cb| == CB_NSTAGES * NASUB && AllConstructible(cb, gain, 0, NASUB)
    ensures |gain| == |cb| && AllConstructible(cb, gain, 0, 5 - start) && AllConstructible(cb, gain, 5 - start, start - 1)
    ensures var fwd, r := Extended(block, cb, gain, 0, 5 - start), Decoded(block, start, cb, gain);
            && r[SUBL * (start - 1)..] == fwd
            && Reverse(r) == Extended(Reverse(fwd), cb, gain, 5 - start, start - 1)
  {
    hide AllConstructible, Extended, Reverse;
    SameLength(cb, gain);
    Narrowed(cb, gain, 0, 5 - start);
    Narrowed(cb, gain, 5 - start, start - 1);
    RunTurned(Extended(block, cb, gain, 0, 5 - start), cb, gain, 5 - start, start - 1);
  }

  lemma SameLength(cb: seq<nat>, gain: seq<nat>)
    requires AllConstructible(cb, gain, 0, NASUB)
    ensures |gain| == |cb|
  {
  }

  lemma BesideAfter(r: seq<real>, q: nat, start: nat)
    requires |r| == BLOCKL && 1 <= start < q < NSUB
    ensures Beside(r, q, start) == r[SUBL * (start - 1)..][..SUBL * (q - start + 1)]
    ensures Oriented(r, q, start) == r[SUBL * (start - 1)..][SUBL * (q - start + 1)..SUBL * (q - start + 1) + SUBL]
  {
  }

  lemma BesideBefore(r: seq<real>, q: nat, start: nat)
    requires |r| == BLOCKL && q + 1 < start <= 5
    ensures Beside(r, q, start) == Reverse(r)[..SUBL * (5 - q)]
    ensures Oriented(r, q, start) == Reverse(r)[SUBL * (5 - q)..SUBL * (5 - q) + SUBL]
  {
  }

  lemma TargetAfter(x: seq<real>, q: nat, start: nat)
    requires |x| == BLOCKL && 1 <= start < q < NSUB
    ensures Sub(Sub(x, (start + 1) * SUBL, SUBL * (5 - start)), SUBL * (q - start - 1), SUBL) == Oriented(x, q, start)
  {
  }

  lemma TargetBefore(x: seq<real>, q: nat, start: nat)
    requires |x| == BLOCKL && q + 1 < start <= 5
    ensures Sub(Reverse(Sub(x, 0, (start - 1) * SUBL)), SUBL * (start - 2 - q), SUBL) == Oriented(x, q, start)
  {
  }

  lemma WeightIs(weights: seq<seq<real>>, q: nat, start: nat)
    requires |weights| == NSUB && 1 <= start <= 5 && q < NSUB
    ensures q > start ==> Sub(weights, start + 1, 5 - start)[q - start - 1] == weights[q]
    ensures q + 1 < start ==> Reverse(Sub(weights, 0, start - 1))[start - 2 - q] == weights[q]
  {
  }

  /** Subframe q of r is the vector of its entry, on the samples beside it. */
  predicate PredictedAt(r: seq<real>, start: nat, cb: seq<nat>, gain: seq<nat>, q: nat)
    requires |r| == BLOCKL && |cb| == |gain| == CB_NSTAGES * NASUB && 1 <= start <= 5 && q < NSUB && !(start - 1 <= q <= start)
  {
    var index, gains := Three(cb, EntryOf(q, start)), Three(gain, EntryOf(q, start));
    && Constructible(index, gains, CB_MEML, SUBL)
    && Oriented(r, q, start) == Constructed(Recent(Beside(r, q, start), CB_MEML), index, gains, SUBL)
  }

  lemma PredictedAfter(r: seq<real>, block: seq<real>, start: nat, cb: seq<nat>, gain: seq<nat>, q: nat)
    requires |r| == BLOCKL && |cb| == |gain| == CB_NSTAGES * NASUB && 1 <= start < q < NSUB && |block| == STATE_LEN
    requires AllConstructible(cb, gain, 0, 5 - start) && r[SUBL * (start - 1)..] == Extended(block, cb, gain, 0, 5 - start)
    ensures PredictedAt(r, start, cb, gain, q)
  {
    hide AllConstructible, Beside, Constructible, Constructed, Extended, Oriented, Recent, Three;
    ExtendedPart(block, cb, gain, 0, 5 - start, q - start - 1);
    BesideAfter(r, q, start);
  }

  lemma PredictedBefore(r: seq<real>, fwd: seq<real>, start: nat, cb: seq<nat>, gain: seq<nat>, q: nat)
    requires |r| == BLOCKL && |cb| == |gain| == CB_NSTAGES * NASUB && q + 1 < start <= 5 && |fwd| == SUBL * (7 - start)
    requires AllConstructible(cb, gain, 5 - start, start - 1)
    requires Reverse(r) == Extended(Reverse(fwd), cb, gain, 5 - start, start - 1)
    ensures PredictedAt(r, start, cb, gain, q)
  {
    hide AllConstructible, Beside, Constructible, Constructed, Extended, Oriented, Recent, Reverse, Three;
    ExtendedPart(Reverse(fwd), cb, gain, 5 - start, start - 1, start - 2 - q);
    BesideBefore(r, q, start);
  }

  /** Every subframe outside the start block is the vector of its entry, predicted from the decoded samples beside it. */
  lemma EverySubframeIsPredicted(block: seq<real>, start: nat, cb: seq<nat>, gain: seq<nat>, q: nat)
    requires |block| == STATE_LEN && 1 <= start <= 5 && q < NSUB && !(start - 1 <= q <= start)
    requires |cb| == |gain| == CB_NSTAGES * NASUB && AllConstructible(cb, gain, 0, NASUB)
    ensures PredictedAt(Decoded(block, start, cb, gain), start, cb, gain, q)
  {
    hide AllConstructible, Decoded, Extended, PredictedAt;
    FrameIs(block, start, cb, gain);
    var fwd, r := Extended(block, cb, gain, 0, 5 - start), Decoded(block, start, cb, gain);
    if q > start {
      PredictedAfter(r, block, start, cb, gain, q);
    } else {
      PredictedBefore(r, fwd, start, cb, gain, q);
    }
  }

  /** Subframe q was searched for the residual at its place, on the samples beside it in r. */
  ghost predicate SearchedAt(r: seq<real>, residual: seq<real>, weights: seq<seq<real>>, start: nat, cb: seq<nat>,
                             gain: seq<nat>, q: nat)
    requires |r| == |residual| == BLOCKL && |weights| == NSUB && |cb| == |gain| == CB_NSTAGES * NASUB
    requires 1 <= start <= 5 && q < NSUB && !(start - 1 <= q <= start)
  {
    var k := EntryOf(q, start);
    SearchedFor(Three(cb, k), Three(gain, k), Recent(Beside(r, q, start), CB_MEML), Oriented(residual, q, start), weights[q], k + 1)
  }

  lemma StepAt(cb: seq<nat>, gain: seq<nat>, sig: seq<real>, target: seq<real>, weights: seq<seq<real>>, from: nat, n: nat, m: nat)
    requires AllSearched(cb, gain, sig, target, weights, from, n) && m < n
    ensures StepSearched(cb, gain, sig, target, weights, from, m)
  {
    hide StepSearched;
  }

  lemma SearchedAfter(r: seq<real>, residual: seq<real>, weights: seq<seq<real>>, block: seq<real>, start: nat, cb: seq<nat>,
                      gain: seq<nat>, q: nat)
    requires |r| == |residual| == BLOCKL && |weights| == NSUB && |cb| == |gain| == CB_NSTAGES * NASUB
    requires 1 <= start < q < NSUB && |block| == STATE_LEN && AllConstructible(cb, gain, 0, 5 - start)
    requires r[SUBL * (start - 1)..] == Extended(block, cb, gain, 0, 5 - start)
    requires ForwardSearched(cb, gain, block, residual, weights, start)
    ensures SearchedAt(r, residual, weights, start, cb, gain, q)
  {
    hide AllConstructible, AllSearched, Beside, Constructible, Extended, Oriented, Recent, Reverse, SearchedFor, Sub, Three,
         Entry;
    var m, target := q - start - 1, Sub(residual, (start + 1) * SUBL, SUBL * (5 - start));
    StepAt(cb, gain, block, target, Sub(weights, start + 1, 5 - start), 0, 5 - start, m);
    ExtendedParts(block, cb, gain, 0, 5 - start, m);
    ThreeIsEntry(cb, m);
    ThreeIsEntry(gain, m);
    BesideAfter(r, q, start);
    TargetAfter(residual, q, start);
    WeightIs(weights, q, start);
  }

  lemma SearchedBefore(r: seq<real>, residual: seq<real>, weights: seq<seq<real>>, fwd: seq<real>, start: nat, cb: seq<nat>,
                       gain: seq<nat>, q: nat)
    requires |r| == |residual| == BLOCKL && |weights| == NSUB && |cb| == |gain| == CB_NSTAGES * NASUB
    requires q + 1 < start <= 5 && |fwd| == SUBL * (7 - start) && AllConstructible(cb, gain, 5 - start, start - 1)
    requires Reverse(r) == Extended(Reverse(fwd), cb, gain, 5 - start, start - 1)
    requires BackwardSearched(cb, gain, fwd, residual, weights, start)
    ensures SearchedAt(r, residual, weights, start, cb, gain, q)
  {
    hide AllConstructible, AllSearched, Beside, Constructible, Extended, Oriented, Recent, Reverse, SearchedFor, Sub, Three,
         Entry;
    var m, target := start - 2 - q, Reverse(Sub(residual, 0, (start - 1) * SUBL));
    StepAt(cb, gain, Reverse(fwd), target, Reverse(Sub(weights, 0, start - 1)), 5 - start, start - 1, m);
    ExtendedParts(Reverse(fwd), cb, gain, 5 - start, start - 1, m);
    ThreeIsEntry(cb, 3 - q);
    ThreeIsEntry(gain, 3 - q);
    BesideBefore(r, q, start);
    TargetBefore(residual, q, start);
    WeightIs(weights, q, start);
  }

  /**
   And it was searched for the residual at its place, weighted with the filter of its place, on
   the decoded samples beside it: nothing that a decoder does not have, and nothing misplaced.
   */
  lemma EverySubframeIsSearched(residual: seq<real>, weights: seq<seq<real>>, state: seq<real>, start: nat, stateFirst: bool,
                                extraIndex: seq<nat>, extraGain: seq<nat>, cb: seq<nat>, gain: seq<nat>, q: nat)
    requires |residual| == BLOCKL && |weights| == NSUB && 1 <= start <= 5 && |state| == STATE_SHORT_LEN
    requires Decodable(extraIndex, extraGain, cb, gain) && q < NSUB && !(start - 1 <= q <= start)
    requires ClosedLoop(residual, weights, state, start, stateFirst, extraIndex, extraGain, cb, gain)
    ensures SearchedAt(Decoded(StartBlock(state, stateFirst, extraIndex, extraGain), start, cb, gain), residual, weights, start,
                       cb, gain, q)
  {
    hide AllConstructible, Constructible, Extended, Decoded, StartBlock, StartSearched, ForwardSearched, BackwardSearched,
      SearchedAt;
    var block := StartBlock(state, stateFirst, extraIndex, extraGain);
    FrameIs(block, start, cb, gain);
    var fwd, r := Extended(block, cb, gain, 0, 5 - start), Decoded(block, start, cb, gain);
    if q > start {
      SearchedAfter(r, residual, weights, block, start, cb, gain, q);
    } else {
      SearchedBefore(r, residual, weights, fwd, start, cb, gain, q);
    }
  }

  // ---------- The start block ----------

  /** The samples of the adaptive part, in the order in which they are predicted. */
  function Adaptive(r: seq<real>, start: nat, stateFirst: bool): (v: seq<real>)
    requires |r| == BLOCKL && 1 <= start <= 5
    ensures |v| == DIFF
  {
    var at := SUBL * (start - 1);
    if stateFirst then r[at + STATE_SHORT_LEN..at + STATE_LEN] else Reverse(r[at..at + DIFF])
  }

  /** The state at its place, read towards the adaptive part. */
  function StateBeside(r: seq<real>, start: nat, stateFirst: bool): (v: seq<real>)
    requires |r| == BLOCKL && 1 <= start <= 5
    ensures |v| == STATE_SHORT_LEN
  {
    var at := SUBL * (start - 1);
    if stateFirst then r[at..at + STATE_SHORT_LEN] else Reverse(r[at + DIFF..at + STATE_LEN])
  }

  lemma BlockParts(b: seq<real>, state: seq<real>, stateFirst: bool, v: seq<real>)
    requires |state| == STATE_SHORT_LEN && |v| == DIFF
    requires b == if stateFirst then state + v else Reverse(Reverse(state) + v)
    ensures |b| == STATE_LEN
    ensures stateFirst ==> b[..STATE_SHORT_LEN] == state && b[STATE_SHORT_LEN..] == v
    ensures !stateFirst ==> Reverse(b[DIFF..]) == Reverse(state) && Reverse(b[..DIFF]) == v
  {
  }

  /** The adaptive part of the start block is the vector of its indices and gains, predicted from the state beside it. */
  lemma StartIsPredicted(state: seq<real>, start: nat, stateFirst: bool, extraIndex: seq<nat>, extraGain: seq<nat>,
                         cb: seq<nat>, gain: seq<nat>)
    requires |state| == STATE_SHORT_LEN && 1 <= start <= 5 && Decodable(extraIndex, extraGain, cb, gain)
    ensures var r := Decoded(StartBlock(state, stateFirst, extraIndex, extraGain), start, cb, gain);
            && StateBeside(r, start, stateFirst) == (if stateFirst then state else Reverse(state))
            && Adaptive(r, start, stateFirst)
               == Constructed(Recent(StateBeside(r, start, stateFirst), ST_MEML), extraIndex, extraGain, DIFF)
  {
    hide AllConstructible, Constructible, Constructed, Decoded, Recent, Reverse;
    var block := StartBlock(state, stateFirst, extraIndex, extraGain);
    var r, at := Decoded(block, start, cb, gain), SUBL * (start - 1);
    BlockInPlace(block, start, cb, gain);
    assert block == r[at..at + STATE_LEN];
    var side := if stateFirst then state else Reverse(state);
    BlockParts(block, state, stateFirst, Constructed(Recent(side, ST_MEML), extraIndex, extraGain, DIFF));
    assert r[at..at + STATE_SHORT_LEN] == block[..STATE_SHORT_LEN];
    assert r[at + STATE_SHORT_LEN..at + STATE_LEN] == block[STATE_SHORT_LEN..];
    assert r[at..at + DIFF] == block[..DIFF] && r[at + DIFF..at + STATE_LEN] == block[DIFF..];
  }

  /** The adaptive part was searched for the residual at its place, with the filter of the subframe it lies in. */
  ghost predicate StartSearchedAt(r: seq<real>, residual: seq<real>, weights: seq<seq<real>>, start: nat, stateFirst: bool,
                                  extraIndex: seq<nat>, extraGain: seq<nat>)
    requires |r| == |residual| == BLOCKL && |weights| == NSUB && 1 <= start <= 5
  {
    var first := SUBL * (start - 1) + if stateFirst then STATE_SHORT_LEN else 0;
    && first / SUBL == (first + DIFF - 1) / SUBL < NSUB
    && SearchedFor(extraIndex, extraGain, Recent(StateBeside(r, start, stateFirst), ST_MEML),
                   Adaptive(residual, start, stateFirst), weights[first / SUBL], 0)
  }

  lemma AdaptiveIs(x: seq<real>, start: nat, stateFirst: bool)
    requires |x| == BLOCKL && 1 <= start <= 5
    ensures var at := (start - 1) * SUBL;
            Adaptive(x, start, stateFirst) == if stateFirst then Sub(x, at + STATE_SHORT_LEN, DIFF) else Reverse(Sub(x, at, DIFF))
  {
  }

  lemma SearchedBeside(r: seq<real>, residual: seq<real>, weights: seq<seq<real>>, state: seq<real>, start: nat, stateFirst: bool,
                       extraIndex: seq<nat>, extraGain: seq<nat>)
    requires |r| == |residual| == BLOCKL && |weights| == NSUB && 1 <= start <= 5 && |state| == STATE_SHORT_LEN
    requires StateBeside(r, start, stateFirst) == if stateFirst then state else Reverse(state)
    requires StartSearched(state, stateFirst, residual, weights, start, extraIndex, extraGain)
    ensures StartSearchedAt(r, residual, weights, start, stateFirst, extraIndex, extraGain)
  {
    hide Adaptive, StateBeside, Recent, Reverse, SearchedFor, Sub;
    AdaptiveIs(residual, start, stateFirst);
  }

  /** And it was searched for the residual at its place. */
  lemma StartIsSearched(residual: seq<real>, weights: seq<seq<real>>, state: seq<real>, start: nat, stateFirst: bool,
                        extraIndex: seq<nat>, extraGain: seq<nat>, cb: seq<nat>, gain: seq<nat>)
    requires |residual| == BLOCKL && |weights| == NSUB && 1 <= start <= 5 && |state| == STATE_SHORT_LEN
    requires Decodable(extraIndex, extraGain, cb, gain)
    requires ClosedLoop(residual, weights, state, start, stateFirst, extraIndex, extraGain, cb, gain)
    ensures StartSearchedAt(Decoded(StartBlock(state, stateFirst, extraIndex, extraGain), start, cb, gain), residual, weights,
                            start, stateFirst, extraIndex, extraGain)
  {
    hide AllConstructible, Constructible, Constructed, Decoded, Recent, StartBlock, StartSearched, StartSearchedAt, ForwardSearched,
      BackwardSearched, StateBeside;
    StartIsPredicted(state, start, stateFirst, extraIndex, extraGain, cb, gain);
    SearchedBeside(Decoded(StartBlock(state, stateFirst, extraIndex, extraGain), start, cb, gain), residual, weights, state, start,
                   stateFirst, extraIndex, extraGain);
  }

  /** A search starts from rest: silence stays silent under the weighting. */
  lemma {:induction false} SilenceStays(weight: seq<real>, n: nat)
    requires |weight| == LPC_FILTERORDER + 1
    ensures Filters.Synthesised(weight, NoState(), seq(n, _ => 0.0)) == seq(n, _ => 0.0)
  {
    var e := seq(n, _ => 0.0);
    if n > 0 {
      SilenceStays(weight, n - 1);
      var y := Filters.Synthesised(weight, NoState(), seq(n - 1, _ => 0.0));
      assert e[..n - 1] == seq(n - 1, _ => 0.0);
      SilentTaps(weight, NoState() + y, LPC_FILTERORDER + n - 1, 1, LPC_FILTERORDER + 1);
    }
  }

  lemma {:induction false} SilentTaps(a: seq<real>, x: seq<real>, i: int, lo: nat, hi: nat)
    requires lo <= hi <= |a| && (lo < hi ==> hi - 1 <= i && i - lo < |x|) && forall k :: 0 <= k < |x| ==> x[k] == 0.0
    ensures Filters.Taps(a, x, i, lo, hi) == 0.0
    decreases hi
  {
    if lo < hi {
      SilentTaps(a, x, i, lo, hi - 1);
    }
  }
}
