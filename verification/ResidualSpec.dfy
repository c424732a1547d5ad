/**
 What a frame's parameters mean: the 240 residual samples both sides must rebuild. A state of
 58 samples grows by prediction, first to 80, then forward to the end of the frame, then, read
 backwards, to its start; every prediction sees the last samples of what is decoded so far.
 */
module ResidualSpec {
  import opened Codebook
  import opened Constants
  import opened Quantisers
  import opened Reals
  import opened Sequences

  function Reverse<T>(s: seq<T>): (r: seq<T>)
    ensures |r| == |s|
    ensures forall i {:trigger r[i]} :: 0 <= i < |s| ==> r[i] == s[|s| - 1 - i]
  {
    seq(|s|, i requires 0 <= i < |s| => s[|s| - 1 - i])
  }

  lemma ReverseReverse<T>(s: seq<T>)
    ensures Reverse(Reverse(s)) == s
  {
  }

  /** The last n samples of a signal that was zero before it began. */
  function Recent(s: seq<real>, n: nat): (r: seq<real>)
    ensures |r| == n
    ensures forall i {:trigger r[i]} :: 0 <= i < n ==> r[i] == if |s| - n + i < 0 then 0.0 else s[|s| - n + i]
  {
    seq(n, i requires 0 <= i < n => if |s| - n + i < 0 then 0.0 else s[|s| - n + i])
  }

  /** A memory of n samples stays the recent past when it is shifted and the new samples are put at its end. */
  lemma RecentOfRecent(s: seq<real>, v: seq<real>, n: nat)
    requires |v| <= n
    ensures Recent(Recent(s, n) + v, n) == Recent(s + v, n)
  {
  }

  lemma RecentShorter(s: seq<real>, n: nat, m: nat)
    requires m <= n
    ensures Sub(Recent(s, n), n - m, m) == Recent(s, m)
  {
    hide Sub, Recent;
  }

  // ---------- One vector ----------

  /** Three codebook indices and three gain indices a memory and a length allow. */
  predicate Constructible(index: seq<nat>, gain: seq<nat>, lMem: nat, len: nat) {
    && Suits(lMem, len) && |index| == |gain| == CB_NSTAGES
    && (forall k :: 0 <= k < CB_NSTAGES ==> index[k] < 2 * BaseSize(lMem, len))
    && gain[0] < 32 && gain[1] < 16 && gain[2] < 8
  }

  function Gain0(gain: seq<nat>): real
    requires |gain| == CB_NSTAGES && gain[0] < 32
  {
    GainDequant(gain[0], 1.0, 32)
  }

  function Gain1(gain: seq<nat>): real
    requires |gain| == CB_NSTAGES && gain[0] < 32 && gain[1] < 16
  {
    GainDequant(gain[1], Abs(Gain0(gain)), 16)
  }

  function Gain2(gain: seq<nat>): real
    requires |gain| == CB_NSTAGES && gain[0] < 32 && gain[1] < 16 && gain[2] < 8
  {
    GainDequant(gain[2], Abs(Gain1(gain)), 8)
  }

  /** The sum of the three vectors, each with its gain. */
  function Constructed(mem: seq<real>, index: seq<nat>, gain: seq<nat>, len: nat): (v: seq<real>)
    requires Constructible(index, gain, |mem|, len)
    ensures |v| == len
  {
    var v0, v1, v2 := CbVec(mem, index[0], len), CbVec(mem, index[1], len), CbVec(mem, index[2], len);
    seq(len, j requires 0 <= j < len => Times(Gain0(gain), v0[j]) + Times(Gain1(gain), v1[j]) + Times(Gain2(gain), v2[j]))
  }

  /** A signal and the vector predicted from its recent past. */
  function Predicted(s: seq<real>, index: seq<nat>, gain: seq<nat>, lMem: nat, len: nat): (r: seq<real>)
    requires Constructible(index, gain, lMem, len)
    ensures |r| == |s| + len
  {
    s + Constructed(Recent(s, lMem), index, gain, len)
  }

  // ---------- Runs of subframes ----------

  /** Whether the entries of subframes from to from + n - 1 allow prediction from a full memory. */
  predicate AllConstructible(cb: seq<nat>, gain: seq<nat>, from: nat, n: nat) {
    && |cb| == |gain| && CB_NSTAGES * (from + n) <= |cb|
    && forall k :: from <= k < from + n ==> EntryConstructible(cb, gain, k)
  }

  predicate EntryConstructible(cb: seq<nat>, gain: seq<nat>, k: nat)
    requires |cb| == |gain|
  {
    CB_NSTAGES * k + CB_NSTAGES <= |cb| && Constructible(Entry(cb, k), Entry(gain, k), CB_MEML, SUBL)
  }

  /** The three entries of subframe k. */
  function Entry(a: seq<nat>, k: nat): (e: seq<nat>)
    requires CB_NSTAGES * k + CB_NSTAGES <= |a|
    ensures |e| == CB_NSTAGES
  {
    [a[CB_NSTAGES * k], a[CB_NSTAGES * k + 1], a[CB_NSTAGES * k + 2]]
  }

  /** n subframes predicted one after the other. */
  function Extended(s: seq<real>, cb: seq<nat>, gain: seq<nat>, from: nat, n: nat): (r: seq<real>)
    requires AllConstructible(cb, gain, from, n)
    ensures |r| == |s| + SUBL * n
    decreases n
  {
    if n == 0 then s else
    assert EntryConstructible(cb, gain, from + n - 1);
    Predicted(Extended(s, cb, gain, from, n - 1), Entry(cb, from + n - 1), Entry(gain, from + n - 1), CB_MEML, SUBL)
  }

  /** Only the entries of its own subframes matter. */
  lemma {:induction false} ExtendedDependsOn(s: seq<real>, cb: seq<nat>, gain: seq<nat>, cb': seq<nat>, gain': seq<nat>,
                                             from: nat, n: nat)
    requires AllConstructible(cb, gain, from, n) && |cb'| == |gain'| == |cb|
    requires forall i {:trigger cb[i]} {:trigger gain[i]} :: CB_NSTAGES * from <= i < CB_NSTAGES * (from + n) ==>
               cb[i] == cb'[i] && gain[i] == gain'[i]
    ensures AllConstructible(cb', gain', from, n)
    ensures Extended(s, cb, gain, from, n) == Extended(s, cb', gain', from, n)
    decreases n
  {
    hide Predicted, Constructible;
    forall k | from <= k < from + n
      ensures Entry(cb, k) == Entry(cb', k) && Entry(gain, k) == Entry(gain', k)
      ensures EntryConstructible(cb', gain', k)
    {
      assert EntryConstructible(cb, gain, k);
      var i := CB_NSTAGES * k;
      assert cb[i] == cb'[i] && cb[i + 1] == cb'[i + 1] && cb[i + 2] == cb'[i + 2];
    }
    if n > 0 {
      ExtendedDependsOn(s, cb, gain, cb', gain', from, n - 1);
    }
  }

  // ---------- A frame ----------

  /** The indices and gains of a frame, in the range the decoder's tables and buffers need. */
  predicate Decodable(extraIndex: seq<nat>, extraGain: seq<nat>, cb: seq<nat>, gain: seq<nat>) {
    && Constructible(extraIndex, extraGain, ST_MEML, DIFF)
    && |cb| == CB_NSTAGES * NASUB && AllConstructible(cb, gain, 0, NASUB)
  }

  /** The two subframes of the start state: the adaptive part follows the state, or precedes it. */
  function StartBlock(state: seq<real>, stateFirst: bool, extraIndex: seq<nat>, extraGain: seq<nat>): (b: seq<real>)
    requires |state| == STATE_SHORT_LEN && Constructible(extraIndex, extraGain, ST_MEML, DIFF)
    ensures |b| == STATE_LEN
  {
    if stateFirst then Predicted(state, extraIndex, extraGain, ST_MEML, DIFF)
    else Reverse(Predicted(Reverse(state), extraIndex, extraGain, ST_MEML, DIFF))
  }

  lemma Narrowed(cb: seq<nat>, gain: seq<nat>, from: nat, n: nat)
    requires AllConstructible(cb, gain, 0, NASUB) && |cb| == CB_NSTAGES * NASUB && from + n <= NASUB
    ensures AllConstructible(cb, gain, from, n)
  {
  }

  /** Forward to the end of the frame, then backward to its beginning. */
  function Decoded(block: seq<real>, start: nat, cb: seq<nat>, gain: seq<nat>): (r: seq<real>)
    requires |block| == STATE_LEN && 1 <= start <= 5
    requires |cb| == CB_NSTAGES * NASUB && AllConstructible(cb, gain, 0, NASUB)
    ensures |r| == BLOCKL
  {
    Narrowed(cb, gain, 0, 5 - start);
    Narrowed(cb, gain, 5 - start, start - 1);
    Reverse(Extended(Reverse(Extended(block, cb, gain, 0, 5 - start)), cb, gain, 5 - start, start - 1))
  }

  /** The start block is found, unchanged, at its place in the frame. */
  lemma BlockInPlace(block: seq<real>, start: nat, cb: seq<nat>, gain: seq<nat>)
    requires |block| == STATE_LEN && 1 <= start <= 5
    requires |cb| == CB_NSTAGES * NASUB && AllConstructible(cb, gain, 0, NASUB)
    ensures Sub(Decoded(block, start, cb, gain), SUBL * (start - 1), STATE_LEN) == block
  {
    hide AllConstructible, Constructible, Extended, Sub;
    Narrowed(cb, gain, 0, 5 - start);
    Narrowed(cb, gain, 5 - start, start - 1);
    var fwd := Extended(block, cb, gain, 0, 5 - start);
    var bwd := Extended(Reverse(fwd), cb, gain, 5 - start, start - 1);
    ExtendedKeeps(block, cb, gain, 0, 5 - start);
    ExtendedKeeps(Reverse(fwd), cb, gain, 5 - start, start - 1);
    var r := Reverse(bwd);
    forall k | 0 <= k < STATE_LEN
      ensures r[SUBL * (start - 1) + k] == block[k]
    {
      assert r[SUBL * (start - 1) + k] == bwd[|fwd| - 1 - k];
      assert bwd[|fwd| - 1 - k] == Reverse(fwd)[|fwd| - 1 - k] == fwd[k];
    }
  }

  /** Prediction only adds samples. */
  lemma {:induction false} ExtendedKeeps(s: seq<real>, cb: seq<nat>, gain: seq<nat>, from: nat, n: nat)
    requires AllConstructible(cb, gain, from, n)
    ensures forall i {:trigger s[i]} :: 0 <= i < |s| ==> Extended(s, cb, gain, from, n)[i] == s[i]
    decreases n
  {
    hide Constructible, Constructed;
    if n > 0 {
      ExtendedKeeps(s, cb, gain, from, n - 1);
    }
  }
}
