/**
 The start state: 58 samples of the residual turned by an all-pass filter, scaled by their
 peak, and quantised one by one so that the weighted error stays small; and what a decoder
 makes of the indices.
 */
module StartState {
  import opened Buffers
  import opened Constants
  import opened Correlations
  import opened Filters
  import opened LsfInterpolation
  import opened Reals
  import Quantisers

  // ---------- Tables ----------

  function StateSq3(): (t: seq<real>)
    ensures |t| == 8
  {
    [-3.719849, -2.177490, -1.130005, -0.309692, 0.444214, 1.329712, 2.436279, 3.983887]
  }

  /** state_frgqTbl, eight levels at a time. */
  function FrgqRow(r: nat): (t: seq<real>)
    requires r < 8
    ensures |t| == 8
  {
    if r == 0 then [1.000085, 1.071695, 1.140395, 1.206868, 1.277188, 1.351503, 1.429380, 1.500727] else
    if r == 1 then [1.569049, 1.639599, 1.707071, 1.781531, 1.840799, 1.901550, 1.956695, 2.006750] else
    if r == 2 then [2.055474, 2.102787, 2.142819, 2.183592, 2.217962, 2.257177, 2.295739, 2.332967] else
    if r == 3 then [2.369248, 2.402792, 2.435080, 2.468598, 2.503394, 2.539284, 2.572944, 2.605036] else
    if r == 4 then [2.636331, 2.668939, 2.698780, 2.729101, 2.759786, 2.789834, 2.818679, 2.848074] else
    if r == 5 then [2.877470, 2.906899, 2.936655, 2.967804, 3.000115, 3.033367, 3.066355, 3.104231] else
    if r == 6 then [3.141499, 3.183012, 3.222952, 3.265433, 3.308441, 3.350823, 3.395275, 3.442793] else
    [3.490801, 3.542514, 3.604064, 3.666050, 3.740994, 3.830749, 3.938770, 4.101764]
  }

  function StateFrgq(): (t: seq<real>)
    ensures |t| == 64
  {
    seq(64, k requires 0 <= k < 64 => FrgqRow(k / 8)[k % 8])
  }

  lemma RowIncreases(r: nat)
    requires r < 8
    ensures forall i :: 0 < i < 8 ==> FrgqRow(r)[i - 1] < FrgqRow(r)[i]
    ensures r < 7 ==> FrgqRow(r)[7] < FrgqRow(r + 1)[0]
  {
  }

  lemma StateFrgqIncreases()
    ensures Quantisers.Increasing(StateFrgq())
  {
    hide FrgqRow, Quantisers.Increasing;
    forall k | 0 < k < 64
      ensures StateFrgq()[k - 1] < StateFrgq()[k]
    {
      RowIncreases((k - 1) / 8);
    }
    Quantisers.StepsIncrease(StateFrgq());
  }

  lemma StateSq3Increases()
    ensures Quantisers.Increasing(StateSq3())
  {
    hide Quantisers.Increasing;
    Quantisers.StepsIncrease(StateSq3());
  }

  // ---------- The all-pass filter ----------

  function Zeros(n: nat): (z: seq<real>)
    ensures |z| == n
  {
    seq(n, _ => 0.0)
  }

  function Turned(x: seq<real>): (t: seq<real>)
    ensures |t| == |x|
  {
    seq(|x|, k requires 0 <= k < |x| => x[|x| - 1 - k])
  }

  /** The filter whose zeros mirror its poles. */
  function AllPass(a: seq<real>, x: seq<real>): (y: seq<real>)
    requires |a| == LPC_FILTERORDER + 1
    ensures |y| == |x|
  {
    Synthesised(a, Zeros(LPC_FILTERORDER), Analysed(Turned(a), Zeros(LPC_FILTERORDER), x))
  }

  /** Its answer over twice the length, the second half added to the first. */
  function Circular(a: seq<real>, x: seq<real>): (y: seq<real>)
    requires |a| == LPC_FILTERORDER + 1
    ensures |y| == |x|
  {
    var long := AllPass(a, x + Zeros(|x|));
    seq(|x|, k requires 0 <= k < |x| => long[k] + long[k + |x|])
  }

  // ---------- What the indices stand for ----------

  predicate AreLevels(index: seq<nat>) {
    forall k :: 0 <= k < |index| ==> index[k] < 8
  }

  function Levels(index: seq<nat>): (v: seq<real>)
    requires AreLevels(index)
    ensures |v| == |index|
  {
    seq(|index|, k requires 0 <= k < |index| => StateSq3()[index[k]])
  }

  function Scaled(x: seq<real>, factor: real): (y: seq<real>)
    ensures |y| == |x|
  {
    seq(|x|, k requires 0 <= k < |x| => Times(factor, x[k]))
  }

  /** The levels on the scale of the peak. */
  function ScaledLevels(sh: Shared, idxForMax: nat, idxVec: seq<nat>): (v: seq<real>)
    requires idxForMax < 64 && AreLevels(idxVec)
    ensures |v| == |idxVec|
  {
    Scaled(Levels(idxVec), sh.power10(StateFrgq()[idxForMax]) / 4.5)
  }

  /** The state that the indices stand for under a filter: scaled levels through the filter backwards. */
  function StateOf(sh: Shared, idxForMax: nat, idxVec: seq<nat>, filter: seq<real>): (s: seq<real>)
    requires idxForMax < 64 && AreLevels(idxVec) && |filter| == LPC_FILTERORDER + 1
    ensures |s| == |idxVec|
  {
    Turned(Circular(filter, Turned(ScaledLevels(sh, idxForMax, idxVec))))
  }

  // ---------- Two filters with known answers ----------

  /** A filter that reads the same both ways passes everything unchanged: analysis and synthesis cancel. */
  lemma PalindromePasses(a: seq<real>, x: seq<real>)
    requires |a| == LPC_FILTERORDER + 1 && a[0] == 1.0 && Turned(a) == a
    ensures AllPass(a, x) == x && Circular(a, x) == x
  {
    hide Analysed, Synthesised, Turned;
    SynthesisInvertsAnalysis(a, Zeros(LPC_FILTERORDER), x);
    SynthesisInvertsAnalysis(a, Zeros(LPC_FILTERORDER), x + Zeros(|x|));
  }

  /** The filter without poles only delays. */
  function Delay(): (a: seq<real>)
    ensures |a| == LPC_FILTERORDER + 1
  {
    [1.0] + Zeros(LPC_FILTERORDER)
  }

  lemma {:induction false} NoTaps(a: seq<real>, x: seq<real>, i: int, lo: nat, hi: nat)
    requires lo <= hi <= |a| && (lo < hi ==> hi - 1 <= i && i - lo < |x|)
    requires forall j :: lo <= j < hi ==> a[j] == 0.0
    ensures Taps(a, x, i, lo, hi) == 0.0
    decreases hi
  {
    if lo < hi {
      NoTaps(a, x, i, lo, hi - 1);
    }
  }

  lemma DelayedSample(x: seq<real>, n: nat)
    requires n < |x|
    ensures AllPass(Delay(), x)[n] == (Zeros(LPC_FILTERORDER) + x)[n]
  {
    hide Analysed, Synthesised;
    var a, z := Delay(), Zeros(LPC_FILTERORDER);
    var t := Turned(a);
    var e := Analysed(t, z, x);
    SynthesisedAt(a, z, e, n);
    NoTaps(a, z + Synthesised(a, z, e)[..n], LPC_FILTERORDER + n, 1, LPC_FILTERORDER + 1);
    AnalysedAt(t, z, x, n);
    NoTaps(t, z + x, LPC_FILTERORDER + n, 0, LPC_FILTERORDER);
  }

  /** Folded, it turns a start state round by its order. */
  lemma DelayRotates(x: seq<real>, k: nat)
    requires k < |x| && LPC_FILTERORDER <= |x|
    ensures Circular(Delay(), x)[k] == x[if k < LPC_FILTERORDER then k + |x| - LPC_FILTERORDER else k - LPC_FILTERORDER]
  {
    hide AllPass;
    var long := x + Zeros(|x|);
    DelayedSample(long, k);
    DelayedSample(long, k + |x|);
  }

  lemma LevelsDiffer(i: nat, j: nat)
    requires i < 8 && j < 8 && i != j
    ensures StateSq3()[i] != StateSq3()[j]
  {
    StateSq3Increases();
  }

  lemma PlainState(sh: Shared, idxForMax: nat, idxVec: seq<nat>, a: seq<real>, k: nat)
    requires idxForMax < 64 && AreLevels(idxVec) && |a| == LPC_FILTERORDER + 1 && a[0] == 1.0 && Turned(a) == a
    requires k < |idxVec|
    ensures StateOf(sh, idxForMax, idxVec, a)[k] == ScaledLevels(sh, idxForMax, idxVec)[k]
  {
    hide Circular, Levels, Scaled, StateSq3, StateFrgq;
    PalindromePasses(a, Turned(ScaledLevels(sh, idxForMax, idxVec)));
  }

  lemma RotatedState(sh: Shared, idxForMax: nat, idxVec: seq<nat>, k: nat)
    requires idxForMax < 64 && AreLevels(idxVec) && LPC_FILTERORDER <= |idxVec| && k < |idxVec|
    ensures StateOf(sh, idxForMax, idxVec, Delay())[k] == ScaledLevels(sh, idxForMax, idxVec)[Round(k, |idxVec|)]
  {
    hide Circular, Delay, Levels, Scaled, StateSq3, StateFrgq;
    DelayRotates(Turned(ScaledLevels(sh, idxForMax, idxVec)), |idxVec| - 1 - k);
  }

  /** Ten samples further on, round the end. */
  function Round(k: nat, len: nat): (l: nat)
    requires k < len && LPC_FILTERORDER <= len
    ensures l < len
  {
    if k + LPC_FILTERORDER < len then k + LPC_FILTERORDER else k + LPC_FILTERORDER - len
  }

  /** Under these two filters the same indices give different states, unless they repeat every ten samples round the block. */
  lemma FiltersMatter(sh: Shared, idxForMax: nat, idxVec: seq<nat>, a: seq<real>, k: nat)
    requires idxForMax < 64 && AreLevels(idxVec) && |a| == LPC_FILTERORDER + 1 && a[0] == 1.0 && Turned(a) == a
    requires LPC_FILTERORDER <= |idxVec| && k < |idxVec| && idxVec[k] != idxVec[Round(k, |idxVec|)]
    ensures StateOf(sh, idxForMax, idxVec, a) != StateOf(sh, idxForMax, idxVec, Delay())
  {
    hide StateOf, StateSq3, StateFrgq, Delay, Times, Turned;
    var l := Round(k, |idxVec|);
    PlainState(sh, idxForMax, idxVec, a, k);
    RotatedState(sh, idxForMax, idxVec, k);
    LevelsDiffer(idxVec[k], idxVec[l]);
    TimesDiffers(sh.power10(StateFrgq()[idxForMax]) / 4.5, StateSq3()[idxVec[k]], StateSq3()[idxVec[l]]);
  }

  lemma TimesDiffers(f: real, x: real, y: real)
    requires f > 0.0 && x != y
    ensures Times(f, x) != Times(f, y)
  {
    var d := x - y;
    assert f * d != 0.0;
    assert f * x - f * y == f * d;
  }

  // ---------- StateConstructW ----------

  /** A buffer whose state, the samples before the signal, is zero. */
  method Padded(x: seq<real>) returns (buf: array<real>)
    ensures fresh(buf) && buf.Length == LPC_FILTERORDER + |x|
    ensures buf[..LPC_FILTERORDER] == Zeros(LPC_FILTERORDER) && buf[LPC_FILTERORDER..] == x
  {
    buf := new real[LPC_FILTERORDER + |x|](_ => 0.0);
    forall k | 0 <= k < |x| {
      buf[LPC_FILTERORDER + k] := x[k];
    }
  }

  /** The all-pass filter at work. */
  method AllPassFilter(a: seq<real>, x: seq<real>) returns (y: seq<real>)
    requires |a| == LPC_FILTERORDER + 1
    ensures y == AllPass(a, x)
  {
    hide AllPass, Analysed, Overwritten, Synthesised, Turned, Zeros;
    var numerator := seq(LPC_FILTERORDER + 1, k requires 0 <= k < LPC_FILTERORDER + 1 => a[LPC_FILTERORDER - k]);
    TurnedIs(numerator, a);
    var tmp := Padded(x);
    var fout := Padded(Zeros(|x|));
    ghost var was := fout[..];
    assert tmp[LPC_FILTERORDER + 1 - |a|..LPC_FILTERORDER] == Zeros(LPC_FILTERORDER) == was[LPC_FILTERORDER + 1 - |a|..LPC_FILTERORDER];
    assert tmp[LPC_FILTERORDER..LPC_FILTERORDER + |x|] == x;
    ZeroPoleFilter(tmp, LPC_FILTERORDER, numerator, a, |x|, fout, LPC_FILTERORDER);
    AllPassIs(a, x);
    OverwrittenReads(fout[..], was, LPC_FILTERORDER, AllPass(a, x));
    y := fout[LPC_FILTERORDER..];
  }

  /** The signal, then as many zeros, filtered and folded. */
  method CircularFilter(a: seq<real>, x: seq<real>) returns (y: seq<real>)
    requires |a| == LPC_FILTERORDER + 1
    ensures y == Circular(a, x)
  {
    hide AllPass;
    var len := |x|;
    var fout := AllPassFilter(a, x + seq(len, _ => 0.0));
    assert seq(len, _ => 0.0) == Zeros(len);
    y := seq(len, k requires 0 <= k < len => fout[k] + fout[k + len]);
  }

  lemma TurnedIs(t: seq<real>, a: seq<real>)
    requires |t| == |a| && forall k :: 0 <= k < |a| ==> t[k] == a[|a| - 1 - k]
    ensures t == Turned(a)
  {
  }

  lemma AllPassIs(a: seq<real>, x: seq<real>)
    requires |a| == LPC_FILTERORDER + 1
    ensures AllPass(a, x) == Synthesised(a, Zeros(LPC_FILTERORDER), Analysed(Turned(a), Zeros(LPC_FILTERORDER), x))
  {
  }

  lemma TurnedLevels(tmp: seq<real>, index: seq<nat>, factor: real)
    requires AreLevels(index) && |tmp| == |index|
    requires forall k :: 0 <= k < |tmp| ==> tmp[k] == factor * StateSq3()[index[|index| - 1 - k]]
    ensures tmp == Turned(Scaled(Levels(index), factor))
  {
    hide StateSq3;
    forall k | 0 <= k < |tmp|
      ensures tmp[k] == Turned(Scaled(Levels(index), factor))[k]
    {
      assert Levels(index)[|index| - 1 - k] == StateSq3()[index[|index| - 1 - k]];
    }
  }

  method TurnAndScale(index: seq<nat>, factor: real) returns (tmp: array<real>)
    requires AreLevels(index)
    ensures fresh(tmp) && tmp[..] == Turned(Scaled(Levels(index), factor))
  {
    hide Levels, Scaled, StateSq3, Turned;
    var len := |index|;
    tmp := new real[len];
    for k := 0 to len
      invariant forall l :: 0 <= l < k ==> tmp[l] == factor * StateSq3()[index[len - 1 - l]]
    {
      tmp[k] := factor * StateSq3()[index[len - 1 - k]];
    }
    TurnedLevels(tmp[..], index, factor);
  }

  lemma StateAt(sh: Shared, idxForMax: nat, idxVec: seq<nat>, filter: seq<real>, k: nat)
    requires idxForMax < 64 && AreLevels(idxVec) && |filter| == LPC_FILTERORDER + 1 && k < |idxVec|
    ensures StateOf(sh, idxForMax, idxVec, filter)[k]
            == Circular(filter, Turned(ScaledLevels(sh, idxForMax, idxVec)))[|idxVec| - 1 - k]
  {
    hide Circular, ScaledLevels;
  }

  /** StateConstructW. */
  method StateConstructW(sh: Shared, idxForMax: nat, idxVec: seq<nat>, syntDenum: seq<real>, out: array<real>, at: nat)
    requires idxForMax < 64 && AreLevels(idxVec) && |syntDenum| == LPC_FILTERORDER + 1 && at + |idxVec| <= out.Length
    modifies out
    ensures Overwritten(out[..], old(out[..]), at, StateOf(sh, idxForMax, idxVec, syntDenum))
  {
    hide Circular, Levels, Scaled, StateFrgq, StateOf, StateSq3, Turned;
    var len := |idxVec|;
    var tmp := TurnAndScale(idxVec, sh.power10(StateFrgq()[idxForMax]) / 4.5);
    var fout := CircularFilter(syntDenum, tmp[..]);
    ghost var state := StateOf(sh, idxForMax, idxVec, syntDenum);
    forall k | 0 <= k < len {
      out[at + k] := fout[len - 1 - k];
    }
    forall k | 0 <= k < len
      ensures state[k] == fout[len - 1 - k]
    {
      StateAt(sh, idxForMax, idxVec, syntDenum, k);
    }
  }

  // ---------- Noise shaping ----------

  /** The weighting filters at work on a start state: the second from sample `split` on. */
  datatype Shaping = Shaping(first: seq<real>, second: seq<real>, split: nat)

  predicate IsShaping(s: Shaping) {
    |s.first| == |s.second| == LPC_FILTERORDER + 1 && LPC_FILTERORDER <= s.split
  }

  function FilterAt(s: Shaping, n: nat): (a: seq<real>)
    requires IsShaping(s)
    ensures |a| == LPC_FILTERORDER + 1
  {
    if n < s.split then s.first else s.second
  }

  /** Synthesis from rest with a change of filter on the way. */
  function NoiseShaped(s: Shaping, e: seq<real>): (y: seq<real>)
    requires IsShaping(s)
    ensures |y| == |e|
  {
    if e == [] then [] else
    var n := |e| - 1;
    var y := NoiseShaped(s, e[..n]);
    y + [e[n] - Feedback(s, y)]
  }

  /** What the samples so far feed back into the next one. */
  function Feedback(s: Shaping, y: seq<real>): real
    requires IsShaping(s)
  {
    Taps(FilterAt(s, |y|), Zeros(LPC_FILTERORDER) + y, LPC_FILTERORDER + |y|, 1, LPC_FILTERORDER + 1)
  }

  lemma {:induction false} ShapedPrefix(s: Shaping, e: seq<real>, n: nat)
    requires IsShaping(s) && n <= |e|
    ensures NoiseShaped(s, e)[..n] == NoiseShaped(s, e[..n])
  {
    hide Feedback;
    if n < |e| {
      var k := |e| - 1;
      assert e[..k][..n] == e[..n];
      ShapedPrefix(s, e[..k], n);
    } else {
      assert e[..n] == e;
    }
  }

  /** Taps read the samples, wherever they lie. */
  lemma {:induction false} TapsMoved(a: seq<real>, x: seq<real>, i: int, y: seq<real>, j: int, lo: nat, hi: nat)
    requires lo <= hi <= |a|
    requires lo < hi ==> hi - 1 <= i && i - lo < |x| && hi - 1 <= j && j - lo < |y|
    requires forall p {:trigger x[p]} :: i - hi < p <= i - lo ==> x[p] == y[p + j - i]
    ensures Taps(a, x, i, lo, hi) == Taps(a, y, j, lo, hi)
    decreases hi
  {
    if lo < hi {
      TapsMoved(a, x, i, y, j, lo, hi - 1);
    }
  }

  /** One sample through a filter whose state is the end of the signal so far. */
  lemma OneSample(s: Shaping, y: seq<real>, mem: seq<real>, v: real)
    requires IsShaping(s) && |mem| == LPC_FILTERORDER
    requires mem == (Zeros(LPC_FILTERORDER) + y)[|y|..]
    ensures Synthesised(FilterAt(s, |y|), mem, [v]) == [v - Feedback(s, y)]
  {
    var a := FilterAt(s, |y|);
    SynthesisedAt(a, mem, [v], 0);
    TapsMoved(a, mem + Synthesised(a, mem, [v])[..0], LPC_FILTERORDER, Zeros(LPC_FILTERORDER) + y, LPC_FILTERORDER + |y|,
              1, LPC_FILTERORDER + 1);
  }

  /** A stretch of samples under one filter, from the state the signal before left. */
  lemma {:induction false} Stretch(s: Shaping, e: seq<real>, at: nat, a: seq<real>, mem: seq<real>)
    requires IsShaping(s) && at <= |e| && |a| == LPC_FILTERORDER + 1 && |mem| == LPC_FILTERORDER
    requires forall n {:trigger FilterAt(s, n)} :: at <= n < |e| ==> FilterAt(s, n) == a
    requires mem == (Zeros(LPC_FILTERORDER) + NoiseShaped(s, e[..at]))[at..]
    ensures NoiseShaped(s, e) == NoiseShaped(s, e[..at]) + Synthesised(a, mem, e[at..])
  {
    hide FilterAt, Taps;
    if |e| > at {
      var n := |e| - 1;
      assert e[..n][..at] == e[..at] && e[..n][at..] == e[at..][..n - at];
      Stretch(s, e[..n], at, a, mem);
      var x, y := NoiseShaped(s, e[..at]), Synthesised(a, mem, e[at..][..n - at]);
      assert NoiseShaped(s, e[..n]) == x + y;
      assert FilterAt(s, n) == a;
      TapsMoved(a, mem + y, LPC_FILTERORDER + n - at, Zeros(LPC_FILTERORDER) + (x + y), LPC_FILTERORDER + n, 1, LPC_FILTERORDER + 1);
      assert e[at..][n - at] == e[n];
    } else {
      assert e[..at] == e && e[at..] == [];
    }
  }

  lemma StretchOfPart(s: Shaping, e: seq<real>, at: nat, n: nat, a: seq<real>, mem: seq<real>)
    requires IsShaping(s) && at + n <= |e| && |a| == LPC_FILTERORDER + 1 && |mem| == LPC_FILTERORDER
    requires forall k {:trigger FilterAt(s, k)} :: at <= k < at + n ==> FilterAt(s, k) == a
    requires mem == (Zeros(LPC_FILTERORDER) + NoiseShaped(s, e[..at]))[at..]
    ensures NoiseShaped(s, e[..at + n]) == NoiseShaped(s, e[..at]) + Synthesised(a, mem, e[at..at + n])
  {
    hide FilterAt, NoiseShaped, Synthesised;
    assert e[..at + n][..at] == e[..at] && e[..at + n][at..] == e[at..at + n];
    Stretch(s, e[..at + n], at, a, mem);
  }

  /** A buffer whose first n samples are filtered. */
  ghost predicate FilteredTo(now: seq<real>, s: Shaping, e: seq<real>, n: nat)
    requires IsShaping(s) && n <= |e|
  {
    now == Zeros(LPC_FILTERORDER) + NoiseShaped(s, e[..n]) + e[n..]
  }

  lemma MiddleReplaced<T>(was: seq<T>, x: seq<T>, rest: seq<T>, y: seq<T>)
    requires was == x + rest && |y| <= |rest|
    ensures was[..|x|] + y + was[|x| + |y|..] == x + y + rest[|y|..]
  {
  }

  lemma Regrouped<T>(z: seq<T>, a: seq<T>, y: seq<T>, e: seq<T>, at: nat, n: nat)
    requires at + n <= |e|
    ensures (z + a) + y + e[at..][n..] == z + (a + y) + e[at + n..]
  {
  }

  lemma StretchDone(s: Shaping, e: seq<real>, at: nat, n: nat, a: seq<real>, x: seq<real>)
    requires IsShaping(s) && at + n <= |e| && |a| == LPC_FILTERORDER + 1
    requires forall k {:trigger FilterAt(s, k)} :: at <= k < at + n ==> FilterAt(s, k) == a
    requires x == Zeros(LPC_FILTERORDER) + NoiseShaped(s, e[..at])
    ensures FilteredTo(x + Synthesised(a, x[at..], e[at..at + n]) + e[at..][n..], s, e, at + n)
  {
    hide FilterAt, NoiseShaped, Synthesised, Zeros;
    StretchOfPart(s, e, at, n, a, x[at..]);
    Regrouped(Zeros(LPC_FILTERORDER), NoiseShaped(s, e[..at]), Synthesised(a, x[at..], e[at..at + n]), e, at, n);
  }

  lemma StretchBegins(was: seq<real>, s: Shaping, e: seq<real>, at: nat, n: nat, x: seq<real>)
    requires IsShaping(s) && at + n <= |e| && FilteredTo(was, s, e, at)
    requires x == Zeros(LPC_FILTERORDER) + NoiseShaped(s, e[..at])
    ensures was == x + e[at..] && |x| == LPC_FILTERORDER + at
    ensures was[at..LPC_FILTERORDER + at] == x[at..]
    ensures was[LPC_FILTERORDER + at..LPC_FILTERORDER + at + n] == e[at..at + n]
  {
    hide NoiseShaped, Zeros;
  }

  /** A stretch of the buffer, by AllPoleFilter. */
  method WeightStretch(input: array<real>, s: Shaping, a: seq<real>, at: nat, n: nat, ghost e: seq<real>)
    requires IsShaping(s) && at + n <= |e| && |a| == LPC_FILTERORDER + 1 && FilteredTo(input[..], s, e, at)
    requires forall k {:trigger FilterAt(s, k)} :: at <= k < at + n ==> FilterAt(s, k) == a
    modifies input
    ensures FilteredTo(input[..], s, e, at + n)
  {
    hide FilterAt, FilteredTo, Overwritten, NoiseShaped, Synthesised, Zeros;
    ghost var was := input[..];
    ghost var x := Zeros(LPC_FILTERORDER) + NoiseShaped(s, e[..at]);
    StretchBegins(was, s, e, at, n, x);
    assert input[LPC_FILTERORDER + at + 1 - |a|..LPC_FILTERORDER + at] == x[at..];
    AllPoleFilter(input, LPC_FILTERORDER + at, a, n);
    ghost var y := Synthesised(a, x[at..], e[at..at + n]);
    OverwrittenReads(input[..], was, LPC_FILTERORDER + at, y);
    MiddleReplaced(was, x, e[at..], y);
    StretchDone(s, e, at, n, a, x);
  }

  // ---------- AbsQuantW ----------

  /** Level n leaves the rebuilt signal nearest to the target, given the levels before it. */
  ghost predicate ClosestAt(s: Shaping, target: seq<real>, out: seq<nat>, n: nat)
    requires IsShaping(s) && AreLevels(out) && n < |out| <= |target|
  {
    && (forall j :: 0 <= j < 8 ==> Abs(target[n] - NoiseShaped(s, Levels(out[..n + 1]))[n])
                                   <= Abs(target[n] - NoiseShaped(s, Levels(out[..n] + [j]))[n]))
    && (forall j :: 0 <= j < out[n] ==> Abs(target[n] - NoiseShaped(s, Levels(out[..n + 1]))[n])
                                        < Abs(target[n] - NoiseShaped(s, Levels(out[..n] + [j]))[n]))
  }

  ghost predicate Closest(s: Shaping, target: seq<real>, out: seq<nat>)
    requires IsShaping(s) && AreLevels(out) && |out| <= |target|
  {
    forall n :: 0 <= n < |out| ==> ClosestAt(s, target, out, n)
  }

  lemma OneMoreLevel(s: Shaping, out: seq<nat>, j: nat)
    requires IsShaping(s) && AreLevels(out) && j < 8
    ensures var y := NoiseShaped(s, Levels(out));
            NoiseShaped(s, Levels(out + [j])) == y + [StateSq3()[j] - Feedback(s, y)]
  {
    hide Feedback, StateSq3;
    var n := |out|;
    assert Levels(out + [j])[..n] == Levels(out);
    assert Levels(out + [j])[n] == StateSq3()[j];
  }

  lemma ChoiceIsClosest(s: Shaping, target: seq<real>, out: seq<nat>, q: nat)
    requires IsShaping(s) && AreLevels(out) && |out| < |target| && q < 8
    requires Quantisers.NearestLevel(StateSq3(), target[|out|] + Feedback(s, NoiseShaped(s, Levels(out))), q)
    ensures ClosestAt(s, target, out + [q], |out|)
  {
    hide Feedback, StateSq3, NoiseShaped, Levels;
    var n, longer := |out|, out + [q];
    assert longer[..n] == out && longer[..n + 1] == longer;
    OneMoreLevel(s, out, q);
    forall j | 0 <= j < 8
      ensures NoiseShaped(s, Levels(out + [j]))[n] == StateSq3()[j] - Feedback(s, NoiseShaped(s, Levels(out)))
    {
      OneMoreLevel(s, out, j);
    }
  }

  lemma EarlierStayClosest(s: Shaping, target: seq<real>, out: seq<nat>, q: nat, n: nat)
    requires IsShaping(s) && AreLevels(out) && n < |out| < |target| && q < 8 && ClosestAt(s, target, out, n)
    ensures ClosestAt(s, target, out + [q], n)
  {
    hide NoiseShaped, Levels;
    assert (out + [q])[..n] == out[..n] && (out + [q])[..n + 1] == out[..n + 1];
  }

  lemma ClosestGrows(s: Shaping, target: seq<real>, out: seq<nat>, q: nat)
    requires IsShaping(s) && AreLevels(out) && |out| < |target| && q < 8 && Closest(s, target, out)
    requires Quantisers.NearestLevel(StateSq3(), target[|out|] + Feedback(s, NoiseShaped(s, Levels(out))), q)
    ensures Closest(s, target, out + [q])
  {
    hide Feedback, StateSq3, NoiseShaped, Levels, ClosestAt;
    ChoiceIsClosest(s, target, out, q);
    forall n | 0 <= n < |out|
      ensures ClosestAt(s, target, out + [q], n)
    {
      EarlierStayClosest(s, target, out, q, n);
    }
  }

  /** One sample of the prediction filter, in its buffer: `v` less what the samples before it feed back. */
  method PredictSample(syntOut: array<real>, n: nat, s: Shaping, a: seq<real>, v: real, ghost y: seq<real>)
    requires IsShaping(s) && LPC_FILTERORDER + n < syntOut.Length && n == |y| && a == FilterAt(s, n)
    requires syntOut[..LPC_FILTERORDER + n] == Zeros(LPC_FILTERORDER) + y
    modifies syntOut
    ensures syntOut[..LPC_FILTERORDER + n + 1] == Zeros(LPC_FILTERORDER) + y + [v - Feedback(s, y)]
  {
    hide Feedback, FilterAt, Overwritten, Synthesised, Zeros;
    var at := LPC_FILTERORDER + n;
    syntOut[at] := v;
    ghost var was, x := syntOut[..], Zeros(LPC_FILTERORDER) + y;
    assert was[..at] == x && was[at + 1 - |a|..at] == x[n..] && was[at..at + 1] == [v];
    AllPoleFilter(syntOut, at, a, 1);
    OneSample(s, y, x[n..], v);
    OverwrittenReads(syntOut[..], was, at, [v - Feedback(s, y)]);
  }

  lemma FilteredAt(now: seq<real>, s: Shaping, e: seq<real>, m: nat, n: nat)
    requires IsShaping(s) && n < m <= |e| && FilteredTo(now, s, e, m)
    ensures now[LPC_FILTERORDER + n] == NoiseShaped(s, e)[n]
  {
    hide NoiseShaped, Zeros;
    ShapedPrefix(s, e, m);
    assert NoiseShaped(s, e)[..m][n] == NoiseShaped(s, e)[n];
  }

  lemma LevelsGrow(s: Shaping, out: seq<nat>, q: nat, now: seq<real>)
    requires IsShaping(s) && AreLevels(out) && q < 8
    requires var y := NoiseShaped(s, Levels(out));
             now == Zeros(LPC_FILTERORDER) + y + [StateSq3()[q] - Feedback(s, y)]
    ensures now == Zeros(LPC_FILTERORDER) + NoiseShaped(s, Levels(out + [q]))
  {
    hide Feedback, NoiseShaped, Levels, StateSq3, Zeros;
    OneMoreLevel(s, out, q);
  }

  /** One round of the loop of AbsQuantW, after the change of filter. */
  method QuantiseSample(syntOut: array<real>, n: nat, s: Shaping, a: seq<real>, x: real, ghost target: seq<real>,
                        ghost out: seq<nat>)
    returns (index: nat)
    requires IsShaping(s) && AreLevels(out) && |out| == n < |target| && x == target[n]
    requires LPC_FILTERORDER + n < syntOut.Length && a == FilterAt(s, n)
    requires syntOut[..LPC_FILTERORDER + n] == Zeros(LPC_FILTERORDER) + NoiseShaped(s, Levels(out))
    requires Closest(s, target, out)
    modifies syntOut
    ensures index < 8 && Closest(s, target, out + [index])
    ensures syntOut[..LPC_FILTERORDER + n + 1] == Zeros(LPC_FILTERORDER) + NoiseShaped(s, Levels(out + [index]))
  {
    hide Closest, Feedback, FilterAt, Levels, Quantisers.Increasing, Quantisers.NearestLevel, NoiseShaped, StateSq3, Zeros;
    ghost var y := NoiseShaped(s, Levels(out));
    PredictSample(syntOut, n, s, a, 0.0, y);
    var toQ := x - syntOut[LPC_FILTERORDER + n];
    assert syntOut[LPC_FILTERORDER + n] == (Zeros(LPC_FILTERORDER) + y + [0.0 - Feedback(s, y)])[LPC_FILTERORDER + n];
    StateSq3Increases();
    var xq;
    xq, index := Quantisers.SortSq(toQ, StateSq3());
    assert index < 8 by {
      LevelIsInTable(toQ, index);
    }
    assert syntOut[..LPC_FILTERORDER + n] == syntOut[..LPC_FILTERORDER + n + 1][..LPC_FILTERORDER + n] == Zeros(LPC_FILTERORDER) + y;
    PredictSample(syntOut, n, s, a, xq, y);
    LevelsGrow(s, out, index, syntOut[..LPC_FILTERORDER + n + 1]);
    ClosestGrows(s, target, out, index);
  }

  lemma LevelIsInTable(x: real, index: nat)
    requires Quantisers.NearestLevel(StateSq3(), x, index)
    ensures index < 8
  {
    hide StateSq3;
  }

  /** AbsQuantW: the weighting filters are applied to the input as the loop reaches them. */
  method AbsQuantW(input: array<real>, s: Shaping, ghost e: seq<real>) returns (out: seq<nat>)
    requires IsShaping(s) && s.split <= |e| && input[..] == Zeros(LPC_FILTERORDER) + e
    modifies input
    ensures |out| == |e| && AreLevels(out) && Closest(s, NoiseShaped(s, e), out)
  {
    hide ClosestAt, Levels, NoiseShaped, Zeros;
    var len, w := input.Length - LPC_FILTERORDER, s.first;
    Nothing(s, e, input[..]);
    WeightStretch(input, s, w, 0, s.split, e);
    var syntOut := new real[LPC_FILTERORDER + len](_ => 0.0);
    out := [];
    assert syntOut[..LPC_FILTERORDER] == Zeros(LPC_FILTERORDER) + NoiseShaped(s, Levels(out)) by {
      AtRest(s, syntOut[..LPC_FILTERORDER]);
    }
    for n := 0 to len
      invariant |out| == n && AreLevels(out) && Closest(s, NoiseShaped(s, e), out)
      invariant w == if n <= s.split then s.first else s.second
      invariant FilteredTo(input[..], s, e, if n <= s.split then s.split else len)
      invariant syntOut[..LPC_FILTERORDER + n] == Zeros(LPC_FILTERORDER) + NoiseShaped(s, Levels(out))
    {
      if n == s.split {
        w := s.second;
        WeightStretch(input, s, w, n, len - n, e);
      }
      FilteredAt(input[..], s, e, if n < s.split then s.split else len, n);
      var index := QuantiseSample(syntOut, n, s, w, input[LPC_FILTERORDER + n], NoiseShaped(s, e), out);
      out := out + [index];
    }
  }

  lemma Nothing(s: Shaping, e: seq<real>, now: seq<real>)
    requires IsShaping(s) && now == Zeros(LPC_FILTERORDER) + e
    ensures FilteredTo(now, s, e, 0)
  {
    assert e[..0] == [] && e[0..] == e;
    assert NoiseShaped(s, e[..0]) == [];
  }

  lemma AtRest(s: Shaping, now: seq<real>)
    requires IsShaping(s) && |now| == LPC_FILTERORDER && forall k :: 0 <= k < LPC_FILTERORDER ==> now[k] == 0.0
    ensures now == Zeros(LPC_FILTERORDER) + NoiseShaped(s, Levels([]))
  {
  }

  // ---------- StateSearchW ----------

  /** The largest magnitude. */
  function Peak(x: seq<real>): (m: real)
    requires x != []
    ensures (forall k :: 0 <= k < |x| ==> Abs(x[k]) <= m) && exists k :: 0 <= k < |x| && m == Abs(x[k])
  {
    var n := |x| - 1;
    if n == 0 then Abs(x[0]) else
    var m := Peak(x[..n]);
    assert forall k {:trigger x[k]} :: 0 <= k < n ==> x[k] == x[..n][k];
    if Abs(x[n]) > m then Abs(x[n]) else m
  }

  /** The scale is the level nearest to the logarithm of the peak, which counts as 10 at least. */
  ghost predicate WellScaled(sh: Shared, turned: seq<real>, idxForMax: nat)
    requires turned != []
  {
    var m := Peak(turned);
    Quantisers.NearestLevel(StateFrgq(), sh.log10(if m < 10.0 then 10.0 else m), idxForMax)
  }

  /** The indices of a stretch of residual: the scale of its turned signal, and levels closest to that signal scaled and weighted. */
  ghost predicate WellQuantised(sh: Shared, residual: seq<real>, syntDenum: seq<real>, s: Shaping, idxForMax: nat, idxVec: seq<nat>)
    requires residual != [] && |syntDenum| == LPC_FILTERORDER + 1 && IsShaping(s)
  {
    var turned := Circular(syntDenum, residual);
    && WellScaled(sh, turned, idxForMax) && idxForMax < 64 && |idxVec| == |residual| && AreLevels(idxVec)
    && Closest(s, NoiseShaped(s, Scaled(turned, 4.5 / sh.power10(StateFrgq()[idxForMax]))), idxVec)
  }

  lemma PeakGrows(x: seq<real>, k: nat)
    requires 0 < k < |x|
    ensures Peak(x[..k + 1]) == if Abs(x[k]) > Peak(x[..k]) then Abs(x[k]) else Peak(x[..k])
  {
    assert x[..k + 1][..k] == x[..k];
  }

  /** The loop over the magnitudes. */
  method FindPeak(x: seq<real>) returns (maxVal: real)
    requires x != []
    ensures maxVal == Peak(x)
  {
    hide Abs, Peak, Square;
    maxVal := x[0];
    FirstPeak(x);
    for k := 1 to |x|
      invariant Abs(maxVal) == Peak(x[..k])
    {
      SquaresCompare(x[k], maxVal);
      PeakGrows(x, k);
      if Square(x[k]) > Square(maxVal) {
        maxVal := x[k];
      }
    }
    assert x[..|x|] == x;
    maxVal := Abs(maxVal);
  }

  lemma FirstPeak(x: seq<real>)
    requires x != []
    ensures Peak(x[..1]) == Abs(x[0])
  {
  }

  /** StateSearchW. */
  method StateSearchW(sh: Shared, residual: seq<real>, syntDenum: seq<real>, s: Shaping) returns (idxForMax: nat, idxVec: seq<nat>)
    requires residual != [] && |syntDenum| == LPC_FILTERORDER + 1 && IsShaping(s) && s.split <= |residual|
    ensures WellQuantised(sh, residual, syntDenum, s, idxForMax, idxVec)
  {
    hide Circular, Closest, Quantisers.Increasing, Scaled, NoiseShaped, StateFrgq;
    var fout := CircularFilter(syntDenum, residual);
    var maxVal := FindPeak(fout);
    if maxVal < 10.0 {
      maxVal := 10.0;
    }
    maxVal := sh.log10(maxVal);
    StateFrgqIncreases();
    var dtmp;
    dtmp, idxForMax := Quantisers.SortSq(maxVal, StateFrgq());
    var scal := 4.5 / sh.power10(StateFrgq()[idxForMax]);
    var input := Padded(Scaled(fout, scal));
    assert input[..] == Zeros(LPC_FILTERORDER) + Scaled(fout, scal);
    idxVec := AbsQuantW(input, s, Scaled(fout, scal));
  }
}
