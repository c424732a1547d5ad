/**
 The LP analysis filter (FIR) and synthesis filter (all-pole, in place) of the codec.
 Both carry their last `order` samples from block to block, and each undoes the other.
 */
module Filters {
  import opened Buffers

  // ---------- Specification ----------

  /** The sum of a[j] * x[i - j] over lo <= j < hi: a filter tap line ending at sample i. */
  function Taps(a: seq<real>, x: seq<real>, i: int, lo: nat, hi: nat): real
    requires lo <= hi <= |a|
    requires lo < hi ==> hi - 1 <= i && i - lo < |x|
    decreases hi
  {
    if lo == hi then 0.0 else Taps(a, x, i, lo, hi - 1) + a[hi - 1] * x[i - (hi - 1)]
  }

  /** The analysis of x given the `order` samples that came before it. */
  function Analysed(a: seq<real>, mem: seq<real>, x: seq<real>): (e: seq<real>)
    requires |a| == |mem| + 1
    ensures |e| == |x|
  {
    seq(|x|, i requires 0 <= i < |x| => Taps(a, mem + x, |mem| + i, 0, |a|))
  }

  /** The synthesis of e, one sample at a time: each output feeds back into the later ones. */
  function Synthesised(a: seq<real>, mem: seq<real>, e: seq<real>): (y: seq<real>)
    requires |a| == |mem| + 1
    ensures |y| == |e|
  {
    if e == [] then [] else
    var n := |e| - 1;
    var y := Synthesised(a, mem, e[..n]);
    y + [e[n] - Taps(a, mem + y, |mem| + n, 1, |a|)]
  }

  /** The filter memory left behind by a block: its last `order` samples. */
  function Carried(mem: seq<real>, block: seq<real>): (m: seq<real>)
    requires |mem| <= |block|
    ensures |m| == |mem|
  {
    block[|block| - |mem|..]
  }

  // ---------- Tap lines ----------

  lemma {:induction false} TapsAgree(a: seq<real>, x: seq<real>, y: seq<real>, i: int, lo: nat, hi: nat)
    requires lo <= hi <= |a|
    requires lo < hi ==> hi - 1 <= i && i - lo < |x| && i - lo < |y|
    requires forall t :: i - hi < t <= i - lo ==> x[t] == y[t]
    ensures Taps(a, x, i, lo, hi) == Taps(a, y, i, lo, hi)
    decreases hi
  {
    if lo < hi {
      TapsAgree(a, x, y, i, lo, hi - 1);
    }
  }

  lemma {:induction false} TapsFromFirst(a: seq<real>, x: seq<real>, i: int, hi: nat)
    requires 1 <= hi <= |a|
    requires hi - 1 <= i < |x|
    ensures Taps(a, x, i, 0, hi) == a[0] * x[i] + Taps(a, x, i, 1, hi)
    decreases hi
  {
    if hi > 1 {
      TapsFromFirst(a, x, i, hi - 1);
    } else {
      assert Taps(a, x, i, 0, 1) == Taps(a, x, i, 0, 0) + a[0] * x[i - 0];
    }
  }

  lemma {:induction false} SynthesisedPrefix(a: seq<real>, mem: seq<real>, e: seq<real>, n: nat)
    requires |a| == |mem| + 1 && n <= |e|
    ensures Synthesised(a, mem, e)[..n] == Synthesised(a, mem, e[..n])
  {
    if n < |e| {
      var k := |e| - 1;
      assert e[..k][..n] == e[..n];
      SynthesisedPrefix(a, mem, e[..k], n);
    } else {
      assert e[..n] == e;
    }
  }

  /** Each synthesised sample comes from the samples before it. */
  lemma SynthesisedAt(a: seq<real>, mem: seq<real>, e: seq<real>, n: nat)
    requires |a| == |mem| + 1 && n < |e|
    ensures var y := Synthesised(a, mem, e);
            y[n] == e[n] - Taps(a, mem + y[..n], |mem| + n, 1, |a|)
  {
    var y := Synthesised(a, mem, e);
    SynthesisedPrefix(a, mem, e, n + 1);
    assert e[..n + 1][..n] == e[..n];
    assert y[n] == y[..n + 1][n];
    SynthesisedPrefix(a, mem, e, n);
  }

  // ---------- Inversion of one block ----------

  lemma {:induction false} AnalysedPrefix(a: seq<real>, mem: seq<real>, x: seq<real>, n: nat)
    requires |a| == |mem| + 1 && n <= |x|
    ensures Analysed(a, mem, x)[..n] == Analysed(a, mem, x[..n])
  {
    forall i | 0 <= i < n
      ensures Analysed(a, mem, x)[i] == Analysed(a, mem, x[..n])[i]
    {
      TapsAgree(a, mem + x, mem + x[..n], |mem| + i, 0, |a|);
    }
  }

  /** Synthesis undoes analysis. */
  lemma {:induction false} SynthesisInvertsAnalysis(a: seq<real>, mem: seq<real>, x: seq<real>)
    requires |a| == |mem| + 1 && a[0] == 1.0
    ensures Synthesised(a, mem, Analysed(a, mem, x)) == x
  {
    if x != [] {
      var n := |x| - 1;
      AnalysedPrefix(a, mem, x, n);
      SynthesisInvertsAnalysis(a, mem, x[..n]);
      TapsFromFirst(a, mem + x, |mem| + n, |a|);
      TapsAgree(a, mem + x[..n], mem + x, |mem| + n, 1, |a|);
      assert x == x[..n] + [x[n]];
    }
  }

  /** Analysis undoes synthesis. */
  lemma AnalysisInvertsSynthesis(a: seq<real>, mem: seq<real>, e: seq<real>)
    requires |a| == |mem| + 1 && a[0] == 1.0
    ensures Analysed(a, mem, Synthesised(a, mem, e)) == e
  {
    var y := Synthesised(a, mem, e);
    forall i | 0 <= i < |e|
      ensures Analysed(a, mem, y)[i] == e[i]
    {
      SynthesisedAt(a, mem, e, i);
      TapsAgree(a, mem + y[..i], mem + y, |mem| + i, 1, |a|);
      TapsFromFirst(a, mem + y, |mem| + i, |a|);
    }
  }

  ghost predicate InvertsEverywhere(a: seq<real>, order: nat)
    requires |a| == order + 1
  {
    forall mem: seq<real>, x: seq<real> :: |mem| == order ==> Synthesised(a, mem, Analysed(a, mem, x)) == x
  }

  /** The leading coefficient must be 1 exactly: with any other value some block is not recovered. */
  lemma InversionNeedsMonicFilter(a: seq<real>, order: nat)
    requires |a| == order + 1
    ensures InvertsEverywhere(a, order) <==> a[0] == 1.0
  {
    if a[0] == 1.0 {
      forall mem: seq<real>, x: seq<real> | |mem| == order
        ensures Synthesised(a, mem, Analysed(a, mem, x)) == x
      {
        SynthesisInvertsAnalysis(a, mem, x);
      }
    } else {
      var mem := seq(order, _ => 0.0);
      var x := [1.0];
      var e := Analysed(a, mem, x);
      TapsFromFirst(a, mem + x, order, |a|);
      TapsAgree(a, mem + x, mem + [0.0], order, 1, |a|);
      assert e[..0] == [] && Synthesised(a, mem, []) == [];
      TapsAgree(a, mem + [], mem + [0.0], order, 1, |a|);
      assert Synthesised(a, mem, e)[0] == e[0] - Taps(a, mem + [], order, 1, |a|);
      assert e[0] == a[0] * 1.0 + Taps(a, mem + x, order, 1, |a|);
      assert Synthesised(a, mem, e)[0] != x[0];
    }
  }

  // ---------- Streams of blocks with changing coefficients ----------

  datatype Block = Block(a: seq<real>, x: seq<real>)

  /** A block the filters accept: monic, and at least as long as the memory it refills. */
  predicate Fits(b: Block, order: nat) {
    |b.a| == order + 1 && b.a[0] == 1.0 && order <= |b.x|
  }

  function AnalysedStream(mem: seq<real>, s: seq<Block>): (out: seq<Block>)
    requires forall b | b in s :: Fits(b, |mem|)
    ensures |out| == |s|
    ensures forall b | b in out :: Fits(b, |mem|)
    decreases |s|
  {
    if s == [] then [] else
    assert Fits(s[0], |mem|);
    [Block(s[0].a, Analysed(s[0].a, mem, s[0].x))] + AnalysedStream(Carried(mem, s[0].x), s[1..])
  }

  function SynthesisedStream(mem: seq<real>, s: seq<Block>): (out: seq<Block>)
    requires forall b | b in s :: Fits(b, |mem|)
    ensures |out| == |s|
    ensures forall b | b in out :: Fits(b, |mem|)
    decreases |s|
  {
    if s == [] then [] else
    assert Fits(s[0], |mem|);
    var y := Synthesised(s[0].a, mem, s[0].x);
    [Block(s[0].a, y)] + SynthesisedStream(Carried(mem, y), s[1..])
  }

  function FinalMemory(mem: seq<real>, s: seq<Block>): (m: seq<real>)
    requires forall b | b in s :: Fits(b, |mem|)
    ensures |m| == |mem|
    decreases |s|
  {
    if s == [] then mem else
    assert Fits(s[0], |mem|);
    FinalMemory(Carried(mem, s[0].x), s[1..])
  }

  /**
   Over any stream of blocks, with new coefficients for every block, synthesis recovers the
   signal; since both memories hold the last samples of the recovered signal, they stay equal.
   */
  lemma {:induction false} StreamInversion(mem: seq<real>, s: seq<Block>)
    requires forall b | b in s :: Fits(b, |mem|)
    ensures SynthesisedStream(mem, AnalysedStream(mem, s)) == s
    ensures FinalMemory(mem, SynthesisedStream(mem, AnalysedStream(mem, s))) == FinalMemory(mem, s)
    decreases |s|
  {
    if s != [] {
      assert Fits(s[0], |mem|);
      var e := AnalysedStream(mem, s);
      SynthesisInvertsAnalysis(s[0].a, mem, s[0].x);
      StreamInversion(Carried(mem, s[0].x), s[1..]);
      assert e[1..] == AnalysedStream(Carried(mem, s[0].x), s[1..]);
      assert s == [s[0]] + s[1..];
    }
  }

  // ---------- The two filter routines ----------

  /**
   One sample of anaFilter, accumulated in the output cell: as many taps as reach into the
   input come first, the others read the memory (none of them once i >= order).
   */
  method AnaSample(input: seq<real>, i: nat, a: seq<real>, out: array<real>, p: nat, mem: array<real>)
    requires out != mem && |a| == mem.Length + 1 && i < |input| && p < out.Length
    modifies out
    ensures out[p] == Taps(a, mem[..] + input, mem.Length + i, 0, |a|)
    ensures forall q :: 0 <= q < out.Length && q != p ==> out[q] == old(out[q])
  {
    var order := mem.Length;
    ghost var x := mem[..] + input;
    var split := if i < order then i + 1 else order + 1;
    out[p] := 0.0;
    for j := 0 to split
      invariant out[p] == Taps(a, x, order + i, 0, j)
      invariant forall q :: 0 <= q < out.Length && q != p ==> out[q] == old(out[q])
    {
      assert x[order + i - j] == input[i - j];
      out[p] := out[p] + a[j] * input[i - j];
    }
    for j := split to order + 1
      invariant out[p] == Taps(a, x, order + i, 0, j)
      invariant forall q :: 0 <= q < out.Length && q != p ==> out[q] == old(out[q])
    {
      assert x[order + i - j] == mem[order - (j - i)];
      out[p] := out[p] + a[j] * mem[order - (j - i)];
    }
  }

  /** anaFilter: filters `input` into out[at..], and keeps the last samples of the input. */
  method AnaFilter(input: seq<real>, a: seq<real>, out: array<real>, at: nat, mem: array<real>)
    requires out != mem
    requires |a| == mem.Length + 1 && mem.Length <= |input| && at + |input| <= out.Length
    modifies out, mem
    ensures Overwritten(out[..], old(out[..]), at, Analysed(a, old(mem[..]), input))
    ensures mem[..] == Carried(old(mem[..]), input)
  {
    ghost var e := Analysed(a, mem[..], input);
    for i := 0 to |input|
      invariant mem[..] == old(mem[..])
      invariant Overwritten(out[..], old(out[..]), at, e[..i])
    {
      AnaSample(input, i, a, out, at + i, mem);
    }
    assert e[..|input|] == e;
    forall k | 0 <= k < mem.Length {
      mem[k] := input[|input| - mem.Length + k];
    }
  }

  /** One sample of syntFilter: taps into the output already made first, then into the memory. */
  method SyntSample(out: array<real>, at: nat, i: nat, a: seq<real>, mem: array<real>)
    requires out != mem && |a| == mem.Length + 1 && at + i < out.Length
    modifies out
    ensures out[at + i] == old(out[at + i]) - Taps(a, mem[..] + old(out[at..at + i]), mem.Length + i, 1, |a|)
    ensures forall q :: 0 <= q < out.Length && q != at + i ==> out[q] == old(out[q])
  {
    var order := mem.Length;
    ghost var x := mem[..] + out[at..at + i];
    var split := if i < order then i + 1 else order + 1;
    for j := 1 to split
      invariant out[at + i] == old(out[at + i]) - Taps(a, x, order + i, 1, j)
      invariant forall q :: 0 <= q < out.Length && q != at + i ==> out[q] == old(out[q])
    {
      assert x[order + i - j] == old(out[at + i - j]);
      out[at + i] := out[at + i] - a[j] * out[at + i - j];
    }
    for j := split to order + 1
      invariant out[at + i] == old(out[at + i]) - Taps(a, x, order + i, 1, j)
      invariant forall q :: 0 <= q < out.Length && q != at + i ==> out[q] == old(out[q])
    {
      assert x[order + i - j] == mem[order - (j - i)];
      out[at + i] := out[at + i] - a[j] * mem[order - (j - i)];
    }
  }

  /** syntFilter: turns out[at..at + len] from excitation into signal, in place. */
  method SyntFilter(out: array<real>, at: nat, len: nat, a: seq<real>, mem: array<real>)
    requires out != mem
    requires |a| == mem.Length + 1 && mem.Length <= len && at + len <= out.Length
    modifies out, mem
    ensures var y := Synthesised(a, old(mem[..]), old(out[at..at + len]));
            Overwritten(out[..], old(out[..]), at, y) && mem[..] == Carried(old(mem[..]), y)
  {
    hide Taps, Synthesised;
    ghost var e := out[at..at + len];
    ghost var y := Synthesised(a, mem[..], e);
    for i := 0 to len
      invariant mem[..] == old(mem[..])
      invariant Overwritten(out[..], old(out[..]), at, y[..i])
    {
      assert out[at..at + i] == y[..i];
      SynthesisedAt(a, mem[..], e, i);
      SyntSample(out, at, i, a, mem);
      assert out[at + i] == y[i];
    }
    assert y[..len] == y;
    forall k | 0 <= k < mem.Length {
      mem[k] := out[at + len - mem.Length + k];
    }
  }

  /** AllPoleFilter: the same recursion in a buffer whose `order` samples before `at` are the state. */
  method AllPoleFilter(buf: array<real>, at: nat, coef: seq<real>, len: nat)
    requires 0 < |coef| <= at + 1 && at + len <= buf.Length
    modifies buf
    ensures var y := Synthesised(coef, old(buf[at + 1 - |coef|..at]), old(buf[at..at + len]));
            Overwritten(buf[..], old(buf[..]), at, y)
  {
    hide Synthesised;
    var order := |coef| - 1;
    ghost var m, e := buf[at - order..at], buf[at..at + len];
    ghost var y := Synthesised(coef, m, e);
    for n := 0 to len
      invariant Overwritten(buf[..], old(buf[..]), at, y[..n])
    {
      ghost var x := m + y[..n];
      assert buf[at + n] == e[n];
      ghost var before := buf[..];
      for k := 1 to order + 1
        invariant buf[at + n] == e[n] - Taps(coef, x, order + n, 1, k)
        invariant forall q {:trigger buf[q]} :: 0 <= q < buf.Length && q != at + n ==> buf[q] == before[q]
      {
        assert buf[at + n - k] == x[order + n - k];
        buf[at + n] := buf[at + n] - coef[k] * buf[at + n - k];
      }
      SynthesisedAt(coef, m, e, n);
      assert buf[at + n] == y[n];
    }
    assert y[..len] == y;
  }

  /** One sample of AllZeroFilter. */
  method AllZeroSample(input: array<real>, at: nat, coef: seq<real>, n: nat, ghost x: seq<real>) returns (y: real)
    requires 0 < |coef| <= at + 1 && at + n < input.Length
    requires x == input[at + 1 - |coef|..at + n + 1]
    ensures y == Taps(coef, x, |x| - 1, 0, |coef|)
  {
    y := coef[0] * input[at + n];
    TapsFromFirst(coef, x, |x| - 1, 1);
    assert Taps(coef, x, |x| - 1, 1, 1) == 0.0;
    for k := 1 to |coef|
      invariant y == Taps(coef, x, |x| - 1, 0, k)
    {
      assert input[at + n - k] == x[|x| - 1 - k];
      y := y + coef[k] * input[at + n - k];
    }
  }

  /** AllZeroFilter: the samples before `at` are the state; the output goes elsewhere. */
  method AllZeroFilter(input: array<real>, at: nat, coef: seq<real>, len: nat, out: array<real>, place: nat)
    requires out != input && 0 < |coef| <= at + 1 && at + len <= input.Length && place + len <= out.Length
    modifies out
    ensures Overwritten(out[..], old(out[..]), place, Analysed(coef, input[at + 1 - |coef|..at], input[at..at + len]))
  {
    hide Analysed, Taps;
    var order := |coef| - 1;
    ghost var m, x := input[at - order..at], input[at..at + len];
    ghost var y := Analysed(coef, m, x);
    for n := 0 to len
      invariant Overwritten(out[..], old(out[..]), place, y[..n])
    {
      ghost var part := input[at - order..at + n + 1];
      out[place + n] := AllZeroSample(input, at, coef, n, part);
      AnalysedAt(coef, m, x, n);
      TapsAgree(coef, part, m + x, order + n, 0, |coef|);
    }
    assert y[..len] == y;
  }

  lemma AnalysedAt(a: seq<real>, mem: seq<real>, x: seq<real>, n: nat)
    requires |a| == |mem| + 1 && n < |x|
    ensures Analysed(a, mem, x)[n] == Taps(a, mem + x, |mem| + n, 0, |a|)
  {
  }

  /** ZeroPoleFilter: the all-zero part into the output, then the all-pole part in place. */
  method ZeroPoleFilter(input: array<real>, at: nat, zero: seq<real>, pole: seq<real>, len: nat, out: array<real>, place: nat)
    requires out != input && 0 < |zero| == |pole| <= at + 1 && at + len <= input.Length
    requires |pole| <= place + 1 && place + len <= out.Length
    modifies out
    ensures var e := Analysed(zero, input[at + 1 - |zero|..at], input[at..at + len]);
            Overwritten(out[..], old(out[..]), place, Synthesised(pole, old(out[place + 1 - |pole|..place]), e))
  {
    hide Analysed, Synthesised;
    ghost var was := out[..];
    AllZeroFilter(input, at, zero, len, out, place);
    ghost var e := Analysed(zero, input[at + 1 - |zero|..at], input[at..at + len]);
    assert out[place..place + len] == e;
    assert out[place + 1 - |pole|..place] == was[place + 1 - |pole|..place];
    AllPoleFilter(out, place, pole, len);
  }
}
