/** The filters of a frame at work: six subframes of analysis or synthesis, the memory carried on. */
module FrameFilters {
  import opened Buffers
  import opened Constants
  import opened Filters
  import opened Sequences

  /** One monic filter for every subframe. */
  predicate AreFrameFilters(f: seq<seq<real>>) {
    |f| == NSUB && forall i :: 0 <= i < NSUB ==> |f[i]| == LPC_FILTERORDER + 1 && f[i][0] == 1.0
  }

  /** The filter memory once the signal `past` has gone through. */
  function MemoryAfter(mem: seq<real>, past: seq<real>): (m: seq<real>)
    ensures |m| == |mem|
  {
    if |past| < |mem| then mem else Carried(mem, past)
  }

  lemma MemoryOfPart(mem: seq<real>, past: seq<real>, block: seq<real>)
    requires |block| >= |mem|
    ensures MemoryAfter(mem, past + block) == Carried(mem, block)
  {
  }

  /** The residual of the first n subframes. */
  function AnalysedTo(mem: seq<real>, f: seq<seq<real>>, x: seq<real>, n: nat): (e: seq<real>)
    requires |mem| == LPC_FILTERORDER && AreFrameFilters(f) && |x| == BLOCKL && n <= NSUB
    ensures |e| == SUBL * n
  {
    if n == 0 then [] else
    AnalysedTo(mem, f, x, n - 1)
    + Analysed(f[n - 1], MemoryAfter(mem, Sub(x, 0, SUBL * (n - 1))), Sub(x, SUBL * (n - 1), SUBL))
  }

  /** The signal of the first n subframes. */
  function SynthesisedTo(mem: seq<real>, f: seq<seq<real>>, e: seq<real>, n: nat): (x: seq<real>)
    requires |mem| == LPC_FILTERORDER && AreFrameFilters(f) && |e| == BLOCKL && n <= NSUB
    ensures |x| == SUBL * n
  {
    if n == 0 then [] else
    var x := SynthesisedTo(mem, f, e, n - 1);
    x + Synthesised(f[n - 1], MemoryAfter(mem, x), Sub(e, SUBL * (n - 1), SUBL))
  }

  /** Synthesis recovers the analysed frame, subframe by subframe. */
  lemma {:induction false} FrameInversion(mem: seq<real>, f: seq<seq<real>>, x: seq<real>, n: nat)
    requires |mem| == LPC_FILTERORDER && AreFrameFilters(f) && |x| == BLOCKL && n <= NSUB
    ensures SynthesisedTo(mem, f, AnalysedTo(mem, f, x, NSUB), n) == Sub(x, 0, SUBL * n)
  {
    hide Analysed, Synthesised, MemoryAfter, Sub;
    if n > 0 {
      FrameInversion(mem, f, x, n - 1);
      AnalysedPart(mem, f, x, n - 1, NSUB);
      SynthesisInvertsAnalysis(f[n - 1], MemoryAfter(mem, Sub(x, 0, SUBL * (n - 1))), Sub(x, SUBL * (n - 1), SUBL));
      SubJoin(x, 0, SUBL * (n - 1), SUBL);
    }
  }

  lemma {:induction false} AnalysedPart(mem: seq<real>, f: seq<seq<real>>, x: seq<real>, i: nat, n: nat)
    requires |mem| == LPC_FILTERORDER && AreFrameFilters(f) && |x| == BLOCKL && i < n <= NSUB
    ensures Sub(AnalysedTo(mem, f, x, n), SUBL * i, SUBL)
            == Analysed(f[i], MemoryAfter(mem, Sub(x, 0, SUBL * i)), Sub(x, SUBL * i, SUBL))
  {
    hide Analysed, MemoryAfter, Sub;
    var a := AnalysedTo(mem, f, x, n - 1);
    var b := Analysed(f[n - 1], MemoryAfter(mem, Sub(x, 0, SUBL * (n - 1))), Sub(x, SUBL * (n - 1), SUBL));
    if i < n - 1 {
      AnalysedPart(mem, f, x, i, n - 1);
      SubLeft(a, b, SUBL * i, SUBL);
    } else {
      SubRight(a, b, 0, SUBL);
      SubAll(b);
    }
  }

  lemma Filled(now: seq<real>, was: seq<real>, a: seq<real>)
    requires Overwritten(now, was, 0, a) && |a| == |was|
    ensures now == a
  {
  }

  /** The analysis loop of iLBC_encode. */
  method AnalyseFrame(data: seq<real>, f: seq<seq<real>>, residual: array<real>, mem: array<real>)
    requires residual != mem && |data| == BLOCKL && AreFrameFilters(f) && residual.Length == BLOCKL && mem.Length == LPC_FILTERORDER
    modifies residual, mem
    ensures residual[..] == AnalysedTo(old(mem[..]), f, data, NSUB)
    ensures mem[..] == MemoryAfter(old(mem[..]), data)
  {
    hide Analysed, Carried, MemoryAfter, Sub;
    ghost var mem0, res0 := mem[..], residual[..];
    NothingYet(mem0, data);
    for n := 0 to NSUB
      invariant Overwritten(residual[..], res0, 0, AnalysedTo(mem0, f, data, n))
      invariant mem[..] == MemoryAfter(mem0, Sub(data, 0, SUBL * n))
    {
      ghost var before := residual[..];
      var x := Sub(data, SUBL * n, SUBL);
      AnaFilter(x, f[n], residual, SUBL * n, mem);
      OverwrittenTwice(residual[..], before, res0, 0, AnalysedTo(mem0, f, data, n),
                       Analysed(f[n], MemoryAfter(mem0, Sub(data, 0, SUBL * n)), x));
      SubJoin(data, 0, SUBL * n, SUBL);
      MemoryOfPart(mem0, Sub(data, 0, SUBL * n), x);
      CarriedAnyway(mem0, MemoryAfter(mem0, Sub(data, 0, SUBL * n)), x);
    }
    Filled(residual[..], res0, AnalysedTo(mem0, f, data, NSUB));
    SubAll(data);
  }

  lemma NothingYet(mem: seq<real>, data: seq<real>)
    requires |mem| == LPC_FILTERORDER
    ensures MemoryAfter(mem, Sub(data, 0, 0)) == MemoryAfter(mem, []) == mem
  {
  }

  /** A full block leaves the same memory whatever was there before. */
  lemma CarriedAnyway(mem: seq<real>, other: seq<real>, block: seq<real>)
    requires |mem| == |other| <= |block|
    ensures Carried(mem, block) == Carried(other, block)
  {
  }

  /** The synthesis loop of iLBC_decode, in place. */
  method SynthesiseFrame(data: array<real>, f: seq<seq<real>>, mem: array<real>)
    requires data != mem && AreFrameFilters(f) && data.Length == BLOCKL && mem.Length == LPC_FILTERORDER
    modifies data, mem
    ensures data[..] == SynthesisedTo(old(mem[..]), f, old(data[..]), NSUB)
    ensures mem[..] == MemoryAfter(old(mem[..]), data[..])
  {
    hide Synthesised, Carried, MemoryAfter, Sub;
    ghost var mem0, e := mem[..], data[..];
    NothingYet(mem0, e);
    for n := 0 to NSUB
      invariant Overwritten(data[..], e, 0, SynthesisedTo(mem0, f, e, n))
      invariant mem[..] == MemoryAfter(mem0, SynthesisedTo(mem0, f, e, n))
    {
      ghost var before := data[..];
      ghost var x := SynthesisedTo(mem0, f, e, n);
      StillThere(data[..], e, x, SUBL * n);
      SyntFilter(data, SUBL * n, SUBL, f[n], mem);
      ghost var y := Synthesised(f[n], MemoryAfter(mem0, x), Sub(e, SUBL * n, SUBL));
      OverwrittenTwice(data[..], before, e, 0, x, y);
      MemoryOfPart(mem0, x, y);
      CarriedAnyway(mem0, MemoryAfter(mem0, x), y);
    }
    Filled(data[..], e, SynthesisedTo(mem0, f, e, NSUB));
  }

  lemma StillThere(now: seq<real>, was: seq<real>, a: seq<real>, at: nat)
    requires Overwritten(now, was, 0, a) && at == |a| && at + SUBL <= |was|
    ensures now[at..at + SUBL] == Sub(was, at, SUBL)
  {
  }
}
