/**
 iCBConstruct and Decode: the residual of a frame rebuilt in place, with a memory that is
 shifted after every subframe and a buffer for the part that is predicted backwards.
 */
module ResidualDecoding {
  import opened Buffers
  import opened Codebook
  import opened Constants
  import opened Quantisers
  import opened Reals
  import opened ResidualSpec
  import opened Sequences

  // ---------- iCBConstruct ----------

  /** The sum of the first n scaled vectors. */
  function Stages(mem: seq<real>, index: seq<nat>, gain: seq<nat>, len: nat, n: nat): (v: seq<real>)
    requires Constructible(index, gain, |mem|, len) && 1 <= n <= CB_NSTAGES
    ensures |v| == len
  {
    var v0, v1, v2 := CbVec(mem, index[0], len), CbVec(mem, index[1], len), CbVec(mem, index[2], len);
    seq(len, j requires 0 <= j < len =>
      var a := Times(Gain0(gain), v0[j]);
      if n == 1 then a else if n == 2 then a + Times(Gain1(gain), v1[j])
      else a + Times(Gain1(gain), v1[j]) + Times(Gain2(gain), v2[j]))
  }

  /** The vector loop of iCBConstruct: dec += c * v. */
  method Accumulate(dec: array<real>, at: nat, c: real, v: seq<real>)
    requires at + |v| <= dec.Length
    modifies dec
    ensures forall p {:trigger dec[p]} :: 0 <= p < dec.Length ==>
              dec[p] == if at <= p < at + |v| then old(dec[p]) + Times(c, v[p - at]) else old(dec[p])
  {
    hide Times;
    for j := 0 to |v|
      invariant forall p {:trigger dec[p]} :: 0 <= p < dec.Length ==>
                  dec[p] == if at <= p < at + j then old(dec[p]) + Times(c, v[p - at]) else old(dec[p])
    {
      dec[at + j] := dec[at + j] + Times(c, v[j]);
    }
  }

  /** iCBConstruct. */
  method ICBConstruct(dec: array<real>, at: nat, index: seq<nat>, gainIndex: seq<nat>, mem: seq<real>, veclen: nat)
    requires Constructible(index, gainIndex, |mem|, veclen) && at + veclen <= dec.Length
    modifies dec
    ensures Overwritten(dec[..], old(dec[..]), at, Constructed(mem, index, gainIndex, veclen))
  {
    hide BaseSize, CbVec, GainDequant, Times;
    var gain0 := GainDequant(gainIndex[0], 1.0, 32);
    var gain1 := GainDequant(gainIndex[1], Abs(gain0), 16);
    var gain2 := GainDequant(gainIndex[2], Abs(gain1), 8);
    var gain := [gain0, gain1, gain2];
    var cbvec := new real[veclen];
    GetCBvec(cbvec, mem, index[0], veclen);
    for j := 0 to veclen
      invariant cbvec[..] == CbVec(mem, index[0], veclen)
      invariant forall p {:trigger dec[p]} :: 0 <= p < dec.Length ==>
                  dec[p] == if at <= p < at + j then Times(gain0, CbVec(mem, index[0], veclen)[p - at]) else old(dec[p])
    {
      dec[at + j] := Times(gain[0], cbvec[j]);
    }
    for k := 1 to CB_NSTAGES
      invariant Overwritten(dec[..], old(dec[..]), at, Stages(mem, index, gainIndex, veclen, k))
    {
      ghost var before := dec[..];
      GetCBvec(cbvec, mem, index[k], veclen);
      Accumulate(dec, at, gain[k], cbvec[..]);
      OneMoreStage(dec[..], before, old(dec[..]), at, mem, index, gainIndex, veclen, k);
    }
    assert Stages(mem, index, gainIndex, veclen, CB_NSTAGES) == Constructed(mem, index, gainIndex, veclen);
  }

  lemma OneMoreStage(now: seq<real>, before: seq<real>, was: seq<real>, at: nat, mem: seq<real>, index: seq<nat>,
                     gain: seq<nat>, len: nat, k: nat)
    requires Constructible(index, gain, |mem|, len) && 1 <= k < CB_NSTAGES
    requires Overwritten(before, was, at, Stages(mem, index, gain, len, k)) && |now| == |was|
    requires forall p {:trigger now[p]} :: 0 <= p < |now| ==>
               now[p] == if at <= p < at + len
                 then before[p] + Times(if k == 1 then Gain1(gain) else Gain2(gain), CbVec(mem, index[k], len)[p - at])
                 else before[p]
    ensures Overwritten(now, was, at, Stages(mem, index, gain, len, k + 1))
  {
    hide BaseSize, CbVec, Gain0, Gain1, Gain2, Times;
    var s, t := Stages(mem, index, gain, len, k), Stages(mem, index, gain, len, k + 1);
    forall p {:trigger now[p]} | 0 <= p < |now|
      ensures now[p] == if at <= p < at + len then t[p - at] else was[p]
    {
      assert before[p] == if at <= p < at + len then s[p - at] else was[p];
    }
  }

  // ---------- The memory ----------

  /** memcpy(mem, mem+SUBL, ..) and the new subframe behind it. */
  method Advance(mem: array<real>, dec: array<real>, at: nat)
    requires mem != dec && mem.Length == CB_MEML && at + SUBL <= dec.Length
    modifies mem
    ensures mem[..] == Recent(old(mem[..]) + dec[at..at + SUBL], CB_MEML)
  {
    for i := 0 to CB_MEML - SUBL
      invariant forall p :: 0 <= p < CB_MEML ==> mem[p] == if p < i then old(mem[p + SUBL]) else old(mem[p])
    {
      mem[i] := mem[i + SUBL];
    }
    for i := 0 to SUBL
      invariant forall p :: 0 <= p < CB_MEML ==>
                  mem[p] == if p < CB_MEML - SUBL then old(mem[p + SUBL])
                            else if p < CB_MEML - SUBL + i then dec[at + p - (CB_MEML - SUBL)] else old(mem[p])
    {
      mem[CB_MEML - SUBL + i] := dec[at + i];
    }
  }

  /** Zeros, then n samples of dec. */
  method Remember(mem: array<real>, dec: array<real>, at: nat, n: nat)
    requires mem != dec && mem.Length == CB_MEML && n <= CB_MEML && at + n <= dec.Length
    modifies mem
    ensures mem[..] == Recent(Sub(dec[..], at, n), CB_MEML)
  {
    forall i | 0 <= i < CB_MEML - n {
      mem[i] := 0.0;
    }
    forall i | 0 <= i < n {
      mem[CB_MEML - n + i] := dec[at + i];
    }
  }

  /** Zeros, then the n samples of dec from `at` on, last first, or the first CB_MEML of them if there are more. */
  method RememberReversed(mem: array<real>, dec: array<real>, at: nat, n: nat)
    requires mem != dec && mem.Length == CB_MEML && at + n <= dec.Length
    modifies mem
    ensures mem[..] == Recent(Reverse(Sub(dec[..], at, n)), CB_MEML)
  {
    hide Recent, Reverse, Sub;
    var memlGotten := n;
    if memlGotten > CB_MEML {
      memlGotten := CB_MEML;
    }
    for k := 0 to memlGotten
      invariant forall p {:trigger mem[p]} :: CB_MEML - k <= p < CB_MEML ==> mem[p] == dec[at + CB_MEML - 1 - p]
    {
      mem[CB_MEML - 1 - k] := dec[at + k];
    }
    forall i | 0 <= i < CB_MEML - memlGotten {
      mem[i] := 0.0;
    }
    ReversedMemory(mem[..], dec[..], at, n);
  }

  lemma ReversedMemory(mem: seq<real>, dec: seq<real>, at: nat, n: nat)
    requires |mem| == CB_MEML && at + n <= |dec|
    requires forall p {:trigger mem[p]} :: 0 <= p < CB_MEML ==>
               mem[p] == if n - CB_MEML + p < 0 then 0.0 else dec[at + CB_MEML - 1 - p]
    ensures mem == Recent(Reverse(Sub(dec, at, n)), CB_MEML)
  {
    var s := Sub(dec, at, n);
    forall p | 0 <= p < CB_MEML
      ensures mem[p] == Recent(Reverse(s), CB_MEML)[p]
    {
      assert n - CB_MEML + p >= 0 ==> Reverse(s)[n - CB_MEML + p] == s[CB_MEML - 1 - p];
    }
  }

  // ---------- Runs of subframes ----------

  /** `part` completes `sig` to the run of subframes from to from + n - 1. */
  ghost predicate Continues(sig: seq<real>, part: seq<real>, cb: seq<nat>, gain: seq<nat>, from: nat, n: nat) {
    AllConstructible(cb, gain, from, n) && sig + part == Extended(sig, cb, gain, from, n)
  }

  lemma OneMoreSubframe(sig: seq<real>, part: seq<real>, v: seq<real>, cb: seq<nat>, gain: seq<nat>, from: nat, n: nat)
    requires AllConstructible(cb, gain, from, n + 1) && Continues(sig, part, cb, gain, from, n)
    requires EntryConstructible(cb, gain, from + n)
    requires v == Constructed(Recent(sig + part, CB_MEML), Entry(cb, from + n), Entry(gain, from + n), SUBL)
    ensures Continues(sig, part + v, cb, gain, from, n + 1)
  {
    hide Constructed, Constructible, Recent;
    assert sig + (part + v) == (sig + part) + v;
  }

  /** The subframe loop of Decode, forwards into the residual or backwards into its reverse. */
  method DecodeSubframes(dec: array<real>, at: nat, mem: array<real>, cb: seq<nat>, gain: seq<nat>, subcount: nat, n: nat,
                         ghost sig: seq<real>)
    returns (ghost part: seq<real>)
    requires mem != dec && mem.Length == CB_MEML && at + SUBL * n <= dec.Length
    requires AllConstructible(cb, gain, subcount, n) && mem[..] == Recent(sig, CB_MEML)
    modifies dec, mem
    ensures |part| == SUBL * n && Continues(sig, part, cb, gain, subcount, n)
    ensures Overwritten(dec[..], old(dec[..]), at, part)
  {
    hide Constructed, Constructible, Extended, Recent, Entry;
    part := [];
    NothingYet(sig, cb, gain, subcount);
    for subframe := 0 to n
      invariant |part| == SUBL * subframe && Continues(sig, part, cb, gain, subcount, subframe)
      invariant Overwritten(dec[..], old(dec[..]), at, part)
      invariant mem[..] == Recent(sig + part, CB_MEML)
    {
      var k := subcount + subframe;
      assert EntryConstructible(cb, gain, k);
      ghost var before := dec[..];
      ICBConstruct(dec, at + SUBL * subframe, Entry(cb, k), Entry(gain, k), mem[..], SUBL);
      ghost var v := Constructed(mem[..], Entry(cb, k), Entry(gain, k), SUBL);
      WrittenIs(dec[..], before, at + SUBL * subframe, v);
      Advance(mem, dec, at + SUBL * subframe);
      OverwrittenTwice(dec[..], before, old(dec[..]), at, part, v);
      RecentOfRecent(sig + part, v, CB_MEML);
      OneMoreSubframe(sig, part, v, cb, gain, subcount, subframe);
      assert (sig + part) + v == sig + (part + v);
      part := part + v;
    }
  }

  lemma NothingYet(sig: seq<real>, cb: seq<nat>, gain: seq<nat>, from: nat)
    requires |cb| == |gain| && CB_NSTAGES * from <= |cb|
    ensures Continues(sig, [], cb, gain, from, 0) && sig + [] == sig
  {
  }

  lemma WrittenIs(now: seq<real>, was: seq<real>, at: nat, v: seq<real>)
    requires Overwritten(now, was, at, v)
    ensures now[at..at + |v|] == v
  {
  }

  // ---------- The start state ----------

  /** v written backwards, so that its first sample comes just before position `before`. */
  method CopyBackwards(dec: array<real>, before: nat, v: array<real>, n: nat)
    requires dec != v && n <= before <= dec.Length && n <= v.Length
    modifies dec
    ensures Overwritten(dec[..], old(dec[..]), before - n, Reverse(v[..n]))
  {
    for k := 0 to n
      invariant forall p :: 0 <= p < dec.Length ==> dec[p] == if before - k <= p < before then v[before - 1 - p] else old(dec[p])
    {
      dec[before - 1 - k] := v[k];
    }
  }

  /** The adaptive part of the start block, after the state or before it. */
  method DecodeStart(dec: array<real>, reverse: array<real>, mem: array<real>, start: nat, stateFirst: bool,
                     ghost state: seq<real>, extraIndex: seq<nat>, extraGain: seq<nat>)
    requires dec != reverse && dec != mem && reverse != mem
    requires dec.Length == reverse.Length == BLOCKL && mem.Length == CB_MEML && 1 <= start <= 5
    requires Constructible(extraIndex, extraGain, ST_MEML, DIFF) && |state| == STATE_SHORT_LEN
    requires Sub(dec[..], (start - 1) * SUBL + if stateFirst then 0 else DIFF, STATE_SHORT_LEN) == state
    modifies dec, reverse, mem
    ensures Sub(dec[..], (start - 1) * SUBL, STATE_LEN) == StartBlock(state, stateFirst, extraIndex, extraGain)
  {
    hide Constructed, Constructible, Recent, Sub, Reverse;
    var at := (start - 1) * SUBL;
    ghost var before := dec[..];
    if stateFirst {
      Remember(mem, dec, at, STATE_SHORT_LEN);
      RecentShorter(state, CB_MEML, ST_MEML);
      ICBConstruct(dec, at + STATE_SHORT_LEN, extraIndex, extraGain, Sub(mem[..], CB_MEML - ST_MEML, ST_MEML), DIFF);
      BlockAfter(dec[..], before, at, state, Constructed(Recent(state, ST_MEML), extraIndex, extraGain, DIFF));
    } else {
      RememberReversed(mem, dec, at + DIFF, STATE_SHORT_LEN);
      RecentShorter(Reverse(state), CB_MEML, ST_MEML);
      ghost var was := reverse[..];
      ICBConstruct(reverse, 0, extraIndex, extraGain, Sub(mem[..], CB_MEML - ST_MEML, ST_MEML), DIFF);
      ghost var v := Constructed(Recent(Reverse(state), ST_MEML), extraIndex, extraGain, DIFF);
      WrittenIs(reverse[..], was, 0, v);
      CopyBackwards(dec, at + DIFF, reverse, DIFF);
      BlockBefore(dec[..], before, at, state, v);
    }
  }

  lemma BlockAfter(now: seq<real>, was: seq<real>, at: nat, state: seq<real>, v: seq<real>)
    requires at + |state| + |v| <= |was| && Sub(was, at, |state|) == state
    requires Overwritten(now, was, at + |state|, v)
    ensures Sub(now, at, |state| + |v|) == state + v
  {
    hide Sub;
    forall k | 0 <= k < |state| + |v|
      ensures now[at + k] == (state + v)[k]
    {
      assert k < |state| ==> Sub(was, at, |state|)[k] == was[at + k];
    }
  }

  lemma BlockBefore(now: seq<real>, was: seq<real>, at: nat, state: seq<real>, v: seq<real>)
    requires at + |v| + |state| <= |was| && Sub(was, at + |v|, |state|) == state
    requires Overwritten(now, was, at, Reverse(v))
    ensures Sub(now, at, |v| + |state|) == Reverse(Reverse(state) + v)
  {
    hide Sub;
    var r := Reverse(Reverse(state) + v);
    forall k | 0 <= k < |v| + |state|
      ensures now[at + k] == r[k]
    {
      assert k >= |v| ==> Sub(was, at + |v|, |state|)[k - |v|] == was[at + k];
    }
  }

  // ---------- Decode ----------

  /** Forward subframes behind what is there. */
  lemma ForwardIs(now: seq<real>, was: seq<real>, at: nat, block: seq<real>, part: seq<real>)
    requires at + |block| + |part| == |was| && Sub(was, at, |block|) == block
    requires Overwritten(now, was, at + |block|, part)
    ensures Sub(now, at, |block| + |part|) == block + part
  {
    BlockAfter(now, was, at, block, part);
  }

  /** Backward subframes, turned round, before what is there. */
  lemma BackwardIs(now: seq<real>, was: seq<real>, fwd: seq<real>, part: seq<real>)
    requires |part| + |fwd| == |was| && Sub(was, |part|, |fwd|) == fwd
    requires Overwritten(now, was, 0, Reverse(part))
    ensures now == Reverse(Reverse(fwd) + part)
  {
    hide Sub;
    BlockBefore(now, was, 0, fwd, part);
    SubAll(now);
  }

  /** The forward part of Decode. */
  method DecodeForward(dec: array<real>, mem: array<real>, start: nat, ghost block: seq<real>, cb: seq<nat>, gain: seq<nat>)
    requires dec != mem && dec.Length == BLOCKL && mem.Length == CB_MEML && 1 <= start <= 5 && |block| == STATE_LEN
    requires AllConstructible(cb, gain, 0, 5 - start)
    requires Sub(dec[..], (start - 1) * SUBL, STATE_LEN) == block
    modifies dec, mem
    ensures Sub(dec[..], (start - 1) * SUBL, SUBL * (7 - start)) == Extended(block, cb, gain, 0, 5 - start)
  {
    hide AllConstructible, Constructible, Extended, Recent, Reverse, StartBlock, Sub;
    var nfor, at := 5 - start, (start - 1) * SUBL;
    NothingForward(dec[..], block, cb, gain, at, nfor);
    if nfor > 0 {
      Remember(mem, dec, at, STATE_LEN);
      ghost var before := dec[..];
      ghost var part := DecodeSubframes(dec, at + STATE_LEN, mem, cb, gain, 0, nfor, block);
      ForwardIs(dec[..], before, at, block, part);
    }
  }

  /** The backward part of Decode. */
  method DecodeBackward(dec: array<real>, reverse: array<real>, mem: array<real>, start: nat, ghost fwd: seq<real>,
                        cb: seq<nat>, gain: seq<nat>)
    requires dec != reverse && dec != mem && reverse != mem && 1 <= start <= 5
    requires dec.Length == reverse.Length == BLOCKL && mem.Length == CB_MEML && |fwd| == SUBL * (7 - start)
    requires AllConstructible(cb, gain, 5 - start, start - 1)
    requires Sub(dec[..], (start - 1) * SUBL, SUBL * (7 - start)) == fwd
    modifies dec, reverse, mem
    ensures dec[..] == Reverse(Extended(Reverse(fwd), cb, gain, 5 - start, start - 1))
  {
    hide AllConstructible, Constructible, Extended, Recent, Reverse, StartBlock, Sub;
    var nfor, nback, at := 5 - start, start - 1, (start - 1) * SUBL;
    NothingBackward(dec[..], fwd, cb, gain, nfor, nback);
    if nback > 0 {
      RememberReversed(mem, dec, at, SUBL * (7 - start));
      ghost var rbefore := reverse[..];
      ghost var part := DecodeSubframes(reverse, 0, mem, cb, gain, nfor, nback, Reverse(fwd));
      WrittenIs(reverse[..], rbefore, 0, part);
      ghost var before := dec[..];
      CopyBackwards(dec, SUBL * nback, reverse, SUBL * nback);
      BackwardIs(dec[..], before, fwd, part);
    }
  }

  /**
   Decode, from the state at its place on: whatever the buffers held before, the residual is
   the one the parameters stand for, all of its samples.
   */
  method DecodeFrom(dec: array<real>, start: nat, stateFirst: bool, ghost state: seq<real>, extraIndex: seq<nat>,
                    extraGain: seq<nat>, cb: seq<nat>, gain: seq<nat>)
    requires dec.Length == BLOCKL && 1 <= start <= 5 && Decodable(extraIndex, extraGain, cb, gain)
    requires |state| == STATE_SHORT_LEN
    requires Sub(dec[..], (start - 1) * SUBL + if stateFirst then 0 else DIFF, STATE_SHORT_LEN) == state
    modifies dec
    ensures dec[..] == Decoded(StartBlock(state, stateFirst, extraIndex, extraGain), start, cb, gain)
  {
    hide AllConstructible, Constructible, Extended, Recent, Reverse, StartBlock, Sub;
    var reverse, mem := new real[BLOCKL], new real[CB_MEML];
    ghost var block := StartBlock(state, stateFirst, extraIndex, extraGain);
    Narrowed(cb, gain, 0, 5 - start);
    Narrowed(cb, gain, 5 - start, start - 1);
    DecodeStart(dec, reverse, mem, start, stateFirst, state, extraIndex, extraGain);
    DecodeForward(dec, mem, start, block, cb, gain);
    DecodeBackward(dec, reverse, mem, start, Extended(block, cb, gain, 0, 5 - start), cb, gain);
  }

  lemma NothingForward(dec: seq<real>, block: seq<real>, cb: seq<nat>, gain: seq<nat>, at: nat, nfor: nat)
    requires at + STATE_LEN <= |dec| && Sub(dec, at, STATE_LEN) == block && AllConstructible(cb, gain, 0, nfor)
    ensures nfor == 0 ==> Sub(dec, at, STATE_LEN + SUBL * nfor) == Extended(block, cb, gain, 0, nfor)
  {
  }

  lemma NothingBackward(dec: seq<real>, fwd: seq<real>, cb: seq<nat>, gain: seq<nat>, nfor: nat, nback: nat)
    requires AllConstructible(cb, gain, nfor, nback)
    requires |fwd| + SUBL * nback == |dec| && Sub(dec, SUBL * nback, |fwd|) == fwd
    ensures nback == 0 ==> dec == Reverse(Extended(Reverse(fwd), cb, gain, nfor, nback))
  {
    hide Sub;
    if nback == 0 {
      SubAll(dec);
      ReverseReverse(fwd);
    }
  }
}
