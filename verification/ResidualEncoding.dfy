/**
 The closed loop of iLBC_encode: every subframe is searched against the memory of what the
 decoder will have, then rebuilt as the decoder will rebuild it.
 */
module ResidualEncoding {
  import opened Buffers
  import opened Codebook
  import opened Constants
  import opened ResidualDecoding
  import opened ResidualSpec
  import opened SearchSpec
  import opened Sequences
  import opened StagedSearch
  import Quantisers

  /** The weighting filters of the subframes. */
  predicate AreFilters(w: seq<seq<real>>, n: nat) {
    |w| == n && forall k :: 0 <= k < n ==> |w[k]| == LPC_FILTERORDER + 1
  }

  /** Indices and gains as the search of a block returns them. */
  predicate Chosen(index: seq<nat>, gain: seq<nat>, block: nat) {
    && |index| == |gain| == CB_NSTAGES && Suits(MemoryOf(block), LengthOf(block))
    && forall s :: 0 <= s < CB_NSTAGES ==>
         Reachable(index[s], MemoryOf(block), LengthOf(block), SearchRange(block, s)) && gain[s] < Quantisers.GainLevels(s)
  }

  lemma ChosenIsConstructible(index: seq<nat>, gain: seq<nat>, block: nat)
    requires Chosen(index, gain, block)
    ensures Constructible(index, gain, MemoryOf(block), LengthOf(block))
  {
    assert Quantisers.GainLevels(1) == 16 && Quantisers.GainLevels(2) == 8;
  }

  /** The filter state every search starts from. */
  function NoState(): (z: seq<real>)
    ensures |z| == LPC_FILTERORDER
  {
    seq(LPC_FILTERORDER, _ => 0.0)
  }

  /** The outcome of the search of a block for a target on a memory. */
  ghost predicate SearchedFor(index: seq<nat>, gain: seq<nat>, mem: seq<real>, target: seq<real>, weightDenum: seq<real>,
                              block: nat) {
    && |mem| == MemoryOf(block) && |target| == LengthOf(block) && |weightDenum| == LPC_FILTERORDER + 1
    && exists t: Trace, cvec: seq<real>, buf: seq<real> ::
         && |buf| == |mem| && SearchOutcome(index, gain, t, cvec, block, buf)
         && buf + t.targets[0] == Filters.Synthesised(weightDenum, NoState(), mem + target)
  }

  /** iCBSearch with a filter state of zeros, as every block of the loop uses it. */
  method Search(target: seq<real>, mem: seq<real>, weightDenum: seq<real>, block: nat) returns (index: seq<nat>, gain: seq<nat>)
    requires |target| == LengthOf(block) && |mem| == MemoryOf(block) && |weightDenum| == LPC_FILTERORDER + 1
    ensures |index| == |gain| == CB_NSTAGES && Chosen(index, gain, block)
    ensures Constructible(index, gain, MemoryOf(block), LengthOf(block))
    ensures SearchedFor(index, gain, mem, target, weightDenum, block)
  {
    hide SearchOutcome, Reachable, Constructible, Quantisers.GainSq5, Filters.Synthesised;
    var weightState := NoState();
    ghost var t, cvec, buf;
    index, gain, t, cvec, buf := ICBSearch(target, mem, weightDenum, weightState, block);
    ChosenIsConstructible(index, gain, block);
  }

  // ---------- Subframes ----------

  ghost predicate EntryChosen(cb: seq<nat>, gain: seq<nat>, k: nat) {
    |cb| == |gain| && CB_NSTAGES * k + CB_NSTAGES <= |cb| && Chosen(Entry(cb, k), Entry(gain, k), k + 1)
  }

  ghost predicate AllChosen(cb: seq<nat>, gain: seq<nat>, from: nat, n: nat) {
    forall k :: from <= k < from + n ==> EntryChosen(cb, gain, k)
  }

  /** Subframe m of a run was searched for its target on the memory of all that is decoded before it. */
  ghost predicate StepSearched(cb: seq<nat>, gain: seq<nat>, sig: seq<real>, target: seq<real>, weights: seq<seq<real>>,
                               from: nat, m: nat) {
    && AllConstructible(cb, gain, from, m) && CB_NSTAGES * (from + m) + CB_NSTAGES <= |cb|
    && SUBL * m + SUBL <= |target| && m < |weights|
    && SearchedFor(Entry(cb, from + m), Entry(gain, from + m), Recent(Extended(sig, cb, gain, from, m), CB_MEML),
                   Sub(target, SUBL * m, SUBL), weights[m], from + m + 1)
  }

  ghost predicate AllSearched(cb: seq<nat>, gain: seq<nat>, sig: seq<real>, target: seq<real>, weights: seq<seq<real>>,
                              from: nat, n: nat) {
    forall m :: 0 <= m < n ==> StepSearched(cb, gain, sig, target, weights, from, m)
  }

  /** now differs from was in the entries of subframes from to from + n - 1 at most. */
  ghost predicate OnlyEntries(now: seq<nat>, was: seq<nat>, from: nat, n: nat) {
    && |now| == |was|
    && forall i {:trigger now[i]} :: 0 <= i < |now| && !(CB_NSTAGES * from <= i < CB_NSTAGES * (from + n)) ==> now[i] == was[i]
  }

  method PutEntry(a: array<nat>, k: nat, e: seq<nat>)
    requires CB_NSTAGES * k + CB_NSTAGES <= a.Length && |e| == CB_NSTAGES
    modifies a
    ensures Entry(a[..], k) == e && OnlyEntries(a[..], old(a[..]), k, 1)
  {
    a[CB_NSTAGES * k] := e[0];
    a[CB_NSTAGES * k + 1] := e[1];
    a[CB_NSTAGES * k + 2] := e[2];
  }

  /** A new entry behind the run leaves the run as it was. */
  lemma EntryBehind(sig: seq<real>, part: seq<real>, cb: seq<nat>, gain: seq<nat>, cb': seq<nat>, gain': seq<nat>,
                    from: nat, n: nat)
    requires Continues(sig, part, cb, gain, from, n) && AllChosen(cb, gain, from, n)
    requires OnlyEntries(cb', cb, from + n, 1) && OnlyEntries(gain', gain, from + n, 1)
    requires EntryChosen(cb', gain', from + n)
    ensures Continues(sig, part, cb', gain', from, n)
    ensures AllChosen(cb', gain', from, n + 1) && AllConstructible(cb', gain', from, n + 1)
  {
    hide Chosen, Constructible, Extended;
    ExtendedDependsOn(sig, cb, gain, cb', gain', from, n);
    forall k | from <= k < from + n + 1
      ensures EntryChosen(cb', gain', k) && EntryConstructible(cb', gain', k)
    {
      if k < from + n {
        assert EntryConstructible(cb, gain, k) && EntryChosen(cb, gain, k);
        SameEntry(cb', cb, from + n, k);
        SameEntry(gain', gain, from + n, k);
      }
      ChosenIsConstructible(Entry(cb', k), Entry(gain', k), k + 1);
    }
  }

  lemma SameEntry(now: seq<nat>, was: seq<nat>, from: nat, k: nat)
    requires OnlyEntries(now, was, from, 1) && k < from && CB_NSTAGES * k + CB_NSTAGES <= |was|
    ensures Entry(now, k) == Entry(was, k)
  {
  }

  /** Later entries do not matter to a search. */
  lemma SearchStays(cb: seq<nat>, gain: seq<nat>, cb': seq<nat>, gain': seq<nat>, sig: seq<real>, target: seq<real>,
                    weights: seq<seq<real>>, from: nat, n: nat, later: nat, count: nat)
    requires AllSearched(cb, gain, sig, target, weights, from, n) && from + n <= later
    requires OnlyEntries(cb', cb, later, count) && OnlyEntries(gain', gain, later, count)
    ensures AllSearched(cb', gain', sig, target, weights, from, n)
  {
    hide Constructible, Extended, Recent, SearchedFor;
    forall m | 0 <= m < n
      ensures StepSearched(cb', gain', sig, target, weights, from, m)
    {
      assert StepSearched(cb, gain, sig, target, weights, from, m);
      ExtendedDependsOn(sig, cb, gain, cb', gain', from, m);
      assert Entry(cb', from + m) == Entry(cb, from + m) && Entry(gain', from + m) == Entry(gain, from + m);
    }
  }

  /** A search just made, behind a run. */
  lemma SearchedBehind(cb: seq<nat>, gain: seq<nat>, sig: seq<real>, part: seq<real>, target: seq<real>,
                       weights: seq<seq<real>>, from: nat, n: nat)
    requires AllSearched(cb, gain, sig, target, weights, from, n) && Continues(sig, part, cb, gain, from, n)
    requires CB_NSTAGES * (from + n) + CB_NSTAGES <= |cb| && SUBL * n + SUBL <= |target| && n < |weights|
    requires SearchedFor(Entry(cb, from + n), Entry(gain, from + n), Recent(sig + part, CB_MEML), Sub(target, SUBL * n, SUBL),
                         weights[n], from + n + 1)
    ensures AllSearched(cb, gain, sig, target, weights, from, n + 1)
  {
    hide AllConstructible, Extended, Recent, SearchedFor, Entry;
    assert StepSearched(cb, gain, sig, target, weights, from, n);
  }

  /** The subframe loop of iLBC_encode: search, rebuild, shift the memory. */
  method EncodeSubframes(dec: array<real>, at: nat, mem: array<real>, target: seq<real>, weights: seq<seq<real>>,
                         cb: array<nat>, gain: array<nat>, subcount: nat, n: nat, ghost sig: seq<real>)
    returns (ghost part: seq<real>)
    requires mem != dec && cb != gain && mem.Length == CB_MEML && at + SUBL * n <= dec.Length
    requires |target| == SUBL * n && AreFilters(weights, n)
    requires cb.Length == gain.Length && CB_NSTAGES * (subcount + n) <= cb.Length
    requires mem[..] == Recent(sig, CB_MEML)
    modifies dec, mem, cb, gain
    ensures |part| == SUBL * n && Continues(sig, part, cb[..], gain[..], subcount, n)
    ensures AllChosen(cb[..], gain[..], subcount, n) && AllSearched(cb[..], gain[..], sig, target, weights, subcount, n)
    ensures OnlyEntries(cb[..], old(cb[..]), subcount, n) && OnlyEntries(gain[..], old(gain[..]), subcount, n)
    ensures Overwritten(dec[..], old(dec[..]), at, part)
  {
    hide AllConstructible, Constructed, Constructible, Chosen, Extended, Recent, Entry, SearchedFor, StepSearched;
    part := [];
    NothingYet(sig, cb[..], gain[..], subcount);
    for subframe := 0 to n
      invariant |part| == SUBL * subframe && Continues(sig, part, cb[..], gain[..], subcount, subframe)
      invariant AllChosen(cb[..], gain[..], subcount, subframe)
      invariant AllSearched(cb[..], gain[..], sig, target, weights, subcount, subframe)
      invariant OnlyEntries(cb[..], old(cb[..]), subcount, subframe)
      invariant OnlyEntries(gain[..], old(gain[..]), subcount, subframe)
      invariant Overwritten(dec[..], old(dec[..]), at, part)
      invariant mem[..] == Recent(sig + part, CB_MEML)
    {
      ghost var c, g := cb[..], gain[..];
      var v := EncodeSubframe(dec, at + SUBL * subframe, mem, Sub(target, SUBL * subframe, SUBL), weights[subframe],
                              cb, gain, subcount, subframe, sig, part, at, old(dec[..]));
      SearchStays(c, g, cb[..], gain[..], sig, target, weights, subcount, subframe, subcount + subframe, 1);
      SearchedBehind(cb[..], gain[..], sig, part, target, weights, subcount, subframe);
      part := part + v;
    }
  }

  /** One round of that loop. */
  method EncodeSubframe(dec: array<real>, at: nat, mem: array<real>, target: seq<real>, weight: seq<real>,
                        cb: array<nat>, gain: array<nat>, subcount: nat, subframe: nat, ghost sig: seq<real>,
                        ghost part: seq<real>, ghost first: nat, ghost was: seq<real>)
    returns (ghost v: seq<real>)
    requires mem != dec && cb != gain && mem.Length == CB_MEML && at + SUBL <= dec.Length
    requires |target| == SUBL && |weight| == LPC_FILTERORDER + 1
    requires cb.Length == gain.Length && CB_NSTAGES * (subcount + subframe + 1) <= cb.Length
    requires |part| == SUBL * subframe && Continues(sig, part, cb[..], gain[..], subcount, subframe)
    requires AllChosen(cb[..], gain[..], subcount, subframe)
    requires at == first + |part| && Overwritten(dec[..], was, first, part)
    requires mem[..] == Recent(sig + part, CB_MEML)
    modifies dec, mem, cb, gain
    ensures |v| == SUBL && Continues(sig, part + v, cb[..], gain[..], subcount, subframe + 1)
    ensures Continues(sig, part, cb[..], gain[..], subcount, subframe)
    ensures SearchedFor(Entry(cb[..], subcount + subframe), Entry(gain[..], subcount + subframe), Recent(sig + part, CB_MEML),
                        target, weight, subcount + subframe + 1)
    ensures AllChosen(cb[..], gain[..], subcount, subframe + 1)
    ensures OnlyEntries(cb[..], old(cb[..]), subcount + subframe, 1)
    ensures OnlyEntries(gain[..], old(gain[..]), subcount + subframe, 1)
    ensures Overwritten(dec[..], was, first, part + v)
    ensures mem[..] == Recent(sig + (part + v), CB_MEML)
  {
    hide AllChosen, AllConstructible, Constructed, Constructible, Chosen, Entry, Extended, OnlyEntries, Recent, SearchedFor;
    var k := subcount + subframe;
    var index, gainIndex := Search(target, mem[..], weight, k + 1);
    PutEntry(cb, k, index);
    PutEntry(gain, k, gainIndex);
    EntryBehind(sig, part, old(cb[..]), old(gain[..]), cb[..], gain[..], subcount, subframe);
    ghost var before := dec[..];
    ICBConstruct(dec, at, index, gainIndex, mem[..], SUBL);
    v := Constructed(mem[..], index, gainIndex, SUBL);
    WrittenIs(dec[..], before, at, v);
    Advance(mem, dec, at);
    OverwrittenTwice(dec[..], before, was, first, part, v);
    RecentOfRecent(sig + part, v, CB_MEML);
    OneMoreSubframe(sig, part, v, cb[..], gain[..], subcount, subframe);
    assert (sig + part) + v == sig + (part + v);
  }

  // ---------- The start state ----------

  /** The adaptive part was searched for the residual next to the state, on the memory of the state alone. */
  ghost predicate StartSearched(state: seq<real>, stateFirst: bool, residual: seq<real>, weightDenum: seq<seq<real>>,
                                start: nat, index: seq<nat>, gain: seq<nat>)
    requires |residual| == BLOCKL && |weightDenum| == NSUB && 1 <= start <= 5
  {
    var at := (start - 1) * SUBL;
    if stateFirst
    then SearchedFor(index, gain, Recent(state, ST_MEML), Sub(residual, at + STATE_SHORT_LEN, DIFF), weightDenum[start], 0)
    else SearchedFor(index, gain, Recent(Reverse(state), ST_MEML), Reverse(Sub(residual, at, DIFF)), weightDenum[start - 1], 0)
  }

  /** The adaptive part of the start block, searched and rebuilt after the state or before it. */
  method EncodeStart(dec: array<real>, reverse: array<real>, mem: array<real>, start: nat, stateFirst: bool,
                     ghost state: seq<real>, residual: seq<real>, weightDenum: seq<seq<real>>)
    returns (extraIndex: seq<nat>, extraGain: seq<nat>)
    requires dec != reverse && dec != mem && reverse != mem
    requires dec.Length == reverse.Length == BLOCKL && mem.Length == CB_MEML && 1 <= start <= 5
    requires |residual| == BLOCKL && AreFilters(weightDenum, NSUB) && |state| == STATE_SHORT_LEN
    requires Sub(dec[..], (start - 1) * SUBL + if stateFirst then 0 else DIFF, STATE_SHORT_LEN) == state
    modifies dec, reverse, mem
    ensures Chosen(extraIndex, extraGain, 0) && Constructible(extraIndex, extraGain, ST_MEML, DIFF)
    ensures Sub(dec[..], (start - 1) * SUBL, STATE_LEN) == StartBlock(state, stateFirst, extraIndex, extraGain)
    ensures StartSearched(state, stateFirst, residual, weightDenum, start, extraIndex, extraGain)
  {
    hide Chosen, Constructed, Constructible, Recent, SearchedFor, Sub, Reverse;
    var at := (start - 1) * SUBL;
    ghost var before := dec[..];
    if stateFirst {
      Remember(mem, dec, at, STATE_SHORT_LEN);
      RecentShorter(state, CB_MEML, ST_MEML);
      extraIndex, extraGain := Search(Sub(residual, at + STATE_SHORT_LEN, DIFF), Sub(mem[..], CB_MEML - ST_MEML, ST_MEML),
                                      weightDenum[start], 0);
      ICBConstruct(dec, at + STATE_SHORT_LEN, extraIndex, extraGain, Sub(mem[..], CB_MEML - ST_MEML, ST_MEML), DIFF);
      BlockAfter(dec[..], before, at, state, Constructed(Recent(state, ST_MEML), extraIndex, extraGain, DIFF));
    } else {
      RememberReversed(mem, dec, at + DIFF, STATE_SHORT_LEN);
      RecentShorter(Reverse(state), CB_MEML, ST_MEML);
      extraIndex, extraGain := Search(Reverse(Sub(residual, at, DIFF)), Sub(mem[..], CB_MEML - ST_MEML, ST_MEML),
                                      weightDenum[start - 1], 0);
      ghost var was := reverse[..];
      ICBConstruct(reverse, 0, extraIndex, extraGain, Sub(mem[..], CB_MEML - ST_MEML, ST_MEML), DIFF);
      ghost var v := Constructed(Recent(Reverse(state), ST_MEML), extraIndex, extraGain, DIFF);
      WrittenIs(reverse[..], was, 0, v);
      CopyBackwards(dec, at + DIFF, reverse, DIFF);
      BlockBefore(dec[..], before, at, state, v);
    }
  }

  // ---------- Forward and backward ----------

  /** The subframes after the start block were searched for their residual, in order. */
  ghost predicate ForwardSearched(cb: seq<nat>, gain: seq<nat>, block: seq<real>, residual: seq<real>,
                                  weightDenum: seq<seq<real>>, start: nat)
    requires |residual| == BLOCKL && |weightDenum| == NSUB && 1 <= start <= 5
  {
    AllSearched(cb, gain, block, Sub(residual, (start + 1) * SUBL, SUBL * (5 - start)), Sub(weightDenum, start + 1, 5 - start),
                0, 5 - start)
  }

  /** The subframes before it were searched for their residual, all read backwards. */
  ghost predicate BackwardSearched(cb: seq<nat>, gain: seq<nat>, fwd: seq<real>, residual: seq<real>,
                                   weightDenum: seq<seq<real>>, start: nat)
    requires |residual| == BLOCKL && |weightDenum| == NSUB && 1 <= start <= 5
  {
    AllSearched(cb, gain, Reverse(fwd), Reverse(Sub(residual, 0, (start - 1) * SUBL)), Reverse(Sub(weightDenum, 0, start - 1)),
                5 - start, start - 1)
  }

  method EncodeForward(dec: array<real>, mem: array<real>, start: nat, ghost block: seq<real>, residual: seq<real>,
                       weightDenum: seq<seq<real>>, cb: array<nat>, gain: array<nat>)
    requires dec != mem && cb != gain && dec.Length == BLOCKL && mem.Length == CB_MEML && 1 <= start <= 5
    requires |block| == STATE_LEN && |residual| == BLOCKL && AreFilters(weightDenum, NSUB)
    requires cb.Length == gain.Length == CB_NSTAGES * NASUB
    requires Sub(dec[..], (start - 1) * SUBL, STATE_LEN) == block
    modifies dec, mem, cb, gain
    ensures AllChosen(cb[..], gain[..], 0, 5 - start) && AllConstructible(cb[..], gain[..], 0, 5 - start)
    ensures Sub(dec[..], (start - 1) * SUBL, SUBL * (7 - start)) == Extended(block, cb[..], gain[..], 0, 5 - start)
    ensures ForwardSearched(cb[..], gain[..], block, residual, weightDenum, start)
  {
    hide Constructible, Extended, Recent, Reverse, StartBlock, StepSearched, Sub;
    var nfor, at := 5 - start, (start - 1) * SUBL;
    if nfor > 0 {
      Remember(mem, dec, at, STATE_LEN);
      ghost var before := dec[..];
      ghost var part := EncodeSubframes(dec, at + STATE_LEN, mem, Sub(residual, (start + 1) * SUBL, SUBL * nfor),
                                        Sub(weightDenum, start + 1, nfor), cb, gain, 0, nfor, block);
      ForwardIs(dec[..], before, at, block, part);
    } else {
      NothingForward(dec[..], block, cb[..], gain[..], at, nfor);
    }
  }

  method EncodeBackward(dec: array<real>, reverse: array<real>, mem: array<real>, start: nat, ghost fwd: seq<real>,
                        residual: seq<real>, weightDenum: seq<seq<real>>, cb: array<nat>, gain: array<nat>)
    requires dec != reverse && dec != mem && reverse != mem && cb != gain && 1 <= start <= 5
    requires dec.Length == reverse.Length == BLOCKL && mem.Length == CB_MEML && |fwd| == SUBL * (7 - start)
    requires |residual| == BLOCKL && AreFilters(weightDenum, NSUB) && cb.Length == gain.Length == CB_NSTAGES * NASUB
    requires Sub(dec[..], (start - 1) * SUBL, SUBL * (7 - start)) == fwd
    modifies dec, reverse, mem, cb, gain
    ensures AllChosen(cb[..], gain[..], 5 - start, start - 1) && AllConstructible(cb[..], gain[..], 5 - start, start - 1)
    ensures OnlyEntries(cb[..], old(cb[..]), 5 - start, start - 1)
    ensures OnlyEntries(gain[..], old(gain[..]), 5 - start, start - 1)
    ensures dec[..] == Reverse(Extended(Reverse(fwd), cb[..], gain[..], 5 - start, start - 1))
    ensures BackwardSearched(cb[..], gain[..], fwd, residual, weightDenum, start)
  {
    hide Constructible, Extended, Recent, Reverse, StartBlock, StepSearched, Sub;
    var nfor, nback, at := 5 - start, start - 1, (start - 1) * SUBL;
    if nback > 0 {
      RememberReversed(mem, dec, at, SUBL * (7 - start));
      ghost var rbefore := reverse[..];
      ghost var part := EncodeSubframes(reverse, 0, mem, Reverse(Sub(residual, 0, at)), Reverse(Sub(weightDenum, 0, nback)),
                                        cb, gain, nfor, nback, Reverse(fwd));
      WrittenIs(reverse[..], rbefore, 0, part);
      ghost var before := dec[..];
      CopyBackwards(dec, SUBL * nback, reverse, SUBL * nback);
      BackwardIs(dec[..], before, fwd, part);
    } else {
      NothingBackward(dec[..], fwd, cb[..], gain[..], nfor, nback);
    }
  }

  // ---------- The closed loop ----------

  /** The entries of the forward run and those of the backward run are all there are. */
  lemma BothRuns(block: seq<real>, cb: seq<nat>, gain: seq<nat>, cb': seq<nat>, gain': seq<nat>, nfor: nat)
    requires |cb| == |gain| == CB_NSTAGES * NASUB && nfor <= NASUB
    requires AllChosen(cb, gain, 0, nfor) && AllConstructible(cb, gain, 0, nfor)
    requires OnlyEntries(cb', cb, nfor, NASUB - nfor) && OnlyEntries(gain', gain, nfor, NASUB - nfor)
    requires AllChosen(cb', gain', nfor, NASUB - nfor) && AllConstructible(cb', gain', nfor, NASUB - nfor)
    ensures AllChosen(cb', gain', 0, NASUB) && AllConstructible(cb', gain', 0, NASUB)
    ensures AllConstructible(cb', gain', 0, nfor)
    ensures Extended(block, cb', gain', 0, nfor) == Extended(block, cb, gain, 0, nfor)
  {
    hide Chosen, Constructible, Extended;
    ExtendedDependsOn(block, cb, gain, cb', gain', 0, nfor);
    forall k | 0 <= k < nfor
      ensures EntryChosen(cb', gain', k)
    {
      assert EntryChosen(cb, gain, k);
      assert Entry(cb, k) == Entry(cb', k) && Entry(gain, k) == Entry(gain', k);
    }
    forall k | 0 <= k < NASUB
      ensures EntryConstructible(cb', gain', k)
    {
    }
  }

  /** Every choice of a frame was made by a search for its part of the residual, on the memory a decoder will have. */
  ghost predicate ClosedLoop(residual: seq<real>, weightDenum: seq<seq<real>>, state: seq<real>, start: nat, stateFirst: bool,
                             extraIndex: seq<nat>, extraGain: seq<nat>, cb: seq<nat>, gain: seq<nat>)
    requires |residual| == BLOCKL && |weightDenum| == NSUB && 1 <= start <= 5 && |state| == STATE_SHORT_LEN
    requires Decodable(extraIndex, extraGain, cb, gain)
  {
    Narrowed(cb, gain, 0, 5 - start);
    var block := StartBlock(state, stateFirst, extraIndex, extraGain);
    && StartSearched(state, stateFirst, residual, weightDenum, start, extraIndex, extraGain)
    && ForwardSearched(cb, gain, block, residual, weightDenum, start)
    && BackwardSearched(cb, gain, Extended(block, cb, gain, 0, 5 - start), residual, weightDenum, start)
  }

  /**
   The closed loop from the state at its place on: what the encoder rebuilds while it searches
   is the residual that its indices and gains stand for.
   */
  method EncodeFrom(dec: array<real>, start: nat, stateFirst: bool, ghost state: seq<real>, residual: seq<real>,
                    weightDenum: seq<seq<real>>)
    returns (extraIndex: seq<nat>, extraGain: seq<nat>, cb: array<nat>, gain: array<nat>)
    requires dec.Length == BLOCKL && 1 <= start <= 5 && |residual| == BLOCKL && AreFilters(weightDenum, NSUB)
    requires |state| == STATE_SHORT_LEN
    requires Sub(dec[..], (start - 1) * SUBL + if stateFirst then 0 else DIFF, STATE_SHORT_LEN) == state
    modifies dec
    ensures fresh(cb) && fresh(gain) && cb != gain && cb.Length == gain.Length == CB_NSTAGES * NASUB
    ensures Chosen(extraIndex, extraGain, 0) && AllChosen(cb[..], gain[..], 0, NASUB)
    ensures Decodable(extraIndex, extraGain, cb[..], gain[..])
    ensures dec[..] == Decoded(StartBlock(state, stateFirst, extraIndex, extraGain), start, cb[..], gain[..])
    ensures ClosedLoop(residual, weightDenum, state, start, stateFirst, extraIndex, extraGain, cb[..], gain[..])
  {
    hide AllChosen, AllConstructible, AllSearched, Chosen, Constructible, Extended, OnlyEntries, Recent, Reverse, SearchedFor,
         StartBlock, StartSearched, Sub;
    var reverse, mem := new real[BLOCKL], new real[CB_MEML];
    cb, gain := new nat[CB_NSTAGES * NASUB], new nat[CB_NSTAGES * NASUB];
    extraIndex, extraGain := EncodeStart(dec, reverse, mem, start, stateFirst, state, residual, weightDenum);
    ghost var block := StartBlock(state, stateFirst, extraIndex, extraGain);
    EncodeForward(dec, mem, start, block, residual, weightDenum, cb, gain);
    ghost var c, g := cb[..], gain[..];
    ghost var fwd := Extended(block, c, g, 0, 5 - start);
    EncodeBackward(dec, reverse, mem, start, fwd, residual, weightDenum, cb, gain);
    BothRuns(block, c, g, cb[..], gain[..], 5 - start);
    SearchStays(c, g, cb[..], gain[..], block, Sub(residual, (start + 1) * SUBL, SUBL * (5 - start)),
                Sub(weightDenum, start + 1, 5 - start), 0, 5 - start, 5 - start, start - 1);
  }
}
