/** iLBC_encode and its state: filters, residual, closed loop, packet. */
module Encoder {
  import opened Codebook
  import opened Constants
  import opened FrameFilters
  import opened FrameLayout
  import opened FrameMeaning
  import opened IndexConversion
  import opened LpcAnalysis
  import opened LsfInterpolation
  import opened Packing
  import opened Sequences
  import opened StartState
  import CodebookSearch
  import FrameClassification
  import Quantisers
  import R = ResidualSpec
  import ResidualEncoding
  import SearchSpec
  import StagedSearch

  /** What the encoder made of a frame: the packet, and what it expects the decoder to have of it. */
  datatype Sent = Sent(bytes: seq<byte>, frame: Frame, filters: seq<seq<real>>, residual: seq<real>, lsf: seq<real>)

  /**
   A faithful packet, from an encoder that remembers `past`: it carries the frame, the filters
   are those of its indices, the residual the one it stands for, and the vector remembered is
   the frame's second.
   */
  ghost predicate Faithful(sh: Shared, table: seq<real>, past: seq<real>, s: Sent) {
    && Quantisers.IsLsfTable(table) && |past| == LPC_FILTERORDER
    && InRange(s.frame) && GoodStart(s.frame) && PacketOf(s.bytes, s.frame)
    && var lsf := LsfVectors(sh, table, s.frame);
       && s.filters == SubframeFilters(sh, past, lsf) && s.lsf == SecondOf(lsf)
       && s.residual == ResidualOf(sh, s.frame, s.filters[s.frame.start - 1])
  }

  /** Each part of each vector has the nearest vector of its codebook. */
  ghost predicate NearestLsf(table: seq<real>, lsf: seq<real>, index: seq<nat>)
    requires Quantisers.IsLsfTable(table) && |lsf| == 2 * LPC_FILTERORDER && |index| == 6
  {
    Quantisers.LsfTableFits(table);
    forall i :: 0 <= i < 3 ==>
      && Quantisers.FirstMinimum(index[i],
           Quantisers.SplitDistances(table, Quantisers.DimLsfCb(), Quantisers.SizeLsfCb(), FirstOf(lsf), i), FLOAT_MAX)
      && Quantisers.FirstMinimum(index[3 + i],
           Quantisers.SplitDistances(table, Quantisers.DimLsfCb(), Quantisers.SizeLsfCb(), SecondOf(lsf), i), FLOAT_MAX)
  }

  /** SimplelsfQ and LSF_check. */
  method QuantiseLsf(sh: Shared, table: seq<real>, lsf: seq<real>) returns (index: seq<nat>, lsfdeq: seq<real>)
    requires Quantisers.IsLsfTable(table) && |lsf| == 2 * LPC_FILTERORDER
    ensures |index| == 6 && forall k :: 0 <= k < 6 ==> index[k] < if k % 3 == 0 then 64 else 128
    ensures |lsfdeq| == 2 * LPC_FILTERORDER && NearestLsf(table, lsf, index)
    ensures forall f :: InRange(f) && f.lsf == index ==> lsfdeq == LsfVectors(sh, table, f)
  {
    hide Quantisers.FirstMinimum, InRange, Quantisers.LsfOf, Quantisers.SplitFits, Quantisers.SplitDistances;
    var q;
    q, index := Quantisers.SimplelsfQ(lsf, table);
    lsfdeq := CheckedLsf(sh, q);
    IndexRanges(index);
  }

  lemma IndexRanges(index: seq<nat>)
    requires |index| == 6
    requires Quantisers.IndicesFit(Quantisers.SizeLsfCb(), index[..3]) && Quantisers.IndicesFit(Quantisers.SizeLsfCb(), index[3..])
    ensures forall k :: 0 <= k < 6 ==> index[k] < if k % 3 == 0 then 64 else 128
  {
    var a, b := index[..3], index[3..];
    assert a[0] < 64 && a[1] < 128 && a[2] < 128;
    assert b[0] < 64 && b[1] < 128 && b[2] < 128;
  }

  /** Whether the adaptive part of the start state goes last: the side with more energy is coded as it is. */
  ghost predicate StateGoesFirst(residual: seq<real>, start: nat)
    requires |residual| == BLOCKL && 1 <= start <= 5
  {
    var at := (start - 1) * SUBL;
    SearchSpec.Energy(Sub(residual, at, STATE_SHORT_LEN)) > SearchSpec.Energy(Sub(residual, at + DIFF, STATE_SHORT_LEN))
  }

  /** The closed loop, from the quantised start state on. */
  method EncodeResidual(sh: Shared, residual: seq<real>, idxForMax: nat, idxVec: seq<nat>, filter: seq<real>,
                        weights: seq<seq<real>>, start: nat, stateFirst: bool)
    returns (decresidual: array<real>, extraIndex: seq<nat>, extraGain: seq<nat>, cb: array<nat>, gain: array<nat>)
    requires |residual| == BLOCKL && idxForMax < 64 && |idxVec| == STATE_SHORT_LEN && AreLevels(idxVec)
    requires |filter| == LPC_FILTERORDER + 1 && 1 <= start <= 5 && ResidualEncoding.AreFilters(weights, NSUB)
    ensures fresh(decresidual) && fresh(cb) && fresh(gain) && cb != gain && cb.Length == gain.Length == 12
    ensures ResidualEncoding.Chosen(extraIndex, extraGain, 0) && ResidualEncoding.AllChosen(cb[..], gain[..], 0, NASUB)
    ensures R.Decodable(extraIndex, extraGain, cb[..], gain[..])
    ensures var state := StateOf(sh, idxForMax, idxVec, filter);
            && decresidual[..] == R.Decoded(R.StartBlock(state, stateFirst, extraIndex, extraGain), start, cb[..], gain[..])
            && ResidualEncoding.ClosedLoop(residual, weights, state, start, stateFirst, extraIndex, extraGain, cb[..], gain[..])
  {
    hide ResidualEncoding.ClosedLoop, R.Decoded, R.Decodable, R.StartBlock, ResidualEncoding.Chosen, ResidualEncoding.AllChosen,
         StateOf;
    decresidual := new real[BLOCKL];
    var startPos := (start - 1) * SUBL + if stateFirst then 0 else DIFF;
    StateConstructW(sh, idxForMax, idxVec, filter, decresidual, startPos);
    ghost var state := StateOf(sh, idxForMax, idxVec, filter);
    assert Sub(decresidual[..], startPos, STATE_SHORT_LEN) == state;
    extraIndex, extraGain, cb, gain := ResidualEncoding.EncodeFrom(decresidual, start, stateFirst, state, residual, weights);
  }

  // ---------- What is sent fits and means what was meant ----------

  /** Every stage of every subframe stays in the part of the layout its range allows. */
  lemma ChosenEntry(cb: seq<nat>, gain: seq<nat>, i: nat)
    requires |cb| == |gain| == 12 && ResidualEncoding.AllChosen(cb, gain, 0, NASUB) && i < 12
    ensures Suits(CB_MEML, SUBL)
    ensures SearchSpec.Reachable(cb[i], CB_MEML, SUBL, StagedSearch.SearchRange(i / 3 + 1, i % 3))
    ensures cb[i] < 256 && gain[i] < Quantisers.GainLevels(i % 3)
  {
    hide SearchSpec.Reachable;
    var k, s := i / 3, i % 3;
    assert ResidualEncoding.EntryChosen(cb, gain, k);
    assert R.Entry(cb, k)[s] == cb[i] && R.Entry(gain, k)[s] == gain[i];
    ReachableIsByte(cb[i], StagedSearch.SearchRange(k + 1, s));
  }

  lemma ReachableIsByte(i: nat, range: nat)
    requires Suits(CB_MEML, SUBL) && range <= 108 && SearchSpec.Reachable(i, CB_MEML, SUBL, range)
    ensures i < 256
  {
  }

  lemma ChosenExtra(index: seq<nat>, gain: seq<nat>, s: nat)
    requires ResidualEncoding.Chosen(index, gain, 0) && s < 3
    ensures index[s] < 128 && gain[s] < Quantisers.GainLevels(s)
  {
  }

  /** Whatever the signal, the indices of the search fit the wire, and the decoder unfolds them to what they were. */
  lemma SearchFitsWire(lsf: seq<nat>, start: nat, stateFirst: nat, idxForMax: nat, idxVec: seq<nat>,
                       extraIndex: seq<nat>, extraGain: seq<nat>, cb: seq<nat>, gain: seq<nat>)
    requires |lsf| == 6 && forall k :: 0 <= k < 6 ==> lsf[k] < if k % 3 == 0 then 64 else 128
    requires 1 <= start <= 5 && stateFirst < 2 && idxForMax < 64 && |idxVec| == STATE_SHORT_LEN && AreLevels(idxVec)
    requires |cb| == |gain| == 12 && ResidualEncoding.Chosen(extraIndex, extraGain, 0)
    requires ResidualEncoding.AllChosen(cb, gain, 0, NASUB)
    ensures InRange(Frame(lsf, start, stateFirst, idxForMax, idxVec, extraIndex, extraGain, FoldedAll(cb), gain))
    ensures UnfoldedAll(FoldedAll(cb)) == cb
  {
    hide ResidualEncoding.Chosen, ResidualEncoding.AllChosen, SearchSpec.Reachable, UnfoldedAll, InRange;
    forall i | 0 <= i < 12
      ensures cb[i] < 256 && gain[i] < Quantisers.GainLevels(i % 3)
    {
      ChosenEntry(cb, gain, i);
    }
    ChosenLengths(extraIndex, extraGain);
    forall s | 0 <= s < 3
      ensures extraIndex[s] < 128 && extraGain[s] < Quantisers.GainLevels(s)
    {
      ChosenExtra(extraIndex, extraGain, s);
    }
    ChosenEntry(cb, gain, 1);
    ChosenEntry(cb, gain, 2);
    ConversionRoundTrip(cb);
    RangeOf(Frame(lsf, start, stateFirst, idxForMax, idxVec, extraIndex, extraGain, FoldedAll(cb), gain));
  }

  lemma ChosenLengths(index: seq<nat>, gain: seq<nat>)
    requires ResidualEncoding.Chosen(index, gain, 0)
    ensures |index| == |gain| == CB_NSTAGES
  {
  }

  // ---------- From the residual to the packet ----------

  /** Start position and order as the energies of the residual say. */
  ghost predicate WellPlaced(f: Frame, residual: seq<real>)
    requires |residual| == BLOCKL && GoodStart(f)
  {
    && (forall n :: 1 <= n <= 5 ==> FrameClassification.Score(residual, n) <= FrameClassification.Score(residual, f.start))
    && (forall n :: 1 <= n < f.start ==> FrameClassification.Score(residual, n) < FrameClassification.Score(residual, f.start))
    && (f.stateFirst == 1 <==> StateGoesFirst(residual, f.start))
  }

  /** Every index and gain of the frame found by the searches of the closed loop. */
  ghost predicate WellSearched(sh: Shared, f: Frame, residual: seq<real>, filters: seq<seq<real>>, weights: seq<seq<real>>)
    requires InRange(f) && GoodStart(f) && |residual| == BLOCKL && AreFrameFilters(filters) && |weights| == NSUB
  {
    InRangeIsDecodable(f);
    ResidualEncoding.ClosedLoop(residual, weights, StateIn(sh, f, filters[f.start - 1]), f.start, f.stateFirst == 1,
                                f.extraCbIndex, f.extraGainIndex, UnfoldedAll(f.cbIndex), f.gainIndex)
  }

  /** The weighting filters of a start state: the second subframe begins where the first has ended. */
  function ShapingAt(weights: seq<seq<real>>, start: nat, stateFirst: bool): (s: Shaping)
    requires ResidualEncoding.AreFilters(weights, NSUB) && 1 <= start <= 5
    ensures IsShaping(s) && s.split <= STATE_SHORT_LEN
  {
    Shaping(weights[start - 1], weights[start], if stateFirst then SUBL else STATE_SHORT_LEN - SUBL)
  }

  /** Every sample of a start state is weighted with the filter of the subframe it lies in. */
  lemma ShapedWhereItLies(weights: seq<seq<real>>, start: nat, stateFirst: bool, n: nat)
    requires ResidualEncoding.AreFilters(weights, NSUB) && 1 <= start <= 5 && n < STATE_SHORT_LEN
    ensures var at := (start - 1) * SUBL + (if stateFirst then 0 else DIFF) + n;
            at / SUBL < NSUB && StartState.FilterAt(ShapingAt(weights, start, stateFirst), n) == weights[at / SUBL]
  {
  }

  /** The start state quantised from its stretch of the residual. */
  ghost predicate WellStarted(sh: Shared, f: Frame, residual: seq<real>, filters: seq<seq<real>>, weights: seq<seq<real>>)
    requires GoodStart(f) && |residual| == BLOCKL && AreFrameFilters(filters) && ResidualEncoding.AreFilters(weights, NSUB)
  {
    var at := (f.start - 1) * SUBL + if f.stateFirst == 1 then 0 else DIFF;
    WellQuantised(sh, Sub(residual, at, STATE_SHORT_LEN), filters[f.start - 1],
                  ShapingAt(weights, f.start, f.stateFirst == 1), f.idxForMax, f.idxVec)
  }

  ghost predicate WellCoded(sh: Shared, f: Frame, residual: seq<real>, filters: seq<seq<real>>, weights: seq<seq<real>>)
    requires InRange(f) && GoodStart(f) && |residual| == BLOCKL && AreFrameFilters(filters)
    requires ResidualEncoding.AreFilters(weights, NSUB)
  {
    WellStarted(sh, f, residual, filters, weights) && WellSearched(sh, f, residual, filters, weights)
  }

  /** Where the start state lies, and which of its sides goes first. */
  method PlaceState(residual: seq<real>) returns (start: nat, stateFirst: nat, startPos: nat)
    requires |residual| == BLOCKL
    ensures 1 <= start <= 5 && stateFirst < 2 && startPos == (start - 1) * SUBL + if stateFirst == 1 then 0 else DIFF
    ensures forall n :: 1 <= n <= 5 ==> FrameClassification.Score(residual, n) <= FrameClassification.Score(residual, start)
    ensures forall n :: 1 <= n < start ==> FrameClassification.Score(residual, n) < FrameClassification.Score(residual, start)
    ensures stateFirst == 1 <==> StateGoesFirst(residual, start)
  {
    hide FrameClassification.Score, SearchSpec.Energy, Sub;
    start := FrameClassification.FrameClassify(residual);
    var index := (start - 1) * SUBL;
    var en1 := CodebookSearch.EnergyAt(residual, index, STATE_SHORT_LEN);
    var en2 := CodebookSearch.EnergyAt(residual, index + DIFF, STATE_SHORT_LEN);
    if en1 > en2 {
      stateFirst, startPos := 1, index;
    } else {
      stateFirst, startPos := 0, index + DIFF;
    }
  }

  /** The part of iLBC_encode after the analysis: start state, closed loop, index conversion, packing. */
  method CodeFrame(sh: Shared, index: seq<nat>, residual: seq<real>, filters: seq<seq<real>>, weights: seq<seq<real>>)
    returns (bytes: array<byte>, f: Frame, dec: array<real>)
    requires |index| == 6 && forall k :: 0 <= k < 6 ==> index[k] < if k % 3 == 0 then 64 else 128
    requires |residual| == BLOCKL && AreFrameFilters(filters) && ResidualEncoding.AreFilters(weights, NSUB)
    ensures fresh(bytes) && fresh(dec) && InRange(f) && PacketOf(bytes[..], f)
    ensures f.lsf == index && GoodStart(f) && dec[..] == ResidualOf(sh, f, filters[f.start - 1])
    ensures WellPlaced(f, residual) && WellStarted(sh, f, residual, filters, weights)
    ensures WellSearched(sh, f, residual, filters, weights)
  {
    hide InRange, PacketOf, FoldedAll, UnfoldedAll, R.Decoded, R.Decodable, R.StartBlock, ResidualEncoding.Chosen,
         ResidualEncoding.AllChosen, ResidualEncoding.ClosedLoop, FrameClassification.Score, SearchSpec.Energy, StateOf, Sub,
         Closest, Circular, NoiseShaped, WellScaled, StateGoesFirst;
    var start, stateFirst, startPos := PlaceState(residual);
    var idxForMax, idxVec := StateSearchW(sh, Sub(residual, startPos, STATE_SHORT_LEN), filters[start - 1],
                                          ShapingAt(weights, start, stateFirst == 1));
    var extraIndex, extraGain, cb, gain;
    dec, extraIndex, extraGain, cb, gain :=
      EncodeResidual(sh, residual, idxForMax, idxVec, filters[start - 1], weights, start, stateFirst == 1);
    ghost var c := cb[..];
    SearchFitsWire(index, start, stateFirst, idxForMax, idxVec, extraIndex, extraGain, c, gain[..]);
    IndexConvEnc(cb);
    f := Frame(index, start, stateFirst, idxForMax, idxVec, extraIndex, extraGain, cb[..], gain[..]);
    bytes := Pack(f);
  }

  // ---------- The encoder ----------

  class Instance {
    const anaMem: array<real>
    const lpcBuffer: array<real>
    var lsfold: seq<real>
    var lsfdeqold: seq<real>

    ghost predicate Valid()
      reads this
    {
      && anaMem.Length == LPC_FILTERORDER && lpcBuffer.Length == LPC_LOOKBACK + BLOCKL && anaMem != lpcBuffer
      && |lsfold| == |lsfdeqold| == LPC_FILTERORDER
    }

    /** initEncode, for the table of mean frequencies. */
    constructor (lsfmean: seq<real>)
      requires |lsfmean| == LPC_FILTERORDER
      ensures Valid() && fresh(anaMem) && fresh(lpcBuffer) && lsfdeqold == lsfold == lsfmean
      ensures forall i :: 0 <= i < LPC_FILTERORDER ==> anaMem[i] == 0.0
      ensures forall i :: 0 <= i < LPC_LOOKBACK ==> lpcBuffer[i] == 0.0
    {
      anaMem := new real[LPC_FILTERORDER](_ => 0.0);
      lpcBuffer := new real[LPC_LOOKBACK + BLOCKL](_ => 0.0);
      lsfold, lsfdeqold := lsfmean, lsfmean;
    }

    /** The block with the samples kept from the one before it. */
    ghost function Signal(block: seq<real>): (s: seq<real>)
      requires Valid() && |block| == BLOCKL
      reads this, lpcBuffer
      ensures |s| == LPC_LOOKBACK + BLOCKL
    {
      lpcBuffer[..LPC_LOOKBACK] + block
    }

    /** iLBC_encode. The residual it rebuilds is what the packet stands for. */
    method Encode(sh: Shared, an: Analysis, table: seq<real>, block: seq<real>)
      returns (bytes: array<byte>, ghost sent: Sent, ghost target: seq<real>)
      requires Valid() && IsAnalysis(an) && Quantisers.IsLsfTable(table) && |block| == BLOCKL
      modifies this, anaMem, lpcBuffer
      ensures Valid() && fresh(bytes) && sent.bytes == bytes[..] && sent.lsf == lsfdeqold
      ensures Faithful(sh, table, old(lsfdeqold), sent)
      ensures AreFrameFilters(sent.filters) && target == AnalysedTo(old(anaMem[..]), sent.filters, block, NSUB)
      ensures anaMem[..] == MemoryAfter(old(anaMem[..]), block)
      ensures lpcBuffer[..LPC_LOOKBACK] == Sub(block, BLOCKL - LPC_LOOKBACK, LPC_LOOKBACK)
      ensures var lsf := LpcAnalysis.LsfOf(an, old(Signal(block)));
              && lsfold == SecondOf(lsf) && NearestLsf(table, lsf, sent.frame.lsf) && WellPlaced(sent.frame, target)
              && WellCoded(sh, sent.frame, target, sent.filters, WeightingFilters(sh, old(lsfold), lsf))
    {
      hide AnalysedTo, MemoryAfter, InRange, PacketOf, LsfVectors, SubframeFilters, WeightingFilters, ResidualOf,
           NearestLsf, WellPlaced, WellStarted, WellSearched, Quantisers.IsLsfTable, LpcAnalysis.LsfOf;
      var lsf := SimpleAnalysis(an, block, lpcBuffer);
      var index, lsfdeq := QuantiseLsf(sh, table, lsf);
      var synt, weights, remembered, rememberedDeq := SimpleInterpolateLSF(sh, lsf, lsfdeq, lsfold, lsfdeqold);
      lsfold, lsfdeqold := remembered, rememberedDeq;
      var residual := new real[BLOCKL];
      AnalyseFrame(block, synt[..], residual, anaMem);
      target := residual[..];
      var f, dec;
      bytes, f, dec := CodeFrame(sh, index, residual[..], synt[..], weights[..]);
      sent := Sent(bytes[..], f, synt[..], dec[..], lsfdeqold);
    }
  }
}
