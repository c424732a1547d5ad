/** What a packet means to a decoder: its parameters, its filters, its residual. */
module FrameMeaning {
  import opened Constants
  import opened FrameLayout
  import opened IndexConversion
  import opened LsfInterpolation
  import opened Packing
  import opened StartState
  import Quantisers
  import R = ResidualSpec

  /** The single parameters of a frame are in the ranges of their tables. */
  lemma ParameterRanges(f: Frame)
    requires InRange(f)
    ensures forall k :: 0 <= k < 6 ==> f.lsf[k] < if k % 3 == 0 then 64 else 128
    ensures f.start < 8 && f.stateFirst < 2 && f.idxForMax < 64
    ensures |f.idxVec| == STATE_SHORT_LEN && AreLevels(f.idxVec)
    ensures forall k :: 0 <= k < 3 ==> f.extraCbIndex[k] < 128 && f.extraGainIndex[k] < Quantisers.GainLevels(k)
    ensures forall k :: 0 <= k < 12 ==> f.cbIndex[k] < if 1 <= k < 3 then 128 else 256
    ensures forall k :: 0 <= k < 12 ==> f.gainIndex[k] < Quantisers.GainLevels(k % 3)
  {
    hide Pow2, Rows, Flat;
    Powers();
    var v := Flat(f);
    forall i | 0 <= i < 97
      ensures v[i] < Pow2(WidthAt(i))
    {
      TotalWidth(i);
    }
    PartsOfFlat(f);
    forall k | 0 <= k < STATE_SHORT_LEN
      ensures f.idxVec[k] < 8
    {
      assert f.idxVec[k] == v[9 + k];
    }
    forall k | 0 <= k < 6
      ensures f.lsf[k] < if k % 3 == 0 then 64 else 128
    {
      assert f.lsf[k] == v[k];
    }
    forall k | 0 <= k < 3
      ensures f.extraCbIndex[k] < 128 && f.extraGainIndex[k] < Quantisers.GainLevels(k)
    {
      assert f.extraCbIndex[k] == v[67 + k] && f.extraGainIndex[k] == v[70 + k];
    }
    forall k | 0 <= k < 12
      ensures f.cbIndex[k] < if 1 <= k < 3 then 128 else 256
    {
      assert f.cbIndex[k] == v[73 + k];
    }
    forall k | 0 <= k < 12
      ensures f.gainIndex[k] < Quantisers.GainLevels(k % 3)
    {
      assert f.gainIndex[k] == v[85 + k];
    }
  }

  lemma PartsOfFlat(f: Frame)
    requires Shaped(f)
    ensures var v := Flat(f);
            && (forall k :: 0 <= k < 6 ==> v[k] == f.lsf[k]) && v[6] == f.start && v[7] == f.stateFirst && v[8] == f.idxForMax
            && (forall k :: 0 <= k < STATE_SHORT_LEN ==> v[9 + k] == f.idxVec[k])
            && (forall k :: 0 <= k < 3 ==> v[67 + k] == f.extraCbIndex[k] && v[70 + k] == f.extraGainIndex[k])
            && (forall k :: 0 <= k < 12 ==> v[73 + k] == f.cbIndex[k] && v[85 + k] == f.gainIndex[k])
  {
  }

  /** A frame whose parameters fit their widths can be decoded: every index is in its codebook. */
  lemma InRangeIsDecodable(f: Frame)
    requires InRange(f)
    ensures R.Decodable(f.extraCbIndex, f.extraGainIndex, UnfoldedAll(f.cbIndex), f.gainIndex)
    ensures Quantisers.IndicesFit(Quantisers.SizeLsfCb(), f.lsf[..3]) && Quantisers.IndicesFit(Quantisers.SizeLsfCb(), f.lsf[3..])
  {
    ParameterRanges(f);
    var cb := UnfoldedAll(f.cbIndex);
    forall k | 0 <= k < 4
      ensures R.EntryConstructible(cb, f.gainIndex, k)
    {
      assert forall i :: 0 <= i < 12 ==> cb[i] < 256;
    }
  }

  /** Any packet holds a frame in range. */
  lemma FrameOfIsInRange(bytes: seq<byte>)
    requires |bytes| == NO_OF_BYTES
    ensures InRange(FrameOf(bytes))
  {
    hide Flat, Rows, Unflat;
    FrameSize();
    FrameBits.WrittenRead(Stream(bytes), Rows());
    FlatUnflat(FrameBits.Read(Stream(bytes), Rows()));
  }

  /** The two dequantised vectors of a frame after the separation check. */
  function LsfVectors(sh: Shared, table: seq<real>, f: Frame): (v: seq<real>)
    requires Quantisers.IsLsfTable(table) && InRange(f)
    ensures |v| == 2 * LPC_FILTERORDER
  {
    InRangeIsDecodable(f);
    Quantisers.LsfTableFits(table);
    CheckedLsf(sh, Quantisers.LsfOf(table, f.lsf))
  }

  /** A frame whose start position is not a bit error. */
  predicate GoodStart(f: Frame) {
    1 <= f.start <= 5
  }

  /** The start state of a frame under a filter. */
  function StateIn(sh: Shared, f: Frame, filter: seq<real>): (s: seq<real>)
    requires InRange(f) && |filter| == LPC_FILTERORDER + 1
    ensures |s| == STATE_SHORT_LEN
  {
    ParameterRanges(f);
    StateOf(sh, f.idxForMax, f.idxVec, filter)
  }

  /** The residual that a frame and the filter of its start position stand for. */
  function ResidualOf(sh: Shared, f: Frame, filter: seq<real>): (r: seq<real>)
    requires InRange(f) && GoodStart(f) && |filter| == LPC_FILTERORDER + 1
    ensures |r| == BLOCKL
  {
    InRangeIsDecodable(f);
    R.Decoded(R.StartBlock(StateIn(sh, f, filter), f.stateFirst == 1, f.extraCbIndex, f.extraGainIndex), f.start,
              UnfoldedAll(f.cbIndex), f.gainIndex)
  }
}
