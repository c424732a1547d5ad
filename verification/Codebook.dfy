/**
 The adaptive codebook. Its vectors come from a memory of past samples: plain stretches,
 short lags interpolated into full vectors, and both again over the filtered memory. The
 search side and the decoding side build them by different index arithmetic; both are
 proved to build CbVec.
 */
module Codebook {
  import opened Buffers
  import opened Constants
  import opened Reals
  import opened Sequences

  function CbFilters(): (t: seq<real>)
    ensures |t| == CB_FILTERLEN
  {
    [-0.033691, 0.083740, -0.144043, 0.713379, 0.806152, -0.184326, 0.108887, -0.034180]
  }

  // ---------- Specification ----------

  /** The memory, taken to be zero before its start and after its end. */
  function Padded(mem: seq<real>, i: int): real {
    if 0 <= i < |mem| then mem[i] else 0.0
  }

  /** The first n terms of the filter centred at sample k. */
  function FilterSum(mem: seq<real>, k: int, n: nat): real
    requires n <= CB_FILTERLEN
  {
    if n == 0 then 0.0 else
    FilterSum(mem, k, n - 1) + Times(Padded(mem, k + n - CB_HALFFILTERLEN), CbFilters()[n - 1])
  }

  function Filtered(mem: seq<real>): (f: seq<real>)
    ensures |f| == |mem|
  {
    seq(|mem|, k requires 0 <= k < |mem| => FilterSum(mem, k, CB_FILTERLEN))
  }

  function Mix(alfa: real, x: real, y: real): real {
    (1.0 - alfa) * x + alfa * y
  }

  /** The interpolation weight t steps into the overlap. */
  function Alfa(t: nat): real {
    t as real * 0.2
  }

  /** A lag shorter than the vector: the last `lag` samples, then the same again, cross-faded over five samples. */
  function Augmented(mem: seq<real>, lag: nat): (v: seq<real>)
    requires SUBL / 2 <= lag <= SUBL && 2 * lag <= |mem|
    ensures |v| == SUBL
  {
    var n := |mem|;
    seq(SUBL, j requires 0 <= j < SUBL =>
      if j < lag - 5 then mem[n - lag + j]
      else if j < lag then Mix(Alfa(j - (lag - 5)), mem[n - lag + j], mem[n - 2 * lag + j])
      else mem[n - 2 * lag + j])
  }

  /** The number of plain vectors of length len. */
  function Plain(lMem: nat, len: nat): nat
    requires len <= lMem
  {
    lMem - len + 1
  }

  /** The size of a codebook section: for full-length vectors it also has the interpolated ones. */
  function BaseSize(lMem: nat, len: nat): nat
    requires len <= lMem
  {
    if len == SUBL then Plain(lMem, len) + len / 2 else Plain(lMem, len)
  }

  /** A memory and a vector length for which every index of the layout is defined. */
  predicate Suits(lMem: nat, len: nat) {
    0 < len <= SUBL && len <= lMem <= CB_MEML && (len == SUBL ==> 2 * (SUBL - 1) <= lMem)
  }

  /** A vector of one section. */
  function SectionVec(mem: seq<real>, index: nat, len: nat): (v: seq<real>)
    requires Suits(|mem|, len) && index < BaseSize(|mem|, len)
    ensures |v| == len
  {
    if index < Plain(|mem|, len) then Sub(mem, |mem| - len - index, len)
    else Augmented(mem, index - Plain(|mem|, len) + SUBL / 2)
  }

  /** The codebook: the section over the memory, then the section over the filtered memory. */
  function CbVec(mem: seq<real>, index: nat, len: nat): (v: seq<real>)
    requires Suits(|mem|, len) && index < 2 * BaseSize(|mem|, len)
    ensures |v| == len
  {
    var base := BaseSize(|mem|, len);
    if index < base then SectionVec(mem, index, len) else SectionVec(Filtered(mem), index - base, len)
  }

  // ---------- The search side ----------

  /** filteredCBvecs: filters the whole memory, from a copy with zeros around it. */
  method FilteredCBvecs(cbvectors: array<real>, mem: seq<real>)
    requires |mem| <= CB_MEML && |mem| <= cbvectors.Length
    modifies cbvectors
    ensures cbvectors[..|mem|] == Filtered(mem)
  {
    hide FilterSum, Filtered;
    var tempbuff2 := new real[CB_MEML + CB_FILTERLEN];
    Surround(tempbuff2, mem, CB_HALFFILTERLEN - 1);
    for k := 0 to |mem|
      invariant forall i :: 0 <= i < k ==> cbvectors[i] == FilterSum(mem, i, CB_FILTERLEN)
      invariant Surrounded(tempbuff2[..], mem, CB_HALFFILTERLEN - 1)
    {
      cbvectors[k] := FilterAt(tempbuff2, k, mem, CB_HALFFILTERLEN - 1);
    }
    FilteredIs(mem, cbvectors[..|mem|]);
  }

  /** A buffer that holds the memory after `lead` zeros, and enough zeros after it. */
  ghost predicate Surrounded(buf: seq<real>, mem: seq<real>, lead: nat) {
    && lead + |mem| + CB_HALFFILTERLEN + 1 <= |buf|
    && forall i {:trigger buf[i]} :: 0 <= i < lead + |mem| + CB_HALFFILTERLEN + 1 ==> buf[i] == Padded(mem, i - lead)
  }

  method Surround(buf: array<real>, mem: seq<real>, lead: nat)
    requires lead + |mem| + CB_HALFFILTERLEN + 1 <= buf.Length
    modifies buf
    ensures Surrounded(buf[..], mem, lead)
  {
    forall i | 0 <= i < lead {
      buf[i] := 0.0;
    }
    forall i | 0 <= i < |mem| {
      buf[lead + i] := mem[i];
    }
    forall i | lead + |mem| <= i < lead + |mem| + CB_HALFFILTERLEN + 1 {
      buf[i] := 0.0;
    }
  }

  /** One filter output, read from the surrounded memory `lead` samples along. */
  method FilterAt(buf: array<real>, at: nat, ghost mem: seq<real>, ghost lead: nat) returns (sum: real)
    requires Surrounded(buf[..], mem, lead) && CB_HALFFILTERLEN - 1 <= lead
    requires lead <= at + CB_HALFFILTERLEN - 1 < lead + |mem|
    ensures sum == FilterSum(mem, at + CB_HALFFILTERLEN - 1 - lead, CB_FILTERLEN)
  {
    ghost var k := at + CB_HALFFILTERLEN - 1 - lead;
    sum := 0.0;
    for j := 0 to CB_FILTERLEN
      invariant sum == FilterSum(mem, k, j)
    {
      assert buf[..][at + j] == Padded(mem, k + (j + 1) - CB_HALFFILTERLEN);
      sum := sum + Times(buf[at + j], CbFilters()[j]);
    }
  }

  lemma FilteredIs(mem: seq<real>, f: seq<real>)
    requires |f| == |mem| && forall k :: 0 <= k < |mem| ==> f[k] == FilterSum(mem, k, CB_FILTERLEN)
    ensures f == Filtered(mem)
  {
    hide FilterSum;
  }

  /** createAugmentedVec: copies the lag, writes the cross-fade over its end, copies the lag again. */
  method CreateAugmentedVec(index: nat, buffer: seq<real>, cbVec: array<real>)
    requires SUBL / 2 <= index <= SUBL && 2 * index <= |buffer| && cbVec.Length == SUBL
    modifies cbVec
    ensures cbVec[..] == Augmented(buffer, index)
  {
    hide Mix;
    var n, ilow := |buffer|, index - 5;
    forall j | 0 <= j < index {
      cbVec[j] := buffer[n - index + j];
    }
    var alfa1, alfa := 0.2, 0.0;
    for j := ilow to index
      invariant alfa == Alfa(j - ilow)
      invariant forall i :: 0 <= i < j ==> cbVec[i] == Augmented(buffer, index)[i]
    {
      cbVec[j] := Mix(alfa, buffer[n - 5 + (j - ilow)], buffer[n - index - 5 + (j - ilow)]);
      alfa := alfa + alfa1;
    }
    forall j | 0 <= j < SUBL - index {
      cbVec[index + j] := buffer[n - index + j];
    }
  }

  // ---------- The decoding side ----------

  /** getCBvec, the interpolated vectors: index arithmetic on twice the lag. */
  method GetInterpolated(cbvec: array<real>, mem: seq<real>, k: nat)
    requires cbvec.Length == SUBL && k % 2 == 0 && SUBL <= k <= 2 * SUBL && k <= |mem|
    modifies cbvec
    ensures cbvec[..] == Augmented(mem, k / 2)
  {
    hide Mix;
    var lMem := |mem|;
    var ihigh := k / 2;
    var ilow := ihigh - 5;
    forall j | 0 <= j < ilow {
      cbvec[j] := mem[lMem - k / 2 + j];
    }
    var alfa1, alfa := 0.2, 0.0;
    for j := ilow to ihigh
      invariant alfa == Alfa(j - ilow)
      invariant forall i :: 0 <= i < j ==> cbvec[i] == Augmented(mem, k / 2)[i]
    {
      cbvec[j] := Mix(alfa, mem[lMem - k / 2 + j], mem[lMem - k + j]);
      alfa := alfa + alfa1;
    }
    forall j | 0 <= j < SUBL - ihigh {
      cbvec[ihigh + j] := mem[lMem - k + ihigh + j];
    }
  }

  /** getCBvec, its filtering: n samples of the filtered memory, from sample sFilt on. */
  method FilterStretch(out: array<real>, at: nat, mem: seq<real>, sFilt: nat, n: nat)
    requires |mem| <= CB_MEML && sFilt + n <= |mem| && at + n <= out.Length
    modifies out
    ensures Overwritten(out[..], old(out[..]), at, Sub(Filtered(mem), sFilt, n))
  {
    hide FilterSum;
    var tempbuff2 := new real[CB_MEML + CB_FILTERLEN + 1];
    Surround(tempbuff2, mem, CB_HALFFILTERLEN);
    var memInd := sFilt + 1 - CB_HALFFILTERLEN;
    for i := 0 to n
      invariant Surrounded(tempbuff2[..], mem, CB_HALFFILTERLEN)
      invariant Overwritten(out[..], old(out[..]), at, Sub(Filtered(mem), sFilt, i))
    {
      out[at + i] := FilterAt(tempbuff2, memInd + i + CB_HALFFILTERLEN, mem, CB_HALFFILTERLEN);
    }
  }

  /** getCBvec: the vector of any index of the layout. */
  method GetCBvec(cbvec: array<real>, mem: seq<real>, index: nat, cbveclen: nat)
    requires Suits(|mem|, cbveclen) && cbvec.Length == cbveclen && index < 2 * BaseSize(|mem|, cbveclen)
    modifies cbvec
    ensures cbvec[..] == CbVec(mem, index, cbveclen)
  {
    hide Augmented, Filtered, Alfa, Mix, FilterSum;
    var lMem := |mem|;
    var baseSize := lMem - cbveclen + 1;
    if cbveclen == SUBL {
      baseSize := baseSize + cbveclen / 2;
    }
    if index < lMem - cbveclen + 1 {
      var k := index + cbveclen;
      forall j | 0 <= j < cbveclen {
        cbvec[j] := mem[lMem - k + j];
      }
    } else if index < baseSize {
      GetInterpolated(cbvec, mem, 2 * (index - (lMem - cbveclen + 1)) + cbveclen);
    } else if index - baseSize < lMem - cbveclen + 1 {
      var k := index - baseSize + cbveclen;
      FilterStretch(cbvec, 0, mem, lMem - k, cbveclen);
    } else {
      var k := 2 * (index - baseSize - (lMem - cbveclen + 1)) + cbveclen;
      var tmpbuf := new real[lMem];
      FilterStretch(tmpbuf, lMem - k, mem, lMem - k, k);
      AugmentedFromEnd(tmpbuf[..], Filtered(mem), k / 2);
      GetInterpolated(cbvec, tmpbuf[..], k);
    }
  }

  /** An interpolated vector depends on the last 2 * lag samples only. */
  lemma AugmentedFromEnd(a: seq<real>, b: seq<real>, lag: nat)
    requires SUBL / 2 <= lag <= SUBL && 2 * lag <= |a| == |b|
    requires forall i :: |a| - 2 * lag <= i < |a| ==> a[i] == b[i]
    ensures Augmented(a, lag) == Augmented(b, lag)
  {
    hide Mix;
  }

  // ---------- Taking the chosen vector out of the search buffers ----------

  lemma FilternoIsOne(index: nat, baseSize: nat)
    requires baseSize <= index < 2 * baseSize
    ensures index / baseSize == 1
  {
    assert index == 1 * baseSize + (index - baseSize);
  }

  /** The vector of the higher section, where filterno and lag_val come from a division. */
  method ExtractHigher(cbvectors: seq<real>, index: nat, baseSize: nat) returns (v: seq<real>)
    requires Suits(|cbvectors|, SUBL) && baseSize == BaseSize(|cbvectors|, SUBL) <= index < 2 * baseSize
    ensures v == SectionVec(cbvectors, index - baseSize, SUBL)
  {
    hide Augmented, Sub;
    FilternoIsOne(index, baseSize);
    var filterno := index / baseSize;
    var lagVal := index - filterno * baseSize;
    if lagVal < baseSize - 20 {
      v := Sub(cbvectors, filterno * |cbvectors| - SUBL - index + filterno * baseSize, SUBL);
    } else {
      var augVec := new real[SUBL];
      CreateAugmentedVec(index - (filterno + 1) * baseSize + 40, cbvectors, augVec);
      v := augVec[..];
    }
  }

  /**
   The end of a stage of iCBSearch: the vector of the chosen index, from the buffer, from the
   filtered buffer, or made by createAugmentedVec from the end of either.
   */
  method ExtractVector(buf: seq<real>, cbvectors: seq<real>, index: nat, lTarget: nat) returns (v: seq<real>)
    requires Suits(|buf|, lTarget) && index < 2 * BaseSize(|buf|, lTarget)
    requires lTarget == SUBL || lTarget == 22
    requires cbvectors == Filtered(buf)
    ensures v == CbVec(buf, index, lTarget)
  {
    hide Augmented, Filtered, Sub;
    var lMem, baseSize := |buf|, BaseSize(|buf|, lTarget);
    if lTarget == 22 {
      if index < baseSize {
        v := Sub(buf, lMem - lTarget - index, lTarget);
      } else {
        v := Sub(cbvectors, lMem - lTarget - index + baseSize, lTarget);
      }
    } else if index < baseSize {
      if index < baseSize - 20 {
        v := Sub(buf, lMem - lTarget - index, lTarget);
      } else {
        var augVec := new real[SUBL];
        CreateAugmentedVec(index - baseSize + 40, buf, augVec);
        v := augVec[..];
      }
    } else {
      v := ExtractHigher(cbvectors, index, baseSize);
    }
  }
}
