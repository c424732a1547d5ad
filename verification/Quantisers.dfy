/**
 The quantisers: the split vector quantiser of the line spectral frequencies, the scalar
 quantiser of the start state, and the gain quantiser, with the decoders that undo them.
 */
module Quantisers {
  import opened Buffers
  import opened Constants
  import opened Reals
  import opened Sequences

  // ---------- Searching for a minimum ----------

  /**
   The outcome of a search that starts from a bound and moves on strict improvement: the first
   index of the smallest value if any value is below the bound, and index 0 otherwise.
   */
  ghost predicate FirstMinimum(i: nat, d: seq<real>, bound: real) {
    && i < |d|
    && (forall j {:trigger d[j]} :: 0 <= j < |d| ==> if d[i] < bound then d[i] <= d[j] else bound <= d[j])
    && (forall j {:trigger d[j]} :: 0 <= j < i ==> d[i] < bound && d[i] < d[j])
  }

  /** There is only one such index. */
  lemma FirstMinimumIsUnique(i: nat, k: nat, d: seq<real>, bound: real)
    requires FirstMinimum(i, d, bound) && FirstMinimum(k, d, bound)
    ensures i == k
  {
    var u, v := d[i], d[k];
    assert u == v;
  }

  // ---------- Squared distance ----------

  /** The squared distance of the first n components. */
  function DistanceTo(x: seq<real>, y: seq<real>, n: nat): (d: real)
    requires n <= |x| && n <= |y|
    ensures d >= 0.0
  {
    if n == 0 then 0.0 else DistanceTo(x, y, n - 1) + Square(x[n - 1] - y[n - 1])
  }

  function Distance(x: seq<real>, y: seq<real>): (d: real)
    requires |x| == |y|
    ensures d >= 0.0
  {
    DistanceTo(x, y, |x|)
  }

  lemma {:induction false} DistanceJoin(x: seq<real>, y: seq<real>, u: seq<real>, v: seq<real>, n: nat)
    requires |x| == |y| && |u| == |v| && n <= |u|
    ensures DistanceTo(x + u, y + v, |x| + n) == Distance(x, y) + DistanceTo(u, v, n)
  {
    hide Square;
    if n == 0 {
      DistancePrefix(x, y, u, v, |x|);
    } else {
      DistanceJoin(x, y, u, v, n - 1);
    }
  }

  lemma {:induction false} DistancePrefix(x: seq<real>, y: seq<real>, u: seq<real>, v: seq<real>, n: nat)
    requires n <= |x| && n <= |y|
    ensures DistanceTo(x + u, y + v, n) == DistanceTo(x, y, n)
  {
    hide Square;
    if n > 0 {
      DistancePrefix(x, y, u, v, n - 1);
    }
  }

  // ---------- vq ----------

  lemma VectorInside(j: nat, n: nat, dim: nat)
    requires j < n
    ensures 0 <= j * dim <= j * dim + dim == (j + 1) * dim <= n * dim
  {
    assert (j + 1) * dim <= n * dim by {
      assert (n - (j + 1)) * dim >= 0;
    }
  }

  /** Vector j of a codebook stored flat. */
  function CodeVec(cb: seq<real>, n: nat, dim: nat, j: nat): (v: seq<real>)
    requires j < n && n * dim <= |cb|
    ensures |v| == dim
  {
    VectorInside(j, n, dim);
    Sub(cb, j * dim, dim)
  }

  /** The distances of x to all the vectors of a codebook. */
  function Distances(x: seq<real>, cb: seq<real>, n: nat): (d: seq<real>)
    requires n * |x| <= |cb|
    ensures |d| == n
  {
    seq(n, j requires 0 <= j < n => Distance(x, CodeVec(cb, n, |x|, j)))
  }

  /** The distance loop of vq: the first component apart from the others, as in the source. */
  method DistanceAt(x: seq<real>, cb: seq<real>, pos: nat) returns (dist: real)
    requires 0 < |x| && pos + |x| <= |cb|
    ensures dist == Distance(x, Sub(cb, pos, |x|))
  {
    hide Square;
    ghost var y := Sub(cb, pos, |x|);
    dist := Square(x[0] - cb[pos]);
    assert DistanceTo(x, y, 1) == DistanceTo(x, y, 0) + Square(x[0] - y[0]);
    for i := 1 to |x|
      invariant dist == DistanceTo(x, y, i)
    {
      var tmp := x[i] - cb[pos + i];
      dist := dist + Square(tmp);
    }
  }

  /** vq: the nearest vector of the codebook. */
  method Vq(x: seq<real>, cb: seq<real>, n: nat) returns (xq: seq<real>, index: nat)
    requires 0 < |x| && 0 < n && n * |x| <= |cb|
    ensures FirstMinimum(index, Distances(x, cb, n), FLOAT_MAX)
    ensures xq == CodeVec(cb, n, |x|, index)
  {
    hide DistanceTo, Sub;
    var pos, mindist := 0, FLOAT_MAX;
    index := 0;
    ghost var d := Distances(x, cb, n);
    for j := 0 to n
      invariant pos == j * |x| && index < n
      invariant mindist <= FLOAT_MAX && mindist == if j > 0 && d[index] < FLOAT_MAX then d[index] else FLOAT_MAX
      invariant index < j || (index == 0 && mindist == FLOAT_MAX)
      invariant forall i {:trigger d[i]} :: 0 <= i < j ==> mindist <= d[i]
      invariant forall i {:trigger d[i]} :: 0 <= i < index ==> mindist < d[i]
      invariant mindist == FLOAT_MAX ==> index == 0
    {
      VectorInside(j, n, |x|);
      var dist := DistanceAt(x, cb, pos);
      assert dist == d[j];
      if dist < mindist {
        mindist, index := dist, j;
      }
      pos := pos + |x|;
    }
    xq := CodeVec(cb, n, |x|, index);
  }

  // ---------- Split quantisation ----------

  /** The lengths of the codebooks of the splits. */
  function BookSizes(dim: seq<nat>, cbsize: seq<nat>): (b: seq<nat>)
    requires |dim| == |cbsize|
    ensures |b| == |dim|
  {
    seq(|dim|, i requires 0 <= i < |dim| => cbsize[i] * dim[i])
  }

  /** A vector and a codebook made for the same splits, none of them empty. */
  ghost predicate SplitFits(cb: seq<real>, dim: seq<nat>, cbsize: seq<nat>) {
    && |dim| == |cbsize| && SumTo(BookSizes(dim, cbsize), |dim|) <= |cb|
    && forall i :: 0 <= i < |dim| ==> 0 < dim[i] && 0 < cbsize[i]
  }

  lemma SplitInside(cb: seq<real>, dim: seq<nat>, cbsize: seq<nat>, i: nat)
    requires SplitFits(cb, dim, cbsize) && i < |dim|
    ensures SumTo(BookSizes(dim, cbsize), i) + cbsize[i] * dim[i] <= |cb|
    ensures SumTo(dim, i) + dim[i] <= SumTo(dim, |dim|)
  {
    hide SumTo;
    SumStep(BookSizes(dim, cbsize), i);
    SumStep(dim, i);
  }

  /** The codebook of split i. */
  function Book(cb: seq<real>, dim: seq<nat>, cbsize: seq<nat>, i: nat): (b: seq<real>)
    requires SplitFits(cb, dim, cbsize) && i < |dim|
    ensures |b| == cbsize[i] * dim[i]
  {
    SplitInside(cb, dim, cbsize, i);
    Sub(cb, SumTo(BookSizes(dim, cbsize), i), cbsize[i] * dim[i])
  }

  /** Part i of a vector. */
  function SplitPart(cb: seq<real>, dim: seq<nat>, cbsize: seq<nat>, x: seq<real>, i: nat): (p: seq<real>)
    requires SplitFits(cb, dim, cbsize) && |x| == SumTo(dim, |dim|) && i < |dim|
    ensures |p| == dim[i]
  {
    SplitInside(cb, dim, cbsize, i);
    Sub(x, SumTo(dim, i), dim[i])
  }

  ghost predicate IndicesFit(cbsize: seq<nat>, index: seq<nat>) {
    |index| == |cbsize| && forall i :: 0 <= i < |index| ==> index[i] < cbsize[i]
  }

  /** The code vectors of the splits. */
  function CodeVecs(cb: seq<real>, dim: seq<nat>, cbsize: seq<nat>, index: seq<nat>): (v: seq<seq<real>>)
    requires SplitFits(cb, dim, cbsize) && IndicesFit(cbsize, index)
    ensures |v| == |dim| && forall i {:trigger v[i]} :: 0 <= i < |dim| ==> |v[i]| == dim[i]
  {
    seq(|dim|, i requires 0 <= i < |dim| => CodeVec(Book(cb, dim, cbsize, i), cbsize[i], dim[i], index[i]))
  }

  /** The vector that a list of indices stands for. */
  function Dequantised(cb: seq<real>, dim: seq<nat>, cbsize: seq<nat>, index: seq<nat>): (x: seq<real>)
    requires SplitFits(cb, dim, cbsize) && IndicesFit(cbsize, index)
    ensures |x| == SumTo(dim, |dim|)
  {
    LengthOfConcat(CodeVecs(cb, dim, cbsize, index), dim, |dim|);
    Concat(CodeVecs(cb, dim, cbsize, index), |dim|)
  }

  /** Distances from part i of x to the codebook of split i. */
  function SplitDistances(cb: seq<real>, dim: seq<nat>, cbsize: seq<nat>, x: seq<real>, i: nat): (d: seq<real>)
    requires SplitFits(cb, dim, cbsize) && |x| == SumTo(dim, |dim|) && i < |dim|
    ensures |d| == cbsize[i]
  {
    Distances(SplitPart(cb, dim, cbsize, x, i), Book(cb, dim, cbsize, i), cbsize[i])
  }

  /** SplitVQ: every part of the vector is quantised with its own codebook. */
  method SplitVQ(x: seq<real>, cb: seq<real>, dim: seq<nat>, cbsize: seq<nat>) returns (qx: seq<real>, index: seq<nat>)
    requires SplitFits(cb, dim, cbsize) && |x| == SumTo(dim, |dim|)
    ensures IndicesFit(cbsize, index) && qx == Dequantised(cb, dim, cbsize, index)
    ensures forall i :: 0 <= i < |dim| ==>
              FirstMinimum(index[i], SplitDistances(cb, dim, cbsize, x, i), FLOAT_MAX)
  {
    hide Concat, CodeVec, Distances, FirstMinimum, Sub;
    var cbPos, xPos := 0, 0;
    qx, index := [], [];
    ghost var parts: seq<seq<real>> := [];
    ConcatNothing(parts);
    for i := 0 to |dim|
      invariant xPos == SumTo(dim, i) && cbPos == SumTo(BookSizes(dim, cbsize), i)
      invariant |index| == |parts| == i && qx == Concat(parts, i)
      invariant forall k {:trigger index[k]} :: 0 <= k < i ==>
                  && index[k] < cbsize[k]
                  && FirstMinimum(index[k], SplitDistances(cb, dim, cbsize, x, k), FLOAT_MAX)
      invariant forall k {:trigger parts[k]} :: 0 <= k < i ==>
                  index[k] < cbsize[k] && parts[k] == CodeVec(Book(cb, dim, cbsize, k), cbsize[k], dim[k], index[k])
    {
      SplitInside(cb, dim, cbsize, i);
      var xq, best := Vq(Sub(x, xPos, dim[i]), Sub(cb, cbPos, cbsize[i] * dim[i]), cbsize[i]);
      FirstMinimumInside(best, SplitDistances(cb, dim, cbsize, x, i));
      ConcatOneMore(parts, xq);
      qx, index, parts := qx + xq, index + [best], parts + [xq];
      xPos := xPos + dim[i];
      cbPos := cbPos + cbsize[i] * dim[i];
    }
    assert parts == CodeVecs(cb, dim, cbsize, index);
  }

  lemma ConcatNothing<T>(parts: seq<seq<T>>)
    ensures Concat(parts, 0) == []
  {
  }

  lemma FirstMinimumInside(i: nat, d: seq<real>)
    requires FirstMinimum(i, d, FLOAT_MAX)
    ensures i < |d|
  {
  }

  lemma {:induction false} ConcatPrefix<T>(parts: seq<seq<T>>, p: seq<T>, n: nat)
    requires n <= |parts|
    ensures Concat(parts + [p], n) == Concat(parts, n)
  {
    if n > 0 {
      ConcatPrefix(parts, p, n - 1);
    }
  }

  lemma ConcatOneMore<T>(parts: seq<seq<T>>, p: seq<T>)
    ensures Concat(parts + [p], |parts| + 1) == Concat(parts, |parts|) + p
  {
    ConcatPrefix(parts, p, |parts|);
  }

  // ---------- Optimality over the product codebook ----------

  /** Every part has a code vector below the bound that the searches start from. */
  ghost predicate WithinBound(cb: seq<real>, dim: seq<nat>, cbsize: seq<nat>, x: seq<real>)
    requires SplitFits(cb, dim, cbsize) && |x| == SumTo(dim, |dim|)
  {
    forall i :: 0 <= i < |dim| ==> SomeBelow(SplitDistances(cb, dim, cbsize, x, i), FLOAT_MAX)
  }

  ghost predicate SomeBelow(d: seq<real>, bound: real) {
    exists j :: 0 <= j < |d| && d[j] < bound
  }

  /** The distance to a quantised vector is the sum of the distances of the parts. */
  lemma {:induction false} DistanceBySplits(cb: seq<real>, dim: seq<nat>, cbsize: seq<nat>, x: seq<real>,
                                            index: seq<nat>, n: nat)
    requires SplitFits(cb, dim, cbsize) && |x| == SumTo(dim, |dim|) && IndicesFit(cbsize, index) && 0 < n <= |dim|
    ensures var v := CodeVecs(cb, dim, cbsize, index);
            && SumTo(dim, n) <= |x|
            && |Concat(v, n)| == SumTo(dim, n) && |Concat(v, n - 1)| == SumTo(dim, n - 1)
            && Distance(Sub(x, 0, SumTo(dim, n)), Concat(v, n))
               == Distance(Sub(x, 0, SumTo(dim, n - 1)), Concat(v, n - 1))
                  + SplitDistances(cb, dim, cbsize, x, n - 1)[index[n - 1]]
  {
    hide Book, CodeVec, DistanceTo, Sub;
    var v := CodeVecs(cb, dim, cbsize, index);
    SumMonotonic(dim, n, |dim|);
    LengthOfConcat(v, dim, n);
    LengthOfConcat(v, dim, n - 1);
    SubJoin(x, 0, SumTo(dim, n - 1), dim[n - 1]);
    var x1, x2 := Sub(x, 0, SumTo(dim, n - 1)), Sub(x, SumTo(dim, n - 1), dim[n - 1]);
    DistanceJoin(x1, Concat(v, n - 1), x2, v[n - 1], |x2|);
  }

  /** No other choice of indices comes nearer to the first n parts. */
  lemma {:induction false} SplitIsOptimalTo(cb: seq<real>, dim: seq<nat>, cbsize: seq<nat>, x: seq<real>,
                                            index: seq<nat>, other: seq<nat>, n: nat)
    requires SplitFits(cb, dim, cbsize) && |x| == SumTo(dim, |dim|) && WithinBound(cb, dim, cbsize, x)
    requires IndicesFit(cbsize, index) && IndicesFit(cbsize, other) && n <= |dim|
    requires forall i :: 0 <= i < |dim| ==>
               FirstMinimum(index[i], SplitDistances(cb, dim, cbsize, x, i), FLOAT_MAX)
    ensures var v, w := CodeVecs(cb, dim, cbsize, index), CodeVecs(cb, dim, cbsize, other);
            && SumTo(dim, n) <= |x| && |Concat(v, n)| == |Concat(w, n)| == SumTo(dim, n)
            && Distance(Sub(x, 0, SumTo(dim, n)), Concat(v, n)) <= Distance(Sub(x, 0, SumTo(dim, n)), Concat(w, n))
  {
    hide Book, CodeVec, CodeVecs, Concat, Distance, FirstMinimum, SplitDistances, Sub, SumTo;
    var v, w := CodeVecs(cb, dim, cbsize, index), CodeVecs(cb, dim, cbsize, other);
    LengthOfConcat(v, dim, n);
    LengthOfConcat(w, dim, n);
    SumMonotonic(dim, n, |dim|);
    if n == 0 {
      NoParts(v, w, dim, x);
    } else {
      SplitIsOptimalTo(cb, dim, cbsize, x, index, other, n - 1);
      DistanceBySplits(cb, dim, cbsize, x, index, n);
      DistanceBySplits(cb, dim, cbsize, x, other, n);
      MinimumBelow(index[n - 1], other[n - 1], SplitDistances(cb, dim, cbsize, x, n - 1));
    }
  }

  lemma NoParts(v: seq<seq<real>>, w: seq<seq<real>>, dim: seq<nat>, x: seq<real>)
    requires |v| == |w|
    ensures SumTo(dim, 0) == 0 && Concat(v, 0) == Concat(w, 0) == []
    ensures Distance(Sub(x, 0, 0), []) == 0.0
  {
  }

  lemma MinimumBelow(i: nat, j: nat, d: seq<real>)
    requires FirstMinimum(i, d, FLOAT_MAX) && j < |d| && SomeBelow(d, FLOAT_MAX)
    ensures d[i] <= d[j]
  {
    var k :| 0 <= k < |d| && d[k] < FLOAT_MAX;
  }

  /**
   The split search attains the minimum over the whole product codebook. (Part by part the
   search starts from FLOAT_MAX, so each part must have a code vector nearer than that.)
   */
  lemma SplitIsOptimal(cb: seq<real>, dim: seq<nat>, cbsize: seq<nat>, x: seq<real>, index: seq<nat>, other: seq<nat>)
    requires SplitFits(cb, dim, cbsize) && |x| == SumTo(dim, |dim|) && WithinBound(cb, dim, cbsize, x)
    requires IndicesFit(cbsize, index) && IndicesFit(cbsize, other)
    requires forall i :: 0 <= i < |dim| ==>
               FirstMinimum(index[i], SplitDistances(cb, dim, cbsize, x, i), FLOAT_MAX)
    ensures Distance(x, Dequantised(cb, dim, cbsize, index)) <= Distance(x, Dequantised(cb, dim, cbsize, other))
  {
    hide CodeVecs, Distance, FirstMinimum, SplitDistances, Sub, SumTo, WithinBound;
    SplitIsOptimalTo(cb, dim, cbsize, x, index, other, |dim|);
    SubAll(x);
  }

  // ---------- The line spectral frequencies ----------

  function DimLsfCb(): seq<nat> {
    [3, 3, 4]
  }

  function SizeLsfCb(): seq<nat> {
    [64, 128, 128]
  }

  /** A table of the size of lsfCbTbl. */
  ghost predicate IsLsfTable(cb: seq<real>) {
    |cb| == 64 * 3 + 128 * 3 + 128 * 4
  }

  lemma LsfTableFits(cb: seq<real>)
    requires IsLsfTable(cb)
    ensures SplitFits(cb, DimLsfCb(), SizeLsfCb())
    ensures SumTo(DimLsfCb(), 3) == LPC_FILTERORDER
  {
    var b := BookSizes(DimLsfCb(), SizeLsfCb());
    assert b == [192, 384, 512];
    assert SumTo(b, 1) == 192;
    assert SumTo(b, 2) == 576;
    assert SumTo(DimLsfCb(), 1) == 3;
    assert SumTo(DimLsfCb(), 2) == 6;
  }

  /** The two coefficient vectors that six indices stand for. */
  function LsfOf(cb: seq<real>, index: seq<nat>): (lsf: seq<real>)
    requires SplitFits(cb, DimLsfCb(), SizeLsfCb()) && SumTo(DimLsfCb(), 3) == LPC_FILTERORDER
    requires |index| == 6 && IndicesFit(SizeLsfCb(), index[..3]) && IndicesFit(SizeLsfCb(), index[3..])
    ensures |lsf| == 2 * LPC_FILTERORDER
  {
    Dequantised(cb, DimLsfCb(), SizeLsfCb(), index[..3]) + Dequantised(cb, DimLsfCb(), SizeLsfCb(), index[3..])
  }

  /** SimplelsfQ: both vectors with the same split codebook. */
  method SimplelsfQ(lsf: seq<real>, cb: seq<real>) returns (lsfdeq: seq<real>, index: seq<nat>)
    requires IsLsfTable(cb) && |lsf| == 2 * LPC_FILTERORDER
    ensures SplitFits(cb, DimLsfCb(), SizeLsfCb()) && SumTo(DimLsfCb(), 3) == LPC_FILTERORDER
    ensures |index| == 6 && IndicesFit(SizeLsfCb(), index[..3]) && IndicesFit(SizeLsfCb(), index[3..])
    ensures lsfdeq == LsfOf(cb, index)
    ensures forall i :: 0 <= i < 3 ==>
      && FirstMinimum(index[i], SplitDistances(cb, DimLsfCb(), SizeLsfCb(), lsf[..10], i), FLOAT_MAX)
      && FirstMinimum(index[3 + i], SplitDistances(cb, DimLsfCb(), SizeLsfCb(), lsf[10..], i), FLOAT_MAX)
  {
    hide Dequantised, FirstMinimum, SplitDistances, SplitFits, SumTo;
    LsfTableFits(cb);
    var q1, i1 := SplitVQ(lsf[..10], cb, DimLsfCb(), SizeLsfCb());
    var q2, i2 := SplitVQ(lsf[10..], cb, DimLsfCb(), SizeLsfCb());
    lsfdeq, index := q1 + q2, i1 + i2;
    assert index[..3] == i1 && index[3..] == i2;
  }

  /** One half of SimplelsfDEQ: the table lookups of three indices. */
  method Dequantise(lsfdeq: array<real>, at: nat, cb: seq<real>, dim: seq<nat>, cbsize: seq<nat>, index: seq<nat>)
    requires SplitFits(cb, dim, cbsize) && IndicesFit(cbsize, index) && at + SumTo(dim, |dim|) <= lsfdeq.Length
    modifies lsfdeq
    ensures Overwritten(lsfdeq[..], old(lsfdeq[..]), at, Dequantised(cb, dim, cbsize, index))
  {
    hide Book, CodeVec, CodeVecs, SumTo;
    var pos, cbPos := 0, 0;
    ghost var v := CodeVecs(cb, dim, cbsize, index);
    DequantiseStart(dim, cbsize, v);
    for i := 0 to |dim|
      invariant pos == SumTo(dim, i) && cbPos == SumTo(BookSizes(dim, cbsize), i)
      invariant pos <= SumTo(dim, |dim|) && |Concat(v, i)| == pos
      invariant Overwritten(lsfdeq[..], old(lsfdeq[..]), at, Concat(v, i))
    {
      SumStep(dim, i);
      CodeVecAt(cb, dim, cbsize, index, i);
      ghost var before := lsfdeq[..];
      for j := 0 to dim[i]
        invariant Overwritten(lsfdeq[..], before, at + pos, v[i][..j])
      {
        lsfdeq[at + pos + j] := cb[cbPos + index[i] * dim[i] + j];
      }
      assert v[i][..dim[i]] == v[i];
      OverwrittenTwice(lsfdeq[..], before, old(lsfdeq[..]), at, Concat(v, i), v[i]);
      ConcatStep(v, i);
      SumStep(BookSizes(dim, cbsize), i);
      pos := pos + dim[i];
      cbPos := cbPos + cbsize[i] * dim[i];
    }
  }

  lemma DequantiseStart(dim: seq<nat>, cbsize: seq<nat>, v: seq<seq<real>>)
    requires |dim| == |cbsize|
    ensures SumTo(dim, 0) == SumTo(BookSizes(dim, cbsize), 0) == 0 <= SumTo(dim, |dim|)
    ensures Concat(v, 0) == []
  {
  }

  lemma ConcatStep<T>(v: seq<seq<T>>, i: nat)
    requires i < |v|
    ensures Concat(v, i + 1) == Concat(v, i) + v[i]
  {
  }

  /** Where component j of the code vector of split i lies in the flat table. */
  lemma CodeVecAt(cb: seq<real>, dim: seq<nat>, cbsize: seq<nat>, index: seq<nat>, i: nat)
    requires SplitFits(cb, dim, cbsize) && IndicesFit(cbsize, index) && i < |dim|
    ensures var at := SumTo(BookSizes(dim, cbsize), i) + index[i] * dim[i];
            && 0 <= at && at + dim[i] <= |cb|
            && CodeVecs(cb, dim, cbsize, index)[i] == cb[at..at + dim[i]]
  {
    hide SumTo;
    SplitInside(cb, dim, cbsize, i);
    VectorInside(index[i], cbsize[i], dim[i]);
  }

  /** SimplelsfDEQ: rebuilds exactly the vectors the encoder quantised to. */
  method SimplelsfDEQ(cb: seq<real>, index: seq<nat>) returns (lsfdeq: array<real>)
    requires IsLsfTable(cb)
    requires |index| == 6 && IndicesFit(SizeLsfCb(), index[..3]) && IndicesFit(SizeLsfCb(), index[3..])
    ensures SplitFits(cb, DimLsfCb(), SizeLsfCb()) && SumTo(DimLsfCb(), 3) == LPC_FILTERORDER
    ensures fresh(lsfdeq) && lsfdeq[..] == LsfOf(cb, index)
  {
    hide Dequantised, SplitFits, SumTo;
    LsfTableFits(cb);
    lsfdeq := new real[2 * LPC_FILTERORDER];
    Dequantise(lsfdeq, 0, cb, DimLsfCb(), SizeLsfCb(), index[..3]);
    Dequantise(lsfdeq, LPC_FILTERORDER, cb, DimLsfCb(), SizeLsfCb(), index[3..]);
  }

  // ---------- Scalar quantisation ----------

  ghost predicate Increasing(cb: seq<real>) {
    forall i, j :: 0 <= i < j < |cb| ==> cb[i] < cb[j]
  }

  lemma {:induction false} StepsIncrease(cb: seq<real>)
    requires forall i :: 0 < i < |cb| ==> cb[i - 1] < cb[i]
    ensures Increasing(cb)
  {
    if cb != [] {
      var n := |cb| - 1;
      StepsIncrease(cb[..n]);
      forall i | 0 <= i < n
        ensures cb[i] < cb[n]
      {
        assert cb[n - 1] < cb[n] && cb[..n][i] == cb[i] && cb[..n][n - 1] == cb[n - 1];
      }
      forall i, j | 0 <= i < j < |cb|
        ensures cb[i] < cb[j]
      {
        if j < n {
          assert cb[..n][i] < cb[..n][j];
        }
      }
    }
  }

  /** The nearest level of a table, the first of several equally near. */
  ghost predicate NearestLevel(cb: seq<real>, x: real, index: nat) {
    && index < |cb|
    && (forall j :: 0 <= j < |cb| ==> Abs(x - cb[index]) <= Abs(x - cb[j]))
    && (forall j :: 0 <= j < index ==> Abs(x - cb[index]) < Abs(x - cb[j]))
  }

  /** sort_sq: the nearest level of an increasing table; halfway between two, the lower one. */
  method SortSq(x: real, cb: seq<real>) returns (xq: real, index: nat)
    requires |cb| >= 2 && Increasing(cb)
    ensures NearestLevel(cb, x, index) && xq == cb[index]
  {
    if x <= cb[0] {
      index, xq := 0, cb[0];
    } else {
      var i := 0;
      while x > cb[i] && i < |cb| - 1
        invariant i < |cb| && (i > 0 ==> cb[i - 1] < x)
        invariant forall j :: 0 <= j < i ==> cb[j] < x
        decreases |cb| - i
      {
        i := i + 1;
      }
      if x > (cb[i] + cb[i - 1]) / 2.0 {
        index, xq := i, cb[i];
      } else {
        index, xq := i - 1, cb[i - 1];
      }
    }
  }

  // ---------- Gains ----------

  function GainSq3(): (t: seq<real>)
    ensures |t| == 8
  {
    [-1.000000, -0.659973, -0.330017, 0.000000, 0.250000, 0.500000, 0.750000, 1.00000]
  }

  function GainSq4(): (t: seq<real>)
    ensures |t| == 16
  {
    [-1.049988, -0.900024, -0.750000, -0.599976, -0.450012, -0.299988, -0.150024, 0.000000,
     0.150024, 0.299988, 0.450012, 0.599976, 0.750000, 0.900024, 1.049988, 1.200012]
  }

  function GainSq5(): (t: seq<real>)
    ensures |t| == 32
  {
    [0.037476, 0.075012, 0.112488, 0.150024, 0.187500, 0.224976, 0.262512, 0.299988,
     0.337524, 0.375000, 0.412476, 0.450012, 0.487488, 0.525024, 0.562500, 0.599976,
     0.637512, 0.674988, 0.712524, 0.750000, 0.787476, 0.825012, 0.862488, 0.900024,
     0.937500, 0.974976, 1.012512, 1.049988, 1.087524, 1.125000, 1.162476, 1.200012]
  }

  /** The table of a number of levels, as gainquant selects it. */
  function GainTable(cblen: nat): (t: seq<real>)
    requires cblen in {8, 16, 32}
    ensures |t| == cblen
  {
    if cblen == 8 then GainSq3() else if cblen == 16 then GainSq4() else GainSq5()
  }

  /** x is near y, as near as the tables are rounded. */
  predicate Near(x: real, y: real) {
    Abs(x - y) <= 0.0001
  }

  /**
   The levels are evenly spaced: 32 of them from 0.0375 on, 16 from -1.05 to 1.2 with 0 among
   them, 8 in thirds below 0 and in quarters above, where they end at -1 and 1.
   */
  lemma GainLevelsAreEven(i: nat)
    ensures Near(GainSq5()[0], 0.0375) && (i < 31 ==> Near(GainSq5()[i + 1] - GainSq5()[i], 0.0375))
    ensures GainSq4()[7] == 0.0 && (i < 15 ==> Near(GainSq4()[i + 1] - GainSq4()[i], 0.15))
    ensures GainSq3()[0] == -1.0 && GainSq3()[3] == 0.0 && GainSq3()[7] == 1.0
    ensures 3 <= i < 7 ==> GainSq3()[i + 1] - GainSq3()[i] == 0.25
    ensures i < 3 ==> Abs(GainSq3()[i + 1] - GainSq3()[i] - 1.0 / 3.0) < 0.01
  {
  }

  /** The number of levels of the gain of a stage. */
  function GainLevels(stage: nat): (n: nat)
    ensures n in {8, 16, 32}
  {
    if stage == 0 then 32 else if stage == 1 then 16 else 8
  }

  /** The scale both sides derive from the previous gain. */
  function GainScale(maxIn: real): real {
    if Abs(maxIn) < 0.1 then 0.1 else Abs(maxIn)
  }

  /** gaindequant: the gain of an index. */
  function GainDequant(index: nat, maxIn: real, cblen: nat): real
    requires cblen in {8, 16, 32} && index < cblen
  {
    Times(GainScale(maxIn), GainTable(cblen)[index])
  }

  /** The squared errors of all the levels. */
  function GainErrors(input: real, maxIn: real, cblen: nat): (d: seq<real>)
    requires cblen in {8, 16, 32}
    ensures |d| == cblen
  {
    seq(cblen, i requires 0 <= i < cblen => Square(input - GainDequant(i, maxIn, cblen)))
  }

  /** The bound the gain search starts from. */
  const GAIN_BOUND: real := 10000000.0

  /**
   gainquant: the level nearest to the input, or level 0 if none comes within the bound; the
   value returned is the one gaindequant makes of the index.
   */
  method GainQuant(input: real, maxIn: real, cblen: nat) returns (value: real, index: nat)
    requires cblen in {8, 16, 32} && maxIn >= 0.0
    ensures index < cblen && FirstMinimum(index, GainErrors(input, maxIn, cblen), GAIN_BOUND)
    ensures value == GainDequant(index, maxIn, cblen)
  {
    hide GainSq3, GainSq4, GainSq5, Square;
    var scale := maxIn;
    if scale < 0.1 {
      scale := 0.1;
    }
    var cb := GainTable(cblen);
    var minmeasure := GAIN_BOUND;
    index := 0;
    ghost var d := GainErrors(input, maxIn, cblen);
    for i := 0 to cblen
      invariant index < cblen && (index < i || (index == 0 && minmeasure == GAIN_BOUND))
      invariant minmeasure <= GAIN_BOUND && minmeasure == if i > 0 && d[index] < GAIN_BOUND then d[index] else GAIN_BOUND
      invariant forall k {:trigger d[k]} :: 0 <= k < i ==> minmeasure <= d[k]
      invariant forall k {:trigger d[k]} :: 0 <= k < index ==> minmeasure < d[k]
      invariant minmeasure == GAIN_BOUND ==> index == 0
    {
      var measure := Square(input - Times(scale, cb[i]));
      assert measure == d[i];
      if measure < minmeasure {
        index, minmeasure := i, measure;
      }
    }
    value := Times(scale, cb[index]);
  }
}
