/** The parameters of a 30 ms frame, their widths on the wire, and the 50 bytes they fill. */
module FrameLayout {
  import opened Constants
  import opened FrameBits
  import opened Packing
  import opened Sequences
  import Quantisers

  /** The parameters in the order of the bit stream. */
  datatype Frame = Frame(
    lsf: seq<nat>, start: nat, stateFirst: nat, idxForMax: nat, idxVec: seq<nat>,
    extraCbIndex: seq<nat>, extraGainIndex: seq<nat>, cbIndex: seq<nat>, gainIndex: seq<nat>)

  // ---------- The class-width tables ----------

  function LsfRows(): (r: seq<Row>)
    ensures |r| == 6
  {
    [Row(6, 0, 0), Row(7, 0, 0), Row(7, 0, 0), Row(6, 0, 0), Row(7, 0, 0), Row(7, 0, 0)]
  }

  /** The start position, the position of the adaptive part, and the scale. */
  function StartRows(): (r: seq<Row>)
    ensures |r| == 3
  {
    [Row(3, 0, 0), Row(1, 0, 0), Row(6, 0, 0)]
  }

  function StateRows(): (r: seq<Row>)
    ensures |r| == STATE_SHORT_LEN
  {
    seq(STATE_SHORT_LEN, _ => Row(0, 1, 2))
  }

  function ExtraCbIndexRows(): (r: seq<Row>)
    ensures |r| == 3
  {
    [Row(4, 2, 1), Row(0, 0, 7), Row(0, 0, 7)]
  }

  function ExtraCbGainRows(): (r: seq<Row>)
    ensures |r| == 3
  {
    [Row(1, 1, 3), Row(1, 1, 2), Row(0, 0, 3)]
  }

  function CbIndexRows(): (r: seq<Row>)
    ensures |r| == 12
  {
    [Row(6, 1, 1), Row(0, 0, 7), Row(0, 0, 7)] +
    [Row(0, 7, 1), Row(0, 0, 8), Row(0, 0, 8)] +
    [Row(0, 7, 1), Row(0, 0, 8), Row(0, 0, 8)] +
    [Row(0, 7, 1), Row(0, 0, 8), Row(0, 0, 8)]
  }

  function CbGainRows(): (r: seq<Row>)
    ensures |r| == 12
  {
    [Row(1, 2, 2), Row(1, 2, 1), Row(0, 0, 3)] +
    [Row(0, 2, 3), Row(0, 2, 2), Row(0, 0, 3)] +
    [Row(0, 1, 4), Row(0, 1, 3), Row(0, 0, 3)] +
    [Row(0, 1, 4), Row(0, 1, 3), Row(0, 0, 3)]
  }

  function Rows(): (r: seq<Row>)
    ensures |r| == 97
  {
    LsfRows() + StartRows() + StateRows() + ExtraCbIndexRows() + ExtraCbGainRows() + CbIndexRows() + CbGainRows()
  }

  // ---------- 399 bits ----------

  /** The width of class u. */
  function ClassSize(rows: seq<Row>, u: nat): nat {
    if rows == [] then 0 else ClassSize(rows[..|rows| - 1], u) + rows[|rows| - 1].Width(u)
  }

  lemma {:induction false} ClassSizeJoin(a: seq<Row>, b: seq<Row>, u: nat)
    ensures ClassSize(a + b, u) == ClassSize(a, u) + ClassSize(b, u)
  {
    if b == [] {
      assert a + b == a;
    } else {
      assert (a + b)[..|a + b| - 1] == a + b[..|b| - 1];
      ClassSizeJoin(a, b[..|b| - 1], u);
    }
  }

  lemma {:induction false} ClassSizeSame(rows: seq<Row>, row: Row, u: nat)
    requires forall f :: 0 <= f < |rows| ==> rows[f] == row
    ensures ClassSize(rows, u) == |rows| * row.Width(u)
  {
    if rows != [] {
      ClassSizeSame(rows[..|rows| - 1], row, u);
      assert |rows| * row.Width(u) == (|rows| - 1) * row.Width(u) + row.Width(u);
    }
  }

  lemma ClassSizeThree(rows: seq<Row>, u: nat)
    requires |rows| == 3
    ensures ClassSize(rows, u) == rows[0].Width(u) + rows[1].Width(u) + rows[2].Width(u)
  {
    assert rows[..2][..1] == rows[..1];
    assert rows[..1][..0] == [];
    assert ClassSize(rows[..1], u) == rows[0].Width(u);
    assert ClassSize(rows[..2], u) == ClassSize(rows[..1], u) + rows[1].Width(u);
  }

  lemma ClassSizeThrees(a: seq<Row>, b: seq<Row>, c: seq<Row>, d: seq<Row>, u: nat)
    ensures ClassSize(a + b + c + d, u) == ClassSize(a, u) + ClassSize(b, u) + ClassSize(c, u) + ClassSize(d, u)
  {
    ClassSizeJoin(a + b + c, d, u);
    ClassSizeJoin(a + b, c, u);
    ClassSizeJoin(a, b, u);
  }

  lemma SmallTableSizes(u: nat)
    requires u < 3
    ensures ClassSize(LsfRows(), u) == if u == 0 then 40 else 0
    ensures ClassSize(StartRows(), u) == if u == 0 then 10 else 0
    ensures ClassSize(StateRows(), u) == if u == 0 then 0 else if u == 1 then 58 else 116
    ensures ClassSize(ExtraCbIndexRows(), u) == if u == 0 then 4 else if u == 1 then 2 else 15
    ensures ClassSize(ExtraCbGainRows(), u) == if u == 0 then 2 else if u == 1 then 2 else 8
  {
    hide ClassSize;
    ClassSizeJoin(LsfRows()[..3], LsfRows()[3..], u);
    ClassSizeThree(LsfRows()[..3], u);
    ClassSizeThree(LsfRows()[3..], u);
    assert LsfRows() == LsfRows()[..3] + LsfRows()[3..];
    ClassSizeThree(StartRows(), u);
    ClassSizeSame(StateRows(), Row(0, 1, 2), u);
    ClassSizeThree(ExtraCbIndexRows(), u);
    ClassSizeThree(ExtraCbGainRows(), u);
  }

  lemma CbTableSizes(u: nat)
    requires u < 3
    ensures ClassSize(CbIndexRows(), u) == if u == 0 then 6 else if u == 1 then 22 else 66
    ensures ClassSize(CbGainRows(), u) == if u == 0 then 2 else if u == 1 then 12 else 34
  {
    hide ClassSize;
    var p, q := [Row(6, 1, 1), Row(0, 0, 7), Row(0, 0, 7)], [Row(0, 7, 1), Row(0, 0, 8), Row(0, 0, 8)];
    ClassSizeThrees(p, q, q, q, u);
    ClassSizeThree(p, u);
    ClassSizeThree(q, u);
    var a, b, c := [Row(1, 2, 2), Row(1, 2, 1), Row(0, 0, 3)], [Row(0, 2, 3), Row(0, 2, 2), Row(0, 0, 3)],
                   [Row(0, 1, 4), Row(0, 1, 3), Row(0, 0, 3)];
    ClassSizeThrees(a, b, c, c, u);
    ClassSizeThree(a, u);
    ClassSizeThree(b, u);
    ClassSizeThree(c, u);
  }

  lemma SizeOfClass(u: nat)
    requires u < 3
    ensures ClassSize(Rows(), u) == if u == 0 then 64 else if u == 1 then 96 else 239
  {
    hide ClassSize, LsfRows, StartRows, StateRows, ExtraCbIndexRows, ExtraCbGainRows, CbIndexRows, CbGainRows;
    var a := LsfRows() + StartRows() + StateRows() + ExtraCbIndexRows();
    ClassSizeThrees(LsfRows(), StartRows(), StateRows(), ExtraCbIndexRows(), u);
    ClassSizeThrees(a, ExtraCbGainRows(), CbIndexRows(), CbGainRows(), u);
    SmallTableSizes(u);
    CbTableSizes(u);
  }

  lemma {:induction false} ClassSizeIsSum(rows: seq<Row>, u: nat, n: nat)
    requires u < 3 && n <= |rows|
    ensures SumTo(ClassWidths(rows, u), n) == ClassSize(rows[..n], u)
  {
    if n > 0 {
      ClassSizeIsSum(rows, u, n - 1);
      assert rows[..n][..n - 1] == rows[..n - 1];
    }
  }

  lemma {:induction false} SumJoin(a: seq<nat>, b: seq<nat>, n: nat)
    requires n <= |b|
    ensures SumTo(a + b, |a| + n) == SumTo(a, |a|) + SumTo(b, n)
  {
    if n == 0 {
      SumPrefix(a, b, |a|);
    } else {
      SumJoin(a, b, n - 1);
    }
  }

  lemma {:induction false} SumPrefix(a: seq<nat>, b: seq<nat>, n: nat)
    requires n <= |a|
    ensures SumTo(a + b, n) == SumTo(a, n)
  {
    if n > 0 {
      SumPrefix(a, b, n - 1);
    }
  }

  /** The parameters take 399 bits, so with one more bit they fill 50 bytes exactly. */
  lemma FrameSize()
    ensures Size(Rows()) == 399
    ensures Size(Rows()) + 1 == 8 * NO_OF_BYTES
  {
    hide ClassSize, ClassWidths, Rows, SumTo;
    var rows := Rows();
    var a, b, c := ClassWidths(rows, 0), ClassWidths(rows, 1), ClassWidths(rows, 2);
    SumJoin(a, b, |b|);
    SumJoin(a + b, c, |c|);
    assert rows[..|rows|] == rows;
    ClassSizeIsSum(rows, 0, |rows|);
    ClassSizeIsSum(rows, 1, |rows|);
    ClassSizeIsSum(rows, 2, |rows|);
    SizeOfClass(0);
    SizeOfClass(1);
    SizeOfClass(2);
  }

  // ---------- Frames as runs of parameters ----------

  /** Every array has its length in the source. */
  predicate Shaped(f: Frame) {
    && |f.lsf| == 6 && |f.idxVec| == STATE_SHORT_LEN
    && |f.extraCbIndex| == |f.extraGainIndex| == CB_NSTAGES
    && |f.cbIndex| == |f.gainIndex| == NASUB * CB_NSTAGES
  }

  function Flat(f: Frame): (v: seq<nat>)
    requires Shaped(f)
    ensures |v| == 97
  {
    f.lsf + [f.start, f.stateFirst, f.idxForMax] + f.idxVec
    + f.extraCbIndex + f.extraGainIndex + f.cbIndex + f.gainIndex
  }

  function Unflat(v: seq<nat>): (f: Frame)
    requires |v| == 97
    ensures Shaped(f)
  {
    Frame(v[..6], v[6], v[7], v[8], v[9..67], v[67..70], v[70..73], v[73..85], v[85..])
  }

  lemma UnflatFlat(f: Frame)
    requires Shaped(f)
    ensures Unflat(Flat(f)) == f
  {
    var v := Flat(f);
    assert v[..6] == f.lsf && v[9..67] == f.idxVec && v[67..70] == f.extraCbIndex;
    assert v[70..73] == f.extraGainIndex && v[73..85] == f.cbIndex && v[85..] == f.gainIndex;
  }

  lemma FlatUnflat(v: seq<nat>)
    requires |v| == 97
    ensures Flat(Unflat(v)) == v
  {
  }

  /** Every parameter fits its width. */
  ghost predicate InRange(f: Frame) {
    Shaped(f) && Fits(Flat(f), Rows())
  }

  /** The widths of single parameters: those of the plain bit allocation. */
  lemma RangeOf(f: Frame)
    requires Shaped(f)
    requires forall k :: 0 <= k < 6 ==> f.lsf[k] < if k % 3 == 0 then 64 else 128
    requires f.start < 8 && f.stateFirst < 2 && f.idxForMax < 64
    requires forall k :: 0 <= k < STATE_SHORT_LEN ==> f.idxVec[k] < 8
    requires forall k :: 0 <= k < 3 ==> f.extraCbIndex[k] < 128
    requires forall k :: 0 <= k < 3 ==> f.extraGainIndex[k] < Quantisers.GainLevels(k)
    requires forall k :: 0 <= k < 12 ==> f.cbIndex[k] < if 1 <= k < 3 then 128 else 256
    requires forall k :: 0 <= k < 12 ==> f.gainIndex[k] < Quantisers.GainLevels(k % 3)
    ensures InRange(f)
  {
    hide Pow2, Rows;
    Powers();
    var v := Flat(f);
    forall i | 0 <= i < 97
      ensures v[i] < Pow2(Total(Rows()[i]))
    {
      TotalWidth(i);
    }
  }

  /** The total width of the parameter at position i of the stream. */
  function WidthAt(i: nat): nat {
    if i < 6 then (if i % 3 == 0 then 6 else 7)
    else if i == 6 then 3 else if i == 7 then 1 else if i == 8 then 6
    else if i < 67 then 3
    else if i < 70 then 7
    else if i < 73 then 72 - i + 3
    else if i < 85 then (if 74 <= i < 76 then 7 else 8)
    else 5 - (i - 85) % 3
  }

  lemma TotalWidth(i: nat)
    requires i < 97
    ensures Total(Rows()[i]) == WidthAt(i)
  {
    if i < 9 {
    } else if i < 67 {
      assert Rows()[i] == StateRows()[i - 9];
    } else if i < 70 {
      assert Rows()[i] == ExtraCbIndexRows()[i - 67];
    } else if i < 73 {
      assert Rows()[i] == ExtraCbGainRows()[i - 70];
    } else if i < 85 {
      assert Rows()[i] == CbIndexRows()[i - 73];
    } else {
      assert Rows()[i] == CbGainRows()[i - 85];
    }
  }

  lemma Powers()
    ensures Pow2(1) == 2 && Pow2(3) == 8 && Pow2(4) == 16 && Pow2(5) == 32
    ensures Pow2(6) == 64 && Pow2(7) == 128 && Pow2(8) == 256
  {
    assert Pow2(3) == 8;
    assert Pow2(6) == 64;
  }

  // ---------- Frames as bytes ----------

  /** The packet of a frame: 50 bytes holding its bits and one zero bit. */
  ghost predicate PacketOf(bytes: seq<byte>, f: Frame)
    requires Shaped(f)
  {
    |bytes| == NO_OF_BYTES && Stream(bytes) == Written(Flat(f), Rows()) + [false]
  }

  /** The frame in a packet. */
  function FrameOf(bytes: seq<byte>): (f: Frame)
    requires |bytes| == NO_OF_BYTES
    ensures Shaped(f)
  {
    FrameSize();
    Unflat(Read(Stream(bytes), Rows()))
  }

  /** The packet of a frame gives the frame back. */
  lemma PacketRoundTrip(bytes: seq<byte>, f: Frame)
    requires InRange(f) && PacketOf(bytes, f)
    ensures FrameOf(bytes) == f
  {
    hide Flat, Read, Rows, Stream, Unflat, Written;
    FrameSize();
    ReadWritten(Flat(f), Rows(), [false]);
    UnflatFlat(f);
  }

  /** Any 50 bytes whose last bit is zero are the packet of the frame in them, and of no other. */
  lemma EveryPacketIsAFrame(bytes: seq<byte>)
    requires |bytes| == NO_OF_BYTES && !Stream(bytes)[399]
    ensures InRange(FrameOf(bytes)) && PacketOf(bytes, FrameOf(bytes))
  {
    hide Flat, Read, Rows, Unflat, Written;
    FrameSize();
    WrittenRead(Stream(bytes), Rows());
    FlatUnflat(Read(Stream(bytes), Rows()));
    assert Stream(bytes) == Sub(Stream(bytes), 0, 399) + [false];
  }

  /** Where class u begins. */
  function ClassStart(u: nat): nat {
    if u == 0 then 0 else if u == 1 then 64 else 160
  }

  lemma ClassBegins(u: nat, p: nat)
    requires u < 3 && p < 97
    ensures SumTo(Widths(Rows()), 97 * u + p) == ClassStart(u) + SumTo(ClassWidths(Rows(), u), p)
  {
    hide ClassSize, ClassWidths, Rows, SumTo;
    var rows := Rows();
    var a, b, c := ClassWidths(rows, 0), ClassWidths(rows, 1), ClassWidths(rows, 2);
    assert rows[..97] == rows;
    ClassSizeIsSum(rows, 0, 97);
    ClassSizeIsSum(rows, 1, 97);
    SizeOfClass(0);
    SizeOfClass(1);
    SumJoin(a, b, 97);
    if u == 0 {
      SumPrefix(a + b, c, p);
      SumPrefix(a, b, p);
    } else if u == 1 {
      SumPrefix(a + b, c, 97 + p);
      SumJoin(a, b, p);
    } else {
      SumJoin(a + b, c, p);
    }
  }

  /**
   The packet starts with the 64 bits of the most important class, then come the 96 of the second
   and the 239 of the third. Each holds its share of every parameter, in the order of the
   parameters: the first bits of a value are in the first class that has any.
   */
  lemma ShareIsAt(bytes: seq<byte>, f: Frame, u: nat, p: nat)
    requires InRange(f) && PacketOf(bytes, f) && u < 3 && p < 97
    ensures var row, at := Rows()[p], ClassStart(u) + SumTo(ClassWidths(Rows(), u), p);
            && at + row.Width(u) <= 399
            && Sub(Stream(bytes), at, row.Width(u)) == Sub(Bits(Flat(f)[p], Total(row)), Before(row, u), row.Width(u))
  {
    hide Flat, Parts, Rows, Stream, Sub, SumTo, Concat, Widths, ClassWidths, Bits, Pow2;
    var vals, rows, i := Flat(f), Rows(), 97 * u + p;
    PartsLengths(vals, rows);
    PartOfConcat(Parts(vals, rows), Widths(rows), i, 291);
    ReadWritten(vals, rows, []);
    FrameSize();
    PieceOf(vals, rows, u, p);
    ClassBegins(u, p);
    SubLeft(Written(vals, rows), [false], SumTo(Widths(rows), i), rows[p].Width(u));
  }

  /** The packing part of iLBC_encode. The source works on the parameter arrays themselves; so does this copy of them. */
  method Pack(f: Frame) returns (bytes: array<byte>)
    requires InRange(f)
    ensures fresh(bytes) && bytes.Length == NO_OF_BYTES && PacketOf(bytes[..], f)
  {
    hide Flat, Rows, Written, Pow2, Bits, Fits;
    FrameSize();
    var vals := new nat[97](i requires 0 <= i < 97 => Flat(f)[i]);
    assert vals[..] == Flat(f);
    bytes := new byte[NO_OF_BYTES];
    var w := new BitWriter(bytes);
    PackFrame(vals, Rows(), w);
    ReadWritten(Flat(f), Rows(), []);
    assert w.at * 8 + w.pos == 399;
    ZeroFits();
    w.DoPack(0, 1);
    FullStream(bytes[..], w.at, w.pos);
  }

  lemma ZeroFits()
    ensures 0 < Pow2(1) && Bits(0, 1) == [false]
  {
    assert Bits(0, 0) == [];
  }

  /** A stream written up to its last bit. */
  lemma FullStream(bytes: seq<byte>, at: nat, pos: nat)
    requires at < |bytes| && pos <= 8 && 8 * at + pos == 8 * |bytes|
    ensures Stream(bytes) == Stream(bytes[..at]) + Sub(Bits(bytes[at], 8), 0, pos)
  {
    hide Bits;
    SubAll(Bits(bytes[at], 8));
  }

  /** The unpacking part of iLBC_decode. */
  method Unpack(bytes: seq<byte>) returns (f: Frame)
    requires |bytes| == NO_OF_BYTES
    ensures f == FrameOf(bytes)
  {
    hide Read, Rows, Stream;
    FrameSize();
    var r := new BitReader(bytes);
    var vals := UnpackFrame(r, Rows());
    f := Unflat(vals[..]);
  }
}
