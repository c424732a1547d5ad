/**
 The frame layout: every parameter is cut into three importance classes, and the classes are
 sent one after the other, each holding its share of every parameter.
 */
module FrameBits {
  import opened Packing
  import opened Sequences

  /** One row of a class-width table: three widths, then two zero columns that the routines also read. */
  datatype Row = Row(w0: nat, w1: nat, w2: nat) {
    function Width(u: nat): nat {
      if u == 0 then w0 else if u == 1 then w1 else if u == 2 then w2 else 0
    }
  }

  /** The bits of the classes before class u. */
  function Before(row: Row, u: nat): nat {
    if u == 0 then 0 else if u == 1 then row.w0 else if u == 2 then row.w0 + row.w1 else row.w0 + row.w1 + row.w2
  }

  function Total(row: Row): nat {
    Before(row, 3)
  }

  ghost predicate Fits(vals: seq<nat>, rows: seq<Row>) {
    |vals| == |rows| && forall f :: 0 <= f < |rows| ==> vals[f] < Pow2(Total(rows[f]))
  }

  // ---------- The stream of a frame ----------

  /** The share of class u in a value. */
  function Part(v: nat, row: Row, u: nat): (b: seq<bool>)
    requires u < 3
    ensures |b| == row.Width(u)
  {
    Sub(Bits(v, Total(row)), Before(row, u), row.Width(u))
  }

  /** Class u of all the parameters. */
  function ClassParts(vals: seq<nat>, rows: seq<Row>, u: nat): (parts: seq<seq<bool>>)
    requires |vals| == |rows| && u < 3
    ensures |parts| == |rows|
  {
    seq(|rows|, f requires 0 <= f < |rows| => Part(vals[f], rows[f], u))
  }

  function ClassWidths(rows: seq<Row>, u: nat): (w: seq<nat>)
    requires u < 3
    ensures |w| == |rows|
  {
    seq(|rows|, f requires 0 <= f < |rows| => rows[f].Width(u))
  }

  /** The pieces of a frame in the order sent: share u of parameter f is piece u * |rows| + f. */
  function Parts(vals: seq<nat>, rows: seq<Row>): (parts: seq<seq<bool>>)
    requires |vals| == |rows|
    ensures |parts| == 3 * |rows|
  {
    ClassParts(vals, rows, 0) + ClassParts(vals, rows, 1) + ClassParts(vals, rows, 2)
  }

  function Widths(rows: seq<Row>): (w: seq<nat>)
    ensures |w| == 3 * |rows|
  {
    ClassWidths(rows, 0) + ClassWidths(rows, 1) + ClassWidths(rows, 2)
  }

  /** The number of bits of a frame. */
  function Size(rows: seq<Row>): nat {
    SumTo(Widths(rows), 3 * |rows|)
  }

  /** The bits of a frame. */
  function Written(vals: seq<nat>, rows: seq<Row>): (s: seq<bool>)
    requires |vals| == |rows|
  {
    Concat(Parts(vals, rows), 3 * |rows|)
  }

  /** Parameter f, put together from its three shares. */
  function Joined(pieces: seq<seq<bool>>, n: nat, f: nat): seq<bool>
    requires |pieces| == 3 * n && f < n
  {
    pieces[f] + pieces[n + f] + pieces[2 * n + f]
  }

  /** The parameters read from a stream. */
  function Read(s: seq<bool>, rows: seq<Row>): (vals: seq<nat>)
    requires Size(rows) <= |s|
    ensures |vals| == |rows|
  {
    var pieces := Cut(s, Widths(rows));
    seq(|rows|, f requires 0 <= f < |rows| => Value(Joined(pieces, |rows|, f)))
  }

  // ---------- The two are inverse ----------

  /** The three shares of a value are its bits. */
  lemma SharesJoin(v: nat, row: Row)
    ensures Part(v, row, 0) + Part(v, row, 1) + Part(v, row, 2) == Bits(v, Total(row))
  {
    hide Sub, Bits;
    ThreeSubs(Bits(v, Total(row)), row.w0, row.w1, row.w2);
  }

  lemma ThreeSubs(b: seq<bool>, l: nat, m: nat, n: nat)
    requires |b| == l + m + n
    ensures Sub(b, 0, l) + Sub(b, l, m) + Sub(b, l + m, n) == b
  {
  }

  lemma ThreeParts(p: seq<bool>, q: seq<bool>, r: seq<bool>)
    ensures Sub(p + q + r, 0, |p|) == p
    ensures Sub(p + q + r, |p|, |q|) == q
    ensures Sub(p + q + r, |p| + |q|, |r|) == r
  {
    hide Sub;
  }

  /** Three pieces of the right lengths are the shares of the number they make up. */
  lemma SharesOfJoin(p: seq<bool>, q: seq<bool>, r: seq<bool>, row: Row)
    requires |p| == row.w0 && |q| == row.w1 && |r| == row.w2
    ensures var v := Value(p + q + r);
            v < Pow2(Total(row)) && Part(v, row, 0) == p && Part(v, row, 1) == q && Part(v, row, 2) == r
  {
    hide Sub, Bits, Value, Pow2;
    BitsOfValue(p + q + r);
    ThreeParts(p, q, r);
  }

  ghost predicate AreShares(v: nat, row: Row, pieces: seq<seq<bool>>, n: nat, f: nat)
    requires |pieces| == 3 * n && f < n
  {
    && v < Pow2(Total(row))
    && Part(v, row, 0) == pieces[f]
    && Part(v, row, 1) == pieces[n + f]
    && Part(v, row, 2) == pieces[2 * n + f]
  }

  lemma JoinedShares(pieces: seq<seq<bool>>, row: Row, n: nat, f: nat)
    requires |pieces| == 3 * n && f < n
    requires |pieces[f]| == row.w0 && |pieces[n + f]| == row.w1 && |pieces[2 * n + f]| == row.w2
    ensures AreShares(Value(Joined(pieces, n, f)), row, pieces, n, f)
  {
    hide Value, Pow2, Part, Sub;
    SharesOfJoin(pieces[f], pieces[n + f], pieces[2 * n + f], row);
  }

  /** Where the shares of parameter f are among the pieces. */
  lemma PartsAt(vals: seq<nat>, rows: seq<Row>, f: nat)
    requires |vals| == |rows| && f < |rows|
    ensures Parts(vals, rows)[f] == Part(vals[f], rows[f], 0)
    ensures Parts(vals, rows)[|rows| + f] == Part(vals[f], rows[f], 1)
    ensures Parts(vals, rows)[2 * |rows| + f] == Part(vals[f], rows[f], 2)
  {
    hide Part;
  }

  lemma WidthsAt(rows: seq<Row>, f: nat)
    requires f < |rows|
    ensures Widths(rows)[f] == rows[f].w0
    ensures Widths(rows)[|rows| + f] == rows[f].w1
    ensures Widths(rows)[2 * |rows| + f] == rows[f].w2
  {
  }

  lemma PartsLengths(vals: seq<nat>, rows: seq<Row>)
    requires |vals| == |rows|
    ensures HaveLengths(Parts(vals, rows), Widths(rows))
  {
    hide Part;
    var n := |rows|;
    forall i | 0 <= i < 3 * n
      ensures |Parts(vals, rows)[i]| == Widths(rows)[i]
    {
      var f := if i < n then i else if i < 2 * n then i - n else i - 2 * n;
      PartsAt(vals, rows, f);
      WidthsAt(rows, f);
    }
  }

  lemma JoinedIsValue(vals: seq<nat>, rows: seq<Row>, f: nat)
    requires Fits(vals, rows) && f < |rows|
    ensures Value(Joined(Parts(vals, rows), |rows|, f)) == vals[f]
  {
    hide Parts, Part, Value, Bits, Pow2;
    PartsAt(vals, rows, f);
    SharesJoin(vals[f], rows[f]);
    ValueOfBits(vals[f], Total(rows[f]));
  }

  /** Reading a written frame gives every parameter back, whatever follows the frame. */
  lemma ReadWritten(vals: seq<nat>, rows: seq<Row>, tail: seq<bool>)
    requires Fits(vals, rows)
    ensures Size(rows) == |Written(vals, rows)|
    ensures Read(Written(vals, rows) + tail, rows) == vals
  {
    hide Concat, Cut, Parts, Joined, Value, Pow2, Widths, SumTo;
    PartsLengths(vals, rows);
    CutOfConcat(Parts(vals, rows), Widths(rows), tail);
    forall f | 0 <= f < |rows|
      ensures Value(Joined(Parts(vals, rows), |rows|, f)) == vals[f]
    {
      JoinedIsValue(vals, rows, f);
    }
  }

  lemma PieceLengths(s: seq<bool>, rows: seq<Row>, f: nat)
    requires Size(rows) <= |s| && f < |rows|
    ensures var pieces := Cut(s, Widths(rows));
            |pieces[f]| == rows[f].w0 && |pieces[|rows| + f]| == rows[f].w1 && |pieces[2 * |rows| + f]| == rows[f].w2
  {
    hide Widths, Sub, SumTo;
    WidthsAt(rows, f);
  }

  lemma ReadAt(s: seq<bool>, rows: seq<Row>, f: nat)
    requires Size(rows) <= |s| && f < |rows|
    ensures Read(s, rows)[f] == Value(Joined(Cut(s, Widths(rows)), |rows|, f))
  {
    hide Value, Joined, Cut, Widths, SumTo;
  }

  /** The pieces of a stream are the shares of the parameters read from it. */
  lemma PiecesAreShares(s: seq<bool>, rows: seq<Row>, f: nat)
    requires Size(rows) <= |s| && f < |rows|
    ensures AreShares(Read(s, rows)[f], rows[f], Cut(s, Widths(rows)), |rows|, f)
  {
    hide AreShares, Cut, Joined, Part, Pow2, Read, Sub, SumTo, Value, Widths;
    var pieces := Cut(s, Widths(rows));
    ReadAt(s, rows, f);
    PieceLengths(s, rows, f);
    JoinedShares(pieces, rows[f], |rows|, f);
  }

  lemma PartsAre(vals: seq<nat>, rows: seq<Row>, pieces: seq<seq<bool>>)
    requires |vals| == |rows| && |pieces| == 3 * |rows|
    requires forall f :: 0 <= f < |rows| ==> AreShares(vals[f], rows[f], pieces, |rows|, f)
    ensures Parts(vals, rows) == pieces
  {
    hide Parts, Part, Pow2;
    var n := |rows|;
    var parts := Parts(vals, rows);
    forall i | 0 <= i < 3 * n
      ensures parts[i] == pieces[i]
    {
      var f := if i < n then i else if i < 2 * n then i - n else i - 2 * n;
      PartsAt(vals, rows, f);
      assert AreShares(vals[f], rows[f], pieces, n, f);
    }
  }

  /** Writing what was read gives the stream back, bit for bit: every stream is some frame's. */
  lemma WrittenRead(s: seq<bool>, rows: seq<Row>)
    requires Size(rows) <= |s|
    ensures Fits(Read(s, rows), rows)
    ensures Written(Read(s, rows), rows) == Sub(s, 0, Size(rows))
  {
    hide AreShares, Concat, Cut, Part, Parts, Read, Sub, SumTo, Widths;
    var n, pieces, vals := |rows|, Cut(s, Widths(rows)), Read(s, rows);
    ConcatOfCut(s, Widths(rows), 3 * n);
    forall f | 0 <= f < n
      ensures AreShares(vals[f], rows[f], pieces, n, f)
    {
      PiecesAreShares(s, rows, f);
    }
    PartsAre(vals, rows, pieces);
    forall f | 0 <= f < n
      ensures vals[f] < Pow2(Total(rows[f]))
    {
      SharesFit(vals[f], rows[f], pieces, n, f);
    }
  }

  lemma SharesFit(v: nat, row: Row, pieces: seq<seq<bool>>, n: nat, f: nat)
    requires |pieces| == 3 * n && f < n && AreShares(v, row, pieces, n, f)
    ensures v < Pow2(Total(row))
  {
  }

  // ---------- The packing loop ----------

  /** The first piece of class u. */
  function Base(n: nat, u: nat): nat {
    if u == 0 then 0 else if u == 1 then n else if u == 2 then 2 * n else 3 * n
  }

  lemma PieceOf(vals: seq<nat>, rows: seq<Row>, u: nat, f: nat)
    requires |vals| == |rows| && u < 3 && f < |rows|
    ensures Parts(vals, rows)[Base(|rows|, u) + f] == Part(vals[f], rows[f], u)
    ensures Widths(rows)[Base(|rows|, u) + f] == rows[f].Width(u)
  {
    hide Part, Parts, Widths;
    PartsAt(vals, rows, f);
    WidthsAt(rows, f);
  }

  /** v is what packsplit has left of `all` before class u. */
  ghost predicate Remains(v: nat, all: nat, row: Row, u: nat)
    requires u <= 3
  {
    var left := Total(row) - Before(row, u);
    v < Pow2(left) && Bits(v, left) == Sub(Bits(all, Total(row)), Before(row, u), left)
  }

  /** One split takes the share of class u off what remains. */
  lemma SplitShare(v: nat, all: nat, row: Row, u: nat, first: nat, rest: nat)
    requires u < 3 && Remains(v, all, row, u)
    requires var left := Total(row) - Before(row, u);
             && rest < Pow2(left - row.Width(u))
             && Bits(first, row.Width(u)) + Bits(rest, left - row.Width(u)) == Bits(v, left)
    ensures Bits(first, row.Width(u)) == Part(all, row, u)
    ensures Remains(rest, all, row, u + 1)
  {
    hide Bits, Sub, Pow2;
    var w, at, left := row.Width(u), Before(row, u), Total(row) - Before(row, u);
    var b := Bits(all, Total(row));
    SubJoin(b, at, w, left - w);
    SameParts(Bits(first, w), Bits(rest, left - w), Sub(b, at, w), Sub(b, at + w, left - w));
  }

  lemma SameParts<T>(a: seq<T>, b: seq<T>, c: seq<T>, d: seq<T>)
    requires a + b == c + d && |a| == |c|
    ensures a == c && b == d
  {
    assert (a + b)[..|a|] == a && (c + d)[..|c|] == c;
    SameEnd(a, b, c, d);
  }

  /** What the parameters are down to when the loop is at parameter f of class u. */
  ghost predicate Consumed(now: seq<nat>, was: seq<nat>, rows: seq<Row>, u: nat, f: nat)
    requires u <= 3
  {
    && |now| == |was| == |rows|
    && (u == 3 ==> f == 0)
    && forall g :: 0 <= g < |rows| ==> Remains(now[g], was[g], rows[g], if g < f then u + 1 else u)
  }

  lemma NothingConsumed(vals: seq<nat>, rows: seq<Row>)
    requires Fits(vals, rows)
    ensures Consumed(vals, vals, rows, 0, 0)
  {
    hide Bits, Sub, Pow2;
    forall g | 0 <= g < |rows|
      ensures Remains(vals[g], vals[g], rows[g], 0)
    {
      SubAll(Bits(vals[g], Total(rows[g])));
    }
  }

  /** The share of class u of parameter f: split off, and packed. */
  method PackShare(vals: array<nat>, rows: seq<Row>, w: BitWriter, u: nat, f: nat, ghost was: seq<nat>)
    requires u < 3 && f < |rows| && Consumed(vals[..], was, rows, u, f)
    requires w.Valid() && 8 * w.at + w.pos + rows[f].Width(u) <= 8 * w.bytes.Length
    modifies vals, w, w.bytes
    ensures Consumed(vals[..], was, rows, if f + 1 < |rows| then u else u + 1, if f + 1 < |rows| then f + 1 else 0)
    ensures w.Valid() && w.Contents() == old(w.Contents()) + Part(was[f], rows[f], u)
  {
    hide Bits, Part, Pow2, Stream, Sub;
    var row := rows[f];
    assert Remains(vals[f], was[f], row, u);
    var first, rest := PackSplit(vals[f], row.Width(u), row.Width(u) + row.Width(u + 1) + row.Width(u + 2));
    SplitShare(vals[f], was[f], row, u, first, rest);
    vals[f] := rest;
    ghost var now := vals[..];
    w.DoPack(first, row.Width(u));
    assert vals[..] == now;
  }

  /** The packing loop of iLBC_encode: class after class, parameter after parameter. */
  method PackFrame(vals: array<nat>, rows: seq<Row>, w: BitWriter)
    requires Fits(vals[..], rows)
    requires w.Valid() && 8 * w.at + w.pos + Size(rows) <= 8 * w.bytes.Length
    modifies vals, w, w.bytes
    ensures w.Valid() && w.Contents() == old(w.Contents()) + Written(old(vals[..]), rows)
  {
    hide Bits, Concat, Part, Parts, Pow2, Size, Stream, Sub, Widths, Consumed;
    var n := |rows|;
    ghost var was, start := vals[..], w.Contents();
    ghost var parts := Parts(was, rows);
    NothingConsumed(was, rows);
    ConcatNone(start, parts);
    for u := 0 to 3
      invariant w.Valid() && Consumed(vals[..], was, rows, u, 0)
      invariant w.Contents() == start + Concat(parts, Base(n, u))
    {
      if n == 0 {
        NoneLeft(vals[..], was, rows, u);
      }
      for f := 0 to n
        invariant w.Valid()
        invariant if f < n then Consumed(vals[..], was, rows, u, f) else Consumed(vals[..], was, rows, u + 1, 0)
        invariant w.Contents() == start + Concat(parts, Base(n, u) + f)
      {
        PieceOf(was, rows, u, f);
        RoomFor(was, rows, u, f);
        PackShare(vals, rows, w, u, f, was);
        ConcatNext(start, parts, Base(n, u) + f);
      }
    }
  }

  lemma ConcatNone(start: seq<bool>, parts: seq<seq<bool>>)
    ensures start + Concat(parts, 0) == start
  {
  }

  lemma ConcatNext(start: seq<bool>, parts: seq<seq<bool>>, i: nat)
    requires i < |parts|
    ensures start + Concat(parts, i) + parts[i] == start + Concat(parts, i + 1)
  {
  }

  lemma NoneLeft(now: seq<nat>, was: seq<nat>, rows: seq<Row>, u: nat)
    requires |rows| == 0 && u < 3 && Consumed(now, was, rows, u, 0)
    ensures Consumed(now, was, rows, u + 1, 0)
  {
  }

  /** The pieces up to and with this one are within the size of the frame. */
  lemma RoomFor(vals: seq<nat>, rows: seq<Row>, u: nat, f: nat)
    requires |vals| == |rows| && u < 3 && f < |rows|
    ensures |Concat(Parts(vals, rows), Base(|rows|, u) + f)| + rows[f].Width(u) <= Size(rows)
  {
    hide Concat, Parts, Widths;
    var i := Base(|rows|, u) + f;
    PartsLengths(vals, rows);
    LengthOfConcat(Parts(vals, rows), Widths(rows), i);
    PieceOf(vals, rows, u, f);
    SumMonotonic(Widths(rows), i + 1, 3 * |rows|);
  }

  // ---------- The unpacking loop ----------

  /** The bits of parameter g in the classes before class u. */
  function SoFar(pieces: seq<seq<bool>>, n: nat, g: nat, u: nat): seq<bool>
    requires |pieces| == 3 * n && g < n && u <= 3
  {
    if u == 0 then [] else if u == 1 then pieces[g] else if u == 2 then pieces[g] + pieces[n + g] else Joined(pieces, n, g)
  }

  /** v is what packcombine has made of parameter g before class u. */
  ghost predicate Combined(v: nat, pieces: seq<seq<bool>>, row: Row, n: nat, g: nat, u: nat)
    requires |pieces| == 3 * n && g < n && u <= 3
  {
    v < Pow2(Before(row, u)) && Bits(v, Before(row, u)) == SoFar(pieces, n, g, u)
  }

  ghost predicate Collected(now: seq<nat>, pieces: seq<seq<bool>>, rows: seq<Row>, u: nat, f: nat)
    requires u <= 3
  {
    && |now| == |rows| && |pieces| == 3 * |rows|
    && (u == 3 ==> f == 0)
    && forall g :: 0 <= g < |rows| ==> Combined(now[g], pieces, rows[g], |rows|, g, if g < f then u + 1 else u)
  }

  /** The share of class u of parameter f: unpacked, and combined. */
  method UnpackShare(vals: array<nat>, rows: seq<Row>, r: BitReader, u: nat, f: nat)
    requires u < 3 && f < |rows| && Size(rows) <= 8 * |r.bytes|
    requires Collected(vals[..], Cut(Stream(r.bytes), Widths(rows)), rows, u, f)
    requires r.Valid() && r.Position() == SumTo(Widths(rows), Base(|rows|, u) + f)
    modifies vals, r
    ensures Collected(vals[..], Cut(Stream(r.bytes), Widths(rows)), rows,
                      if f + 1 < |rows| then u else u + 1, if f + 1 < |rows| then f + 1 else 0)
    ensures r.Valid() && r.Position() == SumTo(Widths(rows), Base(|rows|, u) + f + 1)
  {
    hide Bits, Cut, Pow2, Stream, Sub, SumTo, Value, Widths, Joined;
    var row := rows[f];
    ghost var s, i := Stream(r.bytes), Base(|rows|, u) + f;
    ghost var pieces := Cut(s, Widths(rows));
    PieceOffset(rows, u, f);
    PieceAt(s, rows, u, f, r.Position());
    assert Combined(vals[f], pieces, row, |rows|, f, u);
    var lastpart := r.Unpack(row.Width(u));
    BitsOfValue(pieces[i]);
    vals[f] := PackCombine(vals[f], lastpart, row.Width(u), Before(row, u));
    SoFarNext(pieces, |rows|, f, u);
  }

  lemma SoFarNext(pieces: seq<seq<bool>>, n: nat, f: nat, u: nat)
    requires |pieces| == 3 * n && f < n && u < 3
    ensures SoFar(pieces, n, f, u) + pieces[Base(n, u) + f] == SoFar(pieces, n, f, u + 1)
  {
  }

  /** Where piece number u * n + f lies. */
  lemma PieceOffset(rows: seq<Row>, u: nat, f: nat)
    requires u < 3 && f < |rows|
    ensures var at := SumTo(Widths(rows), Base(|rows|, u) + f);
            SumTo(Widths(rows), Base(|rows|, u) + f + 1) == at + rows[f].Width(u) <= Size(rows)
  {
    hide Widths;
    WidthsAt(rows, f);
    SumMonotonic(Widths(rows), Base(|rows|, u) + f + 1, 3 * |rows|);
  }

  lemma PieceAt(s: seq<bool>, rows: seq<Row>, u: nat, f: nat, at: nat)
    requires u < 3 && f < |rows| && Size(rows) <= |s|
    requires at == SumTo(Widths(rows), Base(|rows|, u) + f) && at + rows[f].Width(u) <= |s|
    ensures Cut(s, Widths(rows))[Base(|rows|, u) + f] == Sub(s, at, rows[f].Width(u))
  {
    hide Sub, SumTo, Widths;
    WidthsAt(rows, f);
  }

  /** The unpacking loop of iLBC_decode, from the start of the packet: it reads the frame of any byte string. */
  method UnpackFrame(r: BitReader, rows: seq<Row>) returns (vals: array<nat>)
    requires r.Valid() && r.Position() == 0 && Size(rows) <= 8 * |r.bytes|
    modifies r
    ensures r.Valid() && r.Position() == Size(rows)
    ensures fresh(vals) && vals[..] == Read(Stream(r.bytes), rows)
  {
    hide Bits, Cut, Pow2, Stream, Sub, Value, Widths, Collected, Read;
    var n := |rows|;
    vals := new nat[n](_ => 0);
    ghost var pieces := Cut(Stream(r.bytes), Widths(rows));
    NothingCollected(vals[..], pieces, rows);
    for u := 0 to 3
      invariant r.Valid() && Collected(vals[..], pieces, rows, u, 0)
      invariant r.Position() == SumTo(Widths(rows), Base(n, u))
    {
      if n == 0 {
        NoneCollected(vals[..], pieces, rows, u);
      }
      for f := 0 to n
        invariant r.Valid()
        invariant if f < n then Collected(vals[..], pieces, rows, u, f) else Collected(vals[..], pieces, rows, u + 1, 0)
        invariant r.Position() == SumTo(Widths(rows), Base(n, u) + f)
      {
        UnpackShare(vals, rows, r, u, f);
      }
    }
    AllCollected(vals[..], Stream(r.bytes), rows);
  }

  lemma NothingCollected(vals: seq<nat>, pieces: seq<seq<bool>>, rows: seq<Row>)
    requires |vals| == |rows| && |pieces| == 3 * |rows| && forall g :: 0 <= g < |vals| ==> vals[g] == 0
    ensures Collected(vals, pieces, rows, 0, 0)
  {
    hide Joined;
    assert Bits(0, 0) == [];
  }

  lemma NoneCollected(vals: seq<nat>, pieces: seq<seq<bool>>, rows: seq<Row>, u: nat)
    requires |rows| == 0 && u < 3 && Collected(vals, pieces, rows, u, 0)
    ensures Collected(vals, pieces, rows, u + 1, 0)
  {
  }

  lemma AllCollected(vals: seq<nat>, s: seq<bool>, rows: seq<Row>)
    requires Size(rows) <= |s| && Collected(vals, Cut(s, Widths(rows)), rows, 3, 0)
    ensures vals == Read(s, rows)
  {
    hide Bits, Cut, Joined, Pow2, SumTo, Value, Widths;
    forall g | 0 <= g < |rows|
      ensures vals[g] == Value(Joined(Cut(s, Widths(rows)), |rows|, g))
    {
      assert Combined(vals[g], Cut(s, Widths(rows)), rows[g], |rows|, g, 3);
      ValueOfBits(vals[g], Total(rows[g]));
    }
  }
}
