/**
 The bit packer: values of any width written most significant bit first, across byte
 boundaries. The writer refines "append these bits", the reader "take this many bits".
 */
module Packing {
  import opened Sequences

  // ---------- Numbers and bits ----------

  function Pow2(n: nat): (p: nat)
    ensures p > 0
  {
    if n == 0 then 1 else 2 * Pow2(n - 1)
  }

  /** The low n bits of v, most significant first. */
  function Bits(v: nat, n: nat): (b: seq<bool>)
    ensures |b| == n
  {
    if n == 0 then [] else Bits(v / 2, n - 1) + [v % 2 == 1]
  }

  /** The number a run of bits stands for. */
  function Value(b: seq<bool>): nat {
    if b == [] then 0 else
    2 * Value(b[..|b| - 1]) + (if b[|b| - 1] then 1 else 0)
  }

  /** The operator | of C on naturals. */
  function Or(a: nat, b: nat): nat {
    if a == 0 then b else if b == 0 then a else
    2 * Or(a / 2, b / 2) + (if a % 2 == 1 || b % 2 == 1 then 1 else 0)
  }

  /** The operators << and >> of C on naturals. */
  function ShiftLeft(v: nat, n: nat): nat {
    if n == 0 then v else 2 * ShiftLeft(v, n - 1)
  }

  function ShiftRight(v: nat, n: nat): nat {
    if n == 0 then v else ShiftRight(v, n - 1) / 2
  }

  /** Bits and Value are each other's inverse on numbers that fit. */
  lemma {:induction false} ValueOfBits(v: nat, n: nat)
    requires v < Pow2(n)
    ensures Value(Bits(v, n)) == v
  {
    if n > 0 {
      ValueOfBits(v / 2, n - 1);
      var b := Bits(v, n);
      assert b[..n - 1] == Bits(v / 2, n - 1);
    }
  }

  lemma {:induction false} BitsOfValue(b: seq<bool>)
    ensures Value(b) < Pow2(|b|)
    ensures Bits(Value(b), |b|) == b
  {
    if b != [] {
      BitsOfValue(b[..|b| - 1]);
      assert b == b[..|b| - 1] + [b[|b| - 1]];
    }
  }

  /** Writing a number next to another writes their bits next to each other. */
  lemma {:induction false} BitsJoin(hi: nat, lo: nat, m: nat, n: nat)
    requires lo < Pow2(n)
    ensures Bits(ShiftLeft(hi, n) + lo, m + n) == Bits(hi, m) + Bits(lo, n)
  {
    if n > 0 {
      var v := ShiftLeft(hi, n) + lo;
      assert v / 2 == ShiftLeft(hi, n - 1) + lo / 2 && v % 2 == lo % 2;
      BitsJoin(hi, lo / 2, m, n - 1);
    }
  }

  /** Appending bits shifts the number up and adds the new ones. */
  lemma {:induction false} ValueJoin(a: seq<bool>, b: seq<bool>)
    ensures Value(a + b) == ShiftLeft(Value(a), |b|) + Value(b)
  {
    if b == [] {
      assert a + b == a;
    } else {
      var c := b[..|b| - 1];
      ValueJoin(a, c);
      assert (a + b)[..|a + b| - 1] == a + c;
    }
  }

  /** Or into cleared low bits is addition. */
  lemma {:induction false} OrIsSum(hi: nat, lo: nat, n: nat)
    requires lo < Pow2(n)
    ensures Or(ShiftLeft(hi, n), lo) == ShiftLeft(hi, n) + lo
  {
    if n > 0 {
      OrIsSum(hi, lo / 2, n - 1);
      assert ShiftLeft(hi, n) / 2 == ShiftLeft(hi, n - 1);
    }
  }

  lemma {:induction false} ShiftLeftFits(hi: nat, lo: nat, m: nat, n: nat)
    requires hi < Pow2(m) && lo < Pow2(n)
    ensures ShiftLeft(hi, n) + lo < Pow2(m + n)
  {
    if n > 0 {
      ShiftLeftFits(hi, lo / 2, m, n - 1);
    }
  }

  lemma {:induction false} ShiftRightFits(v: nat, m: nat, n: nat)
    requires v < Pow2(m + n)
    ensures ShiftRight(v, n) < Pow2(m)
    decreases n
  {
    if n > 0 {
      ShiftRightFits(v, m + 1, n - 1);
    }
  }

  /** A number is its top bits next to its low bits; the low bits are what the shifts leave over. */
  lemma {:induction false} BitsSplit(v: nat, m: nat, n: nat)
    ensures ShiftLeft(ShiftRight(v, n), n) <= v < ShiftLeft(ShiftRight(v, n), n) + Pow2(n)
    ensures Bits(v, m + n) == Bits(ShiftRight(v, n), m) + Bits(v, n)
    ensures Bits(v - ShiftLeft(ShiftRight(v, n), n), n) == Bits(v, n)
  {
    var w := ShiftRight(v, n);
    Remainder(v, n);
    var r := v - ShiftLeft(w, n);
    BitsJoin(w, r, m, n);
    BitsJoin(w, r, 0, n);
    assert Bits(w, 0) + Bits(r, n) == Bits(r, n);
  }

  lemma {:induction false} Remainder(v: nat, n: nat)
    ensures ShiftLeft(ShiftRight(v, n), n) <= v < ShiftLeft(ShiftRight(v, n), n) + Pow2(n)
  {
    if n > 0 {
      Remainder(v, n - 1);
      var w := ShiftRight(v, n - 1);
      ShiftLeftHalf(w, n - 1);
    }
  }

  lemma {:induction false} ShiftLeftHalf(w: nat, n: nat)
    ensures ShiftLeft(w, n) == ShiftLeft(w / 2, n + 1) + (if w % 2 == 1 then Pow2(n) else 0)
  {
    if n > 0 {
      ShiftLeftHalf(w, n - 1);
    }
  }

  /** Low bits that are all zero survive a shift down and up. */
  lemma ClearBits(v: nat, n: nat)
    requires Bits(v, n) == Bits(0, n)
    ensures v == ShiftLeft(ShiftRight(v, n), n)
  {
    hide Bits, Value, ShiftLeft, ShiftRight, Pow2;
    BitsSplit(v, 0, n);
    var r := v - ShiftLeft(ShiftRight(v, n), n);
    ValueOfBits(r, n);
    ValueOfBits(0, n);
  }

  // ---------- packsplit and packcombine ----------

  /** packsplit: the first bitno_firstpart of bitno_total bits, and the rest. */
  method PackSplit(index: nat, firstBits: nat, totalBits: nat) returns (first: nat, rest: nat)
    requires firstBits <= totalBits && index < Pow2(totalBits)
    ensures first < Pow2(firstBits) && rest < Pow2(totalBits - firstBits)
    ensures Bits(first, firstBits) + Bits(rest, totalBits - firstBits) == Bits(index, totalBits)
  {
    var restBits := totalBits - firstBits;
    BitsSplit(index, firstBits, restBits);
    ShiftRightFits(index, firstBits, restBits);
    first := ShiftRight(index, restBits);
    rest := index - ShiftLeft(first, restBits);
  }

  /** packcombine: the bits of `rest` appended to those of `index`. */
  method PackCombine(index: nat, rest: nat, restBits: nat, ghost indexBits: nat) returns (combined: nat)
    requires index < Pow2(indexBits) && rest < Pow2(restBits)
    ensures combined < Pow2(indexBits + restBits)
    ensures Bits(combined, indexBits + restBits) == Bits(index, indexBits) + Bits(rest, restBits)
  {
    combined := ShiftLeft(index, restBits);
    combined := combined + rest;
    BitsJoin(index, rest, indexBits, restBits);
    ShiftLeftFits(index, rest, indexBits, restBits);
  }

  // ---------- Bytes as a bit stream ----------

  type byte = b: nat | b < 256

  /** All the bits of a run of bytes. */
  function Stream(s: seq<byte>): (b: seq<bool>)
    ensures |b| == 8 * |s|
  {
    if s == [] then [] else Stream(s[..|s| - 1]) + Bits(s[|s| - 1], 8)
  }

  /** The bits of byte number n, in place. */
  lemma {:induction false} StreamByte(s: seq<byte>, n: nat)
    requires n < |s|
    ensures Sub(Stream(s), 8 * n, 8) == Bits(s[n], 8)
  {
    var k := |s| - 1;
    var t, last := Stream(s[..k]), Bits(s[k], 8);
    hide Bits, Sub;
    if n < k {
      StreamByte(s[..k], n);
      SubLeft(t, last, 8 * n, 8);
    } else {
      SubRight(t, last, 0, 8);
      SubAll(last);
    }
  }

  /** Some bits of byte number n, in place. */
  lemma StreamAt(s: seq<byte>, n: nat, i: nat, width: nat)
    requires n < |s| && i + width <= 8
    ensures Sub(Stream(s), 8 * n + i, width) == Sub(Bits(s[n], 8), i, width)
  {
    hide Bits, Sub, Stream;
    StreamByte(s, n);
    SubSub(Stream(s), 8 * n, 8, i, width);
  }

  // ---------- dopack ----------

  lemma Pow2Of8()
    ensures Pow2(8) == 256
  {
    assert Pow2(4) == 16;
  }

  lemma SameEnd<T>(a: seq<T>, b: seq<T>, c: seq<T>, d: seq<T>)
    requires a + b == c + d && |a| == |c|
    ensures b == d
  {
    assert (a + b)[|a|..] == b && (c + d)[|c|..] == d;
  }

  /** The first bits of the result of an insertion are the old ones, then the new ones, then zeros. */
  lemma InsertBits(hi: nat, pos: nat, value: nat, width: nat, below: nat)
    requires value < Pow2(width) && hi < Pow2(pos)
    ensures var c := ShiftLeft(hi, width + below) + ShiftLeft(value, below);
            && c < Pow2(pos + width + below)
            && Bits(c, pos + width + below) == Bits(hi, pos) + Bits(value, width) + Bits(0, below)
            && Bits(c, below) == Bits(0, below)
  {
    hide Bits, ShiftLeft, Pow2;
    var v := ShiftLeft(value, below) + 0;
    ShiftLeftFits(value, 0, width, below);
    BitsJoin(value, 0, width, below);
    ShiftLeftFits(hi, v, pos, width + below);
    BitsJoin(hi, v, pos, width + below);
    var c := ShiftLeft(hi, width + below) + v;
    BitsSplit(c, pos + width, below);
    assert Bits(c, pos + width + below) == Bits(hi, pos) + (Bits(value, width) + Bits(0, below));
    SameEnd(Bits(ShiftRight(c, below), pos + width), Bits(c, below), Bits(hi, pos) + Bits(value, width), Bits(0, below));
  }

  /**
   One byte of dopack: `value`, of `width` bits, goes below the first `pos` bits of a byte
   whose other bits are clear, and leaves what is below it clear.
   */
  lemma Insert(b: byte, pos: nat, value: nat, width: nat)
    requires pos + width <= 8 && value < Pow2(width)
    requires Bits(b, 8 - pos) == Bits(0, 8 - pos)
    ensures var c := Or(b, ShiftLeft(value, 8 - pos - width));
            && c < 256
            && Sub(Bits(c, 8), 0, pos + width) == Sub(Bits(b, 8), 0, pos) + Bits(value, width)
            && Bits(c, 8 - pos - width) == Bits(0, 8 - pos - width)
  {
    Pow2Of8();
    hide Bits, ShiftLeft, ShiftRight, Pow2, Or;
    var below := 8 - pos - width;
    var hi := ShiftRight(b, 8 - pos);
    ClearBits(b, 8 - pos);
    BitsSplit(b, pos, 8 - pos);
    ShiftRightFits(b, pos, 8 - pos);
    ShiftLeftFits(value, 0, width, below);
    OrIsSum(hi, ShiftLeft(value, below), width + below);
    InsertBits(hi, pos, value, width, below);
  }

  /** The writing end: a byte pointer and a bit position in the current byte. */
  class BitWriter {
    const bytes: array<byte>
    var at: nat
    var pos: nat

    ghost predicate Valid()
      reads this, bytes
    {
      && at < bytes.Length && pos <= 8
      && (pos > 0 ==> Bits(bytes[at], 8 - pos) == Bits(0, 8 - pos))
    }

    /** Everything written so far. */
    ghost function Contents(): (b: seq<bool>)
      requires Valid()
      reads this, bytes
      ensures |b| == 8 * at + pos
    {
      Stream(bytes[..at]) + Sub(Bits(bytes[at], 8), 0, pos)
    }

    /** The start of a fresh buffer, whatever it holds. */
    constructor (buffer: array<byte>)
      requires buffer.Length > 0
      ensures bytes == buffer && Valid() && Contents() == []
    {
      bytes := buffer;
      at, pos := 0, 0;
    }

    /** The current byte is cleared if nothing has been written to it. */
    method ClearIfNew()
      requires Valid()
      modifies bytes
      ensures Valid() && Clear() && Contents() == old(Contents())
      ensures forall k :: at < k < bytes.Length ==> bytes[k] == old(bytes[k])
    {
      hide Bits, Sub, Stream;
      if pos == 0 {
        bytes[at] := 0;
      }
      assert bytes[..at] == old(bytes[..at]);
    }

    /** The step to the next byte, which starts out clear. */
    method NextByte()
      requires Valid() && pos == 8 && at + 1 < bytes.Length
      modifies this, bytes
      ensures Valid() && at == old(at) + 1 && pos == 0 && bytes[at] == 0
      ensures Contents() == old(Contents())
      ensures forall k :: at < k < bytes.Length ==> bytes[k] == old(bytes[k])
    {
      assert bytes[..at + 1][..at] == bytes[..at];
      at, pos := at + 1, 0;
      bytes[at] := 0;
    }

    /** The bits below the write position are clear, even in a byte not yet written to. */
    ghost predicate Clear()
      requires Valid()
      reads this, bytes
    {
      Bits(bytes[at], 8 - pos) == Bits(0, 8 - pos)
    }

    /** Bits that fit into the current byte. */
    method Put(value: nat, width: nat)
      requires Valid() && Clear() && pos + width <= 8 && value < Pow2(width)
      modifies this, bytes
      ensures Valid() && Clear() && at == old(at) && pos == old(pos) + width
      ensures Contents() == old(Contents()) + Bits(value, width)
      ensures forall k :: at < k < bytes.Length ==> bytes[k] == old(bytes[k])
    {
      hide Bits, Pow2, Or, ShiftLeft, Stream, Sub;
      Insert(bytes[at], pos, value, width);
      ghost var before, start := bytes[..at], Sub(Bits(bytes[at], 8), 0, pos);
      bytes[at] := Or(bytes[at], ShiftLeft(value, 8 - pos - width));
      pos := pos + width;
      assert bytes[..at] == before;
      assert Stream(before) + start + Bits(value, width) == Stream(before) + (start + Bits(value, width));
    }

    /** dopack: appends the bitno bits of index, clearing each byte it enters. */
    method DoPack(index: nat, bitno: nat)
      requires Valid() && index < Pow2(bitno) && 8 * at + pos + bitno <= 8 * bytes.Length
      modifies this, bytes
      ensures Valid() && Contents() == old(Contents()) + Bits(index, bitno)
      ensures forall k :: at < k < bytes.Length ==> bytes[k] == old(bytes[k])
    {
      hide Stream, Pow2, Bits, Contents;
      var rest: nat, left: nat := index, bitno;
      ClearIfNew();
      while left > 0
        invariant Valid() && Clear()
        invariant left > 0 ==> rest < Pow2(left)
        invariant 8 * at + pos + left <= 8 * bytes.Length
        invariant Contents() + Bits(rest, left) == old(Contents()) + Bits(index, bitno)
        invariant forall k :: at < k < bytes.Length ==> bytes[k] == old(bytes[k])
      {
        if pos == 8 {
          NextByte();
        }
        var posLeft := 8 - pos;
        if left <= posLeft {
          Put(rest, left);
          left := 0;
        } else {
          var first, low := PackSplit(rest, posLeft, left);
          assert Contents() + Bits(rest, left) == Contents() + Bits(first, posLeft) + Bits(low, left - posLeft);
          Put(first, posLeft);
          rest, left := low, left - posLeft;
        }
      }
    }
  }

  // ---------- unpack ----------

  lemma {:induction false} ZeroValue(n: nat)
    ensures Value(Bits(0, n)) == 0
  {
    assert 0 < Pow2(n);
    ValueOfBits(0, n);
  }

  lemma ShiftedWord(b: byte, pos: nat)
    ensures Bits(ShiftRight(ShiftLeft(b, pos), 8), pos) + Bits(ShiftLeft(b, pos) % 256, 8) == Bits(b, 8) + Bits(0, pos)
  {
    Pow2Of8();
    BitsJoin(b, 0, 8, pos);
    var v := ShiftLeft(b, pos);
    LowBits(v, v % 256, v / 256, 8);
    BitsSplit(v, pos, 8);
  }

  lemma DropLeft<T>(top: seq<T>, low: seq<T>, x: seq<T>, z: seq<T>)
    requires top + low == x + z && |top| <= |x|
    ensures low == Sub(x, |top|, |x| - |top|) + z
  {
    assert low == (top + low)[|top|..];
  }

  /** A byte shifted left by pos within eight bits: its later bits, then zeros. */
  lemma ShiftedByte(b: byte, pos: nat)
    requires pos <= 8
    ensures Bits(ShiftLeft(b, pos) % 256, 8) == Sub(Bits(b, 8), pos, 8 - pos) + Bits(0, pos)
  {
    hide *;
    ShiftedWord(b, pos);
    DropLeft(Bits(ShiftRight(ShiftLeft(b, pos), 8), pos), Bits(ShiftLeft(b, pos) % 256, 8), Bits(b, 8), Bits(0, pos));
  }

  lemma {:induction false} LowBits(v: nat, r: nat, q: nat, n: nat)
    requires v == q * Pow2(n) + r
    ensures Bits(v, n) == Bits(r, n)
  {
    if n > 0 {
      assert q * (2 * Pow2(n - 1)) == 2 * (q * Pow2(n - 1));
      assert v % 2 == r % 2 && v / 2 == q * Pow2(n - 1) + r / 2;
      LowBits(v / 2, r / 2, q, n - 1);
    }
  }

  lemma ValueOfByte(v: byte)
    ensures Value(Bits(v, 8)) == v
  {
    Pow2Of8();
    ValueOfBits(v, 8);
  }

  lemma {:induction false} ZeroShift(n: nat)
    ensures ShiftRight(0, n) == 0
  {
    if n > 0 {
      ZeroShift(n - 1);
    }
  }

  lemma ZeroBits(m: nat, n: nat)
    ensures Bits(0, m + n) == Bits(0, m) + Bits(0, n)
  {
    BitsSplit(0, m, n);
    ZeroShift(n);
  }

  lemma ExtractTop(v: byte, width: nat)
    requires width <= 8
    ensures ShiftRight(v, 8 - width) == Value(Sub(Bits(v, 8), 0, width))
  {
    Pow2Of8();
    hide Bits, Value, Pow2, ShiftLeft, ShiftRight, Sub;
    var w := ShiftRight(v, 8 - width);
    BitsSplit(v, width, 8 - width);
    ShiftRightFits(v, width, 8 - width);
    ValueOfBits(w, width);
    SubLeft(Bits(w, width), Bits(v, 8 - width), 0, width);
    SubAll(Bits(w, width));
  }

  /** What unpack extracts when the byte holds all the bits wanted. */
  lemma ExtractLast(b: byte, pos: nat, width: nat)
    requires pos + width <= 8
    ensures ShiftRight(ShiftLeft(b, pos) % 256, 8 - width) == Value(Sub(Bits(b, 8), pos, width))
  {
    hide Bits, Value, ShiftLeft, ShiftRight, Sub;
    ShiftedByte(b, pos);
    ExtractTop(ShiftLeft(b, pos) % 256, width);
    var later := Sub(Bits(b, 8), pos, 8 - pos);
    SubLeft(later, Bits(0, pos), 0, width);
    SubSub(Bits(b, 8), pos, 8 - pos, 0, width);
  }

  /** What unpack extracts when more bits are wanted than the byte has left: room is kept for the others. */
  lemma ExtractSome(b: byte, pos: nat, width: nat)
    requires pos <= 8 && 8 - pos < width
    ensures var v := ShiftLeft(b, pos) % 256;
            (if 8 > width then ShiftRight(v, 8 - width) else ShiftLeft(v, width - 8))
            == Value(Sub(Bits(b, 8), pos, 8 - pos) + Bits(0, width - (8 - pos)))
  {
    hide Bits, Value, ShiftLeft, ShiftRight, Sub;
    var v := ShiftLeft(b, pos) % 256;
    var later := Sub(Bits(b, 8), pos, 8 - pos);
    ShiftedByte(b, pos);
    if 8 > width {
      var some := width - (8 - pos);
      ExtractTop(v, width);
      ZeroBits(some, 8 - width);
      assert Bits(v, 8) == later + Bits(0, some) + Bits(0, 8 - width);
      SubLeft(later + Bits(0, some), Bits(0, 8 - width), 0, width);
      SubAll(later + Bits(0, some));
    } else {
      ValueOfByte(v);
      ValueJoin(Bits(v, 8), Bits(0, width - 8));
      ZeroValue(width - 8);
      ZeroBits(pos, width - 8);
      assert Bits(v, 8) + Bits(0, width - 8) == later + Bits(0, pos + (width - 8));
    }
  }

  /** Filling in bits that were zero adds their value. */
  lemma ValueFill(a: seq<bool>, b: seq<bool>, n: nat)
    ensures Value(a + Bits(0, |b| + n)) + Value(b + Bits(0, n)) == Value(a + b + Bits(0, n))
  {
    hide Bits, Value, ShiftLeft;
    ValueJoin(a, Bits(0, |b| + n));
    ZeroValue(|b| + n);
    ValueJoin(a, b + Bits(0, n));
    assert a + (b + Bits(0, n)) == a + b + Bits(0, n);
  }

  /** The reading end, over bytes that do not change meanwhile. */
  class BitReader {
    const bytes: seq<byte>
    var at: nat
    var pos: nat

    ghost predicate Valid()
      reads this
    {
      pos <= 8 && 8 * at + pos <= 8 * |bytes|
    }

    ghost function Position(): (p: nat)
      requires Valid()
      reads this
      ensures p <= 8 * |bytes|
    {
      8 * at + pos
    }

    constructor (buffer: seq<byte>)
      ensures bytes == buffer && Valid() && Position() == 0
    {
      bytes := buffer;
      at, pos := 0, 0;
    }

    /** Takes the next bits of the current byte, as an addition to a number with room for them. */
    method Get(left: nat) returns (x: nat, taken: nat)
      requires Valid() && pos < 8 && 0 < left && Position() + left <= 8 * |bytes|
      modifies this
      ensures Valid() && taken == (if 8 - old(pos) >= left then left else 8 - old(pos))
      ensures Position() == old(Position()) + taken
      ensures x == Value(Sub(Stream(bytes), old(Position()), taken) + Bits(0, left - taken))
    {
      hide Stream, Bits, Value, ShiftLeft, ShiftRight, Sub;
      var bitsLeft := 8 - pos;
      var v := ShiftLeft(bytes[at], pos) % 256;
      if bitsLeft >= left {
        StreamAt(bytes, at, pos, left);
        ExtractLast(bytes[at], pos, left);
        NoBits(Sub(Stream(bytes), 8 * at + pos, left));
        x := ShiftRight(v, 8 - left);
        pos, taken := pos + left, left;
      } else {
        StreamAt(bytes, at, pos, bitsLeft);
        ExtractSome(bytes[at], pos, left);
        x := if 8 > left then ShiftRight(v, 8 - left) else ShiftLeft(v, left - 8);
        pos, taken := 8, bitsLeft;
      }
    }

    /** unpack: the number that the next bitno bits stand for. */
    method Unpack(bitno: nat) returns (index: nat)
      requires Valid() && Position() + bitno <= 8 * |bytes|
      modifies this
      ensures Valid() && Position() == old(Position()) + bitno
      ensures index == Value(Sub(Stream(bytes), old(Position()), bitno))
      ensures index < Pow2(bitno)
    {
      hide Stream, Bits, Value, Pow2, Sub;
      index := 0;
      var left := bitno;
      ghost var start := Position();
      ghost var s := Stream(bytes);
      assert Sub(s, start, 0) + Bits(0, bitno) == Bits(0, bitno);
      ZeroValue(bitno);
      while left > 0
        invariant Valid() && Position() + left == start + bitno
        invariant index == Value(Sub(s, start, bitno - left) + Bits(0, left))
      {
        if pos == 8 {
          at, pos := at + 1, 0;
        }
        ghost var done := bitno - left;
        var x, taken := Get(left);
        ValueFill(Sub(s, start, done), Sub(s, start + done, taken), left - taken);
        SubJoin(s, start, done, taken);
        index := index + x;
        left := left - taken;
      }
      NoBits(Sub(s, start, bitno));
      BitsOfValue(Sub(s, start, bitno));
    }
  }

  lemma NoBits(b: seq<bool>)
    ensures b + Bits(0, 0) == b
  {
  }
}
