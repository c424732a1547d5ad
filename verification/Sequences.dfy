/** Parts of sequences, by position and length. */
module Sequences {

  /** The n elements of s from position `at` on. */
  function Sub<T>(s: seq<T>, at: nat, n: nat): (r: seq<T>)
    requires at + n <= |s|
    ensures |r| == n
    ensures forall k {:trigger r[k]} :: 0 <= k < n ==> r[k] == s[at + k]
  {
    s[at..at + n]
  }

  lemma SubAll<T>(s: seq<T>)
    ensures Sub(s, 0, |s|) == s
  {
  }

  lemma SubSub<T>(s: seq<T>, at: nat, n: nat, i: nat, m: nat)
    requires at + n <= |s| && i + m <= n
    ensures Sub(Sub(s, at, n), i, m) == Sub(s, at + i, m)
  {
    hide Sub;
  }

  lemma SubJoin<T>(s: seq<T>, at: nat, m: nat, n: nat)
    requires at + m + n <= |s|
    ensures Sub(s, at, m) + Sub(s, at + m, n) == Sub(s, at, m + n)
  {
    hide Sub;
  }

  lemma SubLeft<T>(s: seq<T>, t: seq<T>, at: nat, n: nat)
    requires at + n <= |s|
    ensures Sub(s + t, at, n) == Sub(s, at, n)
  {
    hide Sub;
  }

  lemma SubRight<T>(s: seq<T>, t: seq<T>, at: nat, n: nat)
    requires at + n <= |t|
    ensures Sub(s + t, |s| + at, n) == Sub(t, at, n)
  {
    hide Sub;
  }

  // ---------- Runs of parts ----------

  /** The first n parts, one after the other. */
  function Concat<T>(parts: seq<seq<T>>, n: nat): seq<T>
    requires n <= |parts|
  {
    if n == 0 then [] else Concat(parts, n - 1) + parts[n - 1]
  }

  /** The sum of the first n lengths. */
  function SumTo(lens: seq<nat>, n: nat): nat
    requires n <= |lens|
  {
    if n == 0 then 0 else SumTo(lens, n - 1) + lens[n - 1]
  }

  ghost predicate HaveLengths<T>(parts: seq<seq<T>>, lens: seq<nat>) {
    |parts| == |lens| && forall i :: 0 <= i < |parts| ==> |parts[i]| == lens[i]
  }

  /** s cut into pieces of the given lengths. */
  function Cut<T>(s: seq<T>, lens: seq<nat>): (parts: seq<seq<T>>)
    requires SumTo(lens, |lens|) <= |s|
    ensures |parts| == |lens|
  {
    SumMonotonicAll(lens);
    seq(|lens|, i requires 0 <= i < |lens| => Sub(s, SumTo(lens, i), lens[i]))
  }

  lemma {:induction false} SumMonotonic(lens: seq<nat>, m: nat, n: nat)
    requires m <= n <= |lens|
    ensures SumTo(lens, m) <= SumTo(lens, n)
  {
    if m < n {
      SumMonotonic(lens, m, n - 1);
    }
  }

  lemma SumStep(lens: seq<nat>, i: nat)
    requires i < |lens|
    ensures SumTo(lens, i) + lens[i] == SumTo(lens, i + 1) <= SumTo(lens, |lens|)
  {
    SumMonotonic(lens, i + 1, |lens|);
  }

  lemma SumMonotonicAll(lens: seq<nat>)
    ensures forall i :: 0 <= i < |lens| ==> SumTo(lens, i) + lens[i] <= SumTo(lens, |lens|)
  {
    forall i | 0 <= i < |lens|
      ensures SumTo(lens, i) + lens[i] <= SumTo(lens, |lens|)
    {
      SumMonotonic(lens, i + 1, |lens|);
    }
  }

  lemma {:induction false} LengthOfConcat<T>(parts: seq<seq<T>>, lens: seq<nat>, n: nat)
    requires HaveLengths(parts, lens) && n <= |parts|
    ensures |Concat(parts, n)| == SumTo(lens, n)
  {
    if n > 0 {
      LengthOfConcat(parts, lens, n - 1);
    }
  }

  /** A part of a run, where its length says it is. */
  lemma {:induction false} PartOfConcat<T>(parts: seq<seq<T>>, lens: seq<nat>, i: nat, n: nat)
    requires HaveLengths(parts, lens) && i < n <= |parts|
    ensures SumTo(lens, i) + lens[i] <= |Concat(parts, n)|
    ensures Sub(Concat(parts, n), SumTo(lens, i), lens[i]) == parts[i]
  {
    LengthOfConcat(parts, lens, n - 1);
    var c, p := Concat(parts, n - 1), parts[n - 1];
    assert Concat(parts, n) == c + p;
    hide Concat, Sub;
    if i < n - 1 {
      PartOfConcat(parts, lens, i, n - 1);
      SubLeft(c, p, SumTo(lens, i), lens[i]);
    } else {
      SubRight(c, p, 0, lens[i]);
      SubAll(p);
    }
  }

  /** Cutting a run of parts gives the parts, whatever follows the run. */
  lemma CutOfConcat<T>(parts: seq<seq<T>>, lens: seq<nat>, tail: seq<T>)
    requires HaveLengths(parts, lens)
    ensures SumTo(lens, |lens|) == |Concat(parts, |parts|)|
    ensures Cut(Concat(parts, |parts|) + tail, lens) == parts
  {
    LengthOfConcat(parts, lens, |parts|);
    hide Concat, Sub;
    var s := Concat(parts, |parts|);
    forall i | 0 <= i < |parts|
      ensures Cut(s + tail, lens)[i] == parts[i]
    {
      PartOfConcat(parts, lens, i, |parts|);
      SubLeft(s, tail, SumTo(lens, i), lens[i]);
    }
  }

  /** Putting the pieces of s together again. */
  lemma {:induction false} ConcatOfCut<T>(s: seq<T>, lens: seq<nat>, n: nat)
    requires n <= |lens| && SumTo(lens, |lens|) <= |s|
    ensures SumTo(lens, n) <= |s|
    ensures Concat(Cut(s, lens), n) == Sub(s, 0, SumTo(lens, n))
  {
    SumMonotonic(lens, n, |lens|);
    if n > 0 {
      var c := Cut(s, lens);
      assert Concat(c, n) == Concat(c, n - 1) + c[n - 1];
      assert c[n - 1] == Sub(s, SumTo(lens, n - 1), lens[n - 1]);
      ConcatOfCut(s, lens, n - 1);
      hide Concat, Sub, Cut;
      SubJoin(s, 0, SumTo(lens, n - 1), lens[n - 1]);
    }
  }
}
