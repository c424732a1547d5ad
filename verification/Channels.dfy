/**
 coding_expand and coding_reduce: a buffer of samples of several bytes each, turned in place
 from one channel to several and back.
 */
module Channels {
  import opened Sequences

  // ---------- Arithmetic of positions ----------

  lemma TimesGrows(m: nat, n: nat, b: nat)
    requires m <= n
    ensures 0 <= m * b <= n * b
  {
    assert n * b == m * b + (n - m) * b;
  }

  lemma Swap(x: nat, y: nat, z: nat)
    ensures x * y * z == x * z * y && x * y * z == x * (y * z)
  {
  }

  lemma Distribute(x: nat, y: nat, z: nat)
    ensures (x + y) * z == x * z + y * z && 0 <= x * z && 0 <= y * z
  {
  }

  lemma SampleInside(k: nat, n: nat, b: nat)
    requires k < n
    ensures 0 <= k * b && k * b + b == (k + 1) * b <= n * b
  {
    TimesGrows(k + 1, n, b);
  }

  lemma DivisionIs(x: nat, q: nat, r: nat, b: nat)
    requires r < b && x == q * b + r
    ensures x / b == q && x % b == r
  {
    var d := x / b;
    assert x == d * b + x % b;
    if d < q {
      TimesGrows(d + 1, q, b);
      assert false;
    } else if d > q {
      TimesGrows(q + 1, d, b);
      assert false;
    }
  }

  lemma QuotientInside(x: nat, n: nat, b: nat)
    requires b > 0 && x < n * b
    ensures 0 <= x / b < n && 0 <= x % b < b && x == x / b * b + x % b
  {
    if x / b >= n {
      TimesGrows(n, x / b, b);
      assert false;
    }
  }

  // ---------- Samples ----------

  /** Sample k of a buffer of samples of b bytes. */
  function Sample<T>(s: seq<T>, b: nat, k: nat): seq<T> {
    if 0 <= k * b && k * b + b <= |s| then Sub(s, k * b, b) else []
  }

  lemma SampleIs<T>(s: seq<T>, n: nat, b: nat, k: nat)
    requires n * b <= |s| && k < n
    ensures 0 <= k * b && k * b + b <= |s| && Sample(s, b, k) == Sub(s, k * b, b)
  {
    SampleInside(k, n, b);
  }

  /** Two different samples have no byte in common. */
  lemma SamplesApart(k: nat, m: nat, b: nat)
    requires k != m
    ensures k * b + b <= m * b || m * b + b <= k * b
  {
    if k < m {
      SampleInside(k, m, b);
    } else {
      SampleInside(m, k, b);
    }
  }

  /** Buffers with the same samples are the same. */
  lemma SamplesTell<T>(s: seq<T>, t: seq<T>, n: nat, b: nat)
    requires b > 0 && 0 <= n * b && n * b <= |s| && n * b <= |t|
    requires forall k {:trigger Sample(s, b, k)} :: 0 <= k < n ==> Sample(s, b, k) == Sample(t, b, k)
    ensures Sub(s, 0, n * b) == Sub(t, 0, n * b)
  {
    hide Sub, Sample;
    forall i | 0 <= i < n * b
      ensures s[i] == t[i]
    {
      var k := i / b;
      QuotientInside(i, n, b);
      SampleIs(s, n, b, k);
      SampleIs(t, n, b, k);
      assert Sample(s, b, k)[i % b] == Sample(t, b, k)[i % b];
    }
  }

  // ---------- Specification ----------

  /** now has every one of the n samples of was f times in a row. */
  ghost predicate Repeated<T>(now: seq<T>, was: seq<T>, n: nat, b: nat, f: nat) {
    && f > 0 && n * f * b <= |now| && n * b <= |was|
    && forall k {:trigger Sample(now, b, k)} :: 0 <= k < n * f ==> Sample(now, b, k) == Sample(was, b, k / f)
  }

  /** now has the first of every f of the samples of was. */
  ghost predicate Thinned<T>(now: seq<T>, was: seq<T>, n: nat, b: nat, f: nat) {
    && f > 0 && n * b <= |now| && n * f * b <= |was|
    && forall k {:trigger Sample(now, b, k)} :: 0 <= k < n ==> 0 <= k * f && Sample(now, b, k) == Sample(was, b, k * f)
  }

  /** Reducing an expanded buffer gives the buffer back. */
  lemma ReduceUndoesExpand<T>(last: seq<T>, middle: seq<T>, first: seq<T>, n: nat, b: nat, f: nat)
    requires b > 0 && Repeated(middle, first, n, b, f) && Thinned(last, middle, n, b, f)
    ensures 0 <= n * b && n * b <= |first| && n * b <= |last| && Sub(last, 0, n * b) == Sub(first, 0, n * b)
  {
    hide Sample, Sub;
    forall k {:trigger Sample(last, b, k)} | 0 <= k < n
      ensures Sample(last, b, k) == Sample(first, b, k)
    {
      SampleInside(k, n, f);
      DivisionIs(k * f, k, 0, f);
      assert Sample(middle, b, k * f) == Sample(first, b, k);
    }
    TimesGrows(0, n, b);
    SamplesTell(last, first, n, b);
  }

  // ---------- One sample ----------

  /** memcpy of b bytes, to another sample or onto themselves. */
  method CopyBytes<T>(buf: array<T>, dst: nat, src: nat, b: nat)
    requires dst + b <= buf.Length && src + b <= buf.Length && (dst == src || dst + b <= src || src + b <= dst)
    modifies buf
    ensures forall i {:trigger buf[i]} :: 0 <= i < buf.Length ==>
              buf[i] == if dst <= i < dst + b then old(buf[i - dst + src]) else old(buf[i])
  {
    for x := 0 to b
      invariant forall i {:trigger buf[i]} :: 0 <= i < buf.Length ==>
                  buf[i] == if dst <= i < dst + x then old(buf[i - dst + src]) else old(buf[i])
    {
      buf[dst + x] := buf[src + x];
    }
  }

  lemma SampleCopied<T>(now: seq<T>, was: seq<T>, dst: nat, src: nat, b: nat, k: nat, m: nat, i: nat)
    requires dst == k * b && src == m * b && dst + b <= |was| && src + b <= |was| && |now| == |was|
    requires forall x {:trigger now[x]} :: 0 <= x < |now| ==> now[x] == if dst <= x < dst + b then was[x - dst + src] else was[x]
    ensures Sample(now, b, i) == Sample(was, b, if i == k then m else i)
  {
    hide Sub;
    if i != k {
      SamplesApart(i, k, b);
    }
  }

  /** memcpy of one sample, possibly onto itself. */
  method CopySample<T>(buf: array<T>, dst: nat, src: nat, b: nat, ghost k: nat, ghost m: nat)
    requires dst == k * b && src == m * b && dst + b <= buf.Length && src + b <= buf.Length
    modifies buf
    ensures forall i: nat {:trigger Sample(buf[..], b, i)} ::
              Sample(buf[..], b, i) == old(Sample(buf[..], b, if i == k then m else i))
    ensures forall x {:trigger buf[x]} :: 0 <= x < buf.Length && !(dst <= x < dst + b) ==> buf[x] == old(buf[x])
  {
    hide Sample;
    if k != m {
      SamplesApart(k, m, b);
    }
    ghost var was := buf[..];
    CopyBytes(buf, dst, src, b);
    forall i: nat {:trigger Sample(buf[..], b, i)} | true
      ensures Sample(buf[..], b, i) == Sample(was, b, if i == k then m else i)
    {
      SampleCopied(buf[..], was, dst, src, b, k, m, i);
    }
  }

  // ---------- coding_expand ----------

  lemma CopyAt(i: nat, q: nat, j: nat, b: nat, f: nat, qf: nat, nf: nat)
    requires j < f && i == q * b && qf == q * f && qf + f <= nf
    ensures 0 <= i * f && 0 <= j * b && i * f + j * b == (qf + j) * b && i * f + j * b + b <= nf * b && i + b <= nf * b
    ensures q <= qf
  {
    Swap(q, b, f);
    Distribute(qf, j, b);
    SampleInside(qf + j, nf, b);
    TimesGrows(1, f, q);
    SampleInside(q, nf, b);
  }

  /** The inner loop of coding_expand: all copies of sample q, the last one first. */
  method RepeatSample<T>(buf: array<T>, i: nat, byS: nat, factor: nat, ghost q: nat, ghost qf: nat, ghost nf: nat)
    requires factor > 0 && i == q * byS && qf == q * factor && qf + factor <= nf && nf * byS <= buf.Length
    modifies buf
    ensures forall k: nat {:trigger Sample(buf[..], byS, k)} ::
              Sample(buf[..], byS, k) == old(Sample(buf[..], byS, if qf <= k < qf + factor then q else k))
    ensures forall x {:trigger buf[x]} :: nf * byS <= x < buf.Length ==> buf[x] == old(buf[x])
  {
    hide Sample;
    var j := factor;
    while j > 0
      invariant 0 <= j <= factor
      invariant forall k: nat {:trigger Sample(buf[..], byS, k)} ::
                  Sample(buf[..], byS, k) == old(Sample(buf[..], byS, if qf + j <= k < qf + factor then q else k))
      invariant forall x {:trigger buf[x]} :: nf * byS <= x < buf.Length ==> buf[x] == old(buf[x])
    {
      j := j - 1;
      CopyAt(i, q, j, byS, factor, qf, nf);
      CopySample(buf, i * factor + j * byS, i, byS, qf + j, q);
    }
  }

  /** The state of coding_expand with p samples to go. */
  ghost predicate Expanding<T>(now: seq<T>, was: seq<T>, p: nat, n: nat, b: nat, f: nat)
    requires f > 0
  {
    && (forall k {:trigger Sample(now, b, k)} :: 0 <= k < p ==> Sample(now, b, k) == Sample(was, b, k))
    && (forall k {:trigger Sample(now, b, k)} :: p * f <= k < n * f ==> 0 <= k && Sample(now, b, k) == Sample(was, b, k / f))
  }

  lemma OneMoreExpanded<T>(now: seq<T>, before: seq<T>, was: seq<T>, q: nat, n: nat, b: nat, f: nat)
    requires f > 0 && q < n && Expanding(before, was, q + 1, n, b, f)
    requires forall k: nat {:trigger Sample(now, b, k)} ::
               Sample(now, b, k) == Sample(before, b, if q * f <= k < q * f + f then q else k)
    ensures Expanding(now, was, q, n, b, f)
  {
    hide Sample;
    SampleInside(q, n, f);
    TimesGrows(1, f, q);
    forall k {:trigger Sample(now, b, k)} | q * f <= k < n * f
      ensures Sample(now, b, k) == Sample(was, b, k / f)
    {
      if k < q * f + f {
        DivisionIs(k, q, k - q * f, f);
        assert Sample(before, b, q) == Sample(was, b, q);
      } else {
        assert Sample(before, b, k) == Sample(was, b, k / f);
      }
    }
    forall k {:trigger Sample(now, b, k)} | 0 <= k < q
      ensures Sample(now, b, k) == Sample(was, b, k)
    {
      assert Sample(before, b, k) == Sample(was, b, k);
    }
  }

  lemma SizesAre(len: nat, n: nat, b: nat, f: nat)
    requires b > 0 && len % b == 0 && n == len / b
    ensures len == n * b && n * f * b == len * f
  {
    assert len == n * b;
    Swap(n, b, f);
  }

  lemma StepBack(p: nat, b: nat)
    requires b > 0
    ensures if p > 0 then p * b - b == (p - 1) * b >= 0 else p * b - b < 0
  {
    if p > 0 {
      SampleInside(p - 1, p, b);
    }
  }

  /** coding_expand: backwards, so that no sample is overwritten before it has been copied. */
  method CodingExpand<T>(buf: array<T>, len: nat, byS: nat, factor: nat) returns (newLen: nat)
    requires byS > 0 && factor > 0 && len % byS == 0 && len * factor <= buf.Length
    modifies buf
    ensures newLen == len * factor && Repeated(buf[..], old(buf[..]), len / byS, byS, factor)
    ensures forall x {:trigger buf[x]} :: len * factor <= x < buf.Length ==> buf[x] == old(buf[x])
  {
    hide Expanding, Repeated, Sample;
    ghost var n, was := len / byS, buf[..];
    SizesAre(len, n, byS, factor);
    ghost var p := n;
    NothingExpanded(was, n, byS, factor);
    var i: int := len - byS;
    while i >= 0
      invariant 0 <= p <= n && i == p * byS - byS && Expanding(buf[..], was, p, n, byS, factor)
      invariant forall x {:trigger buf[x]} :: len * factor <= x < buf.Length ==> buf[x] == was[x]
      decreases i
    {
      StepBack(p, byS);
      p := p - 1;
      ghost var before := buf[..];
      SampleInside(p, n, factor);
      RepeatSample(buf, i, byS, factor, p, p * factor, n * factor);
      OneMoreExpanded(buf[..], before, was, p, n, byS, factor);
      i := i - byS;
    }
    StepBack(p, byS);
    AllExpanded(buf[..], was, n, byS, factor);
    newLen := len * factor;
  }

  lemma NothingExpanded<T>(was: seq<T>, n: nat, b: nat, f: nat)
    requires f > 0
    ensures Expanding(was, was, n, n, b, f)
  {
  }

  lemma AllExpanded<T>(now: seq<T>, was: seq<T>, n: nat, b: nat, f: nat)
    requires f > 0 && Expanding(now, was, 0, n, b, f) && |now| == |was| && n * f * b <= |now|
    ensures Repeated(now, was, n, b, f)
  {
    TimesGrows(1, f, n);
    TimesGrows(n, n * f, b);
  }

  // ---------- coding_reduce ----------

  /** The state of coding_reduce with m samples in place. */
  ghost predicate Reducing<T>(now: seq<T>, was: seq<T>, m: nat, b: nat, f: nat) {
    && (forall k: nat {:trigger Sample(now, b, k)} :: m * f <= k ==> Sample(now, b, k) == Sample(was, b, k))
    && (forall k: nat {:trigger Sample(now, b, k)} :: k < m ==> 0 <= k * f && Sample(now, b, k) == Sample(was, b, k * f))
  }

  lemma OneMoreReduced<T>(now: seq<T>, before: seq<T>, was: seq<T>, m: nat, b: nat, f: nat)
    requires f > 0 && Reducing(before, was, m, b, f) && 0 <= m * f
    requires forall k: nat {:trigger Sample(now, b, k)} :: Sample(now, b, k) == Sample(before, b, if k == m then m * f else k)
    ensures Reducing(now, was, m + 1, b, f)
  {
    hide Sample;
    TimesGrows(1, f, m);
    assert (m + 1) * f == m * f + f;
    forall k: nat {:trigger Sample(now, b, k)} | (m + 1) * f <= k
      ensures Sample(now, b, k) == Sample(was, b, k)
    {
      assert Sample(before, b, k) == Sample(was, b, k);
    }
    forall k: nat {:trigger Sample(now, b, k)} | k < m + 1
      ensures 0 <= k * f && Sample(now, b, k) == Sample(was, b, k * f)
    {
      assert if k == m then Sample(before, b, m * f) == Sample(was, b, m * f) else Sample(before, b, k) == Sample(was, b, k * f);
    }
  }

  /** Where the loop stands after m samples. */
  lemma StepOn(m: nat, n: nat, b: nat, f: nat, mf: nat, nf: nat)
    requires b > 0 && f > 0 && mf == m * f && nf == n * f
    ensures mf * b < nf * b <==> m < n
    ensures m < n ==> 0 <= mf * b && mf * b / f == m * b && m * b + b <= nf * b && mf * b + b <= nf * b
    ensures 0 <= b * f && mf + f == (m + 1) * f && mf * b + b * f == (mf + f) * b
  {
    Swap(m, f, b);
    Distribute(m, 1, f);
    Distribute(mf, f, b);
    if m < n {
      SampleInside(m, n, f);
      TimesGrows(1, f, m);
      SampleInside(mf, nf, b);
      SampleInside(m, nf, b);
      DivisionIs(mf * b, m * b, 0, f);
    } else {
      TimesGrows(n, m, f);
      TimesGrows(nf, mf, b);
    }
  }

  /** One round of coding_reduce. */
  method MoveSample<T>(buf: array<T>, i: nat, byS: nat, factor: nat, ghost m: nat, ghost n: nat, ghost mf: nat, ghost was: seq<T>)
    requires byS > 0 && factor > 0 && m < n && mf == m * factor && i == mf * byS && n * factor * byS <= buf.Length
    requires Reducing(buf[..], was, m, byS, factor)
    modifies buf
    ensures Reducing(buf[..], was, m + 1, byS, factor)
  {
    hide Reducing, Sample;
    StepOn(m, n, byS, factor, mf, n * factor);
    ghost var before := buf[..];
    CopySample(buf, i / factor, i, byS, m, mf);
    OneMoreReduced(buf[..], before, was, m, byS, factor);
  }

  /** coding_reduce: forwards, every first copy to its place. */
  method CodingReduce<T>(buf: array<T>, len: nat, byS: nat, factor: nat) returns (newLen: nat)
    requires byS > 0 && factor > 0 && len % factor == 0 && len / factor % byS == 0 && len <= buf.Length
    modifies buf
    ensures newLen == len / factor && Thinned(buf[..], old(buf[..]), len / factor / byS, byS, factor)
  {
    hide Reducing, Thinned;
    newLen := len / factor;
    ghost var n, was := newLen / byS, buf[..];
    ReducedSizes(len, newLen, n, byS, factor);
    ghost var m, mf := 0, 0;
    NothingReduced(was, byS, factor);
    var i := 0;
    while i < len
      invariant 0 <= m <= n && mf == m * factor && i == mf * byS
      invariant Reducing(buf[..], was, m, byS, factor)
      decreases len - i
    {
      StepOn(m, n, byS, factor, mf, n * factor);
      MoveSample(buf, i, byS, factor, m, n, mf, was);
      m, mf, i := m + 1, mf + factor, i + byS * factor;
    }
    StepOn(m, n, byS, factor, mf, n * factor);
    AllReduced(buf[..], was, n, byS, factor);
  }

  lemma ReducedSizes(len: nat, newLen: nat, n: nat, b: nat, f: nat)
    requires b > 0 && f > 0 && len % f == 0 && newLen == len / f && newLen % b == 0 && n == newLen / b
    ensures 0 <= n * f && len == n * f * b
  {
    assert len == newLen * f;
    SizesAre(newLen, n, b, f);
  }

  lemma NothingReduced<T>(was: seq<T>, b: nat, f: nat)
    ensures Reducing(was, was, 0, b, f)
  {
  }

  lemma AllReduced<T>(now: seq<T>, was: seq<T>, n: nat, b: nat, f: nat)
    requires f > 0 && Reducing(now, was, n, b, f) && |now| == |was| && n * f * b <= |now|
    ensures Thinned(now, was, n, b, f)
  {
    TimesGrows(1, f, n);
    TimesGrows(n, n * f, b);
  }
}
