/**
 The stages of the codebook search as functions: which vectors a stage visits, how it scores
 them, and what choosing the best of them means.
 */
module SearchSpec {
  import opened Codebook
  import opened Constants
  import opened Reals
  import opened Sequences

  const LOWEST: real := -10000000.0

  // ---------- Energies and dot products ----------

  /** The sum of a[i]^2 over lo <= i < hi. */
  function EnergyRange(a: seq<real>, lo: nat, hi: nat): real
    requires lo <= hi <= |a|
    decreases hi
  {
    if lo == hi then 0.0 else EnergyRange(a, lo, hi - 1) + Times(a[hi - 1], a[hi - 1])
  }

  function Energy(v: seq<real>): real {
    EnergyRange(v, 0, |v|)
  }

  /** The sum of the first n products. */
  function DotTo(a: seq<real>, b: seq<real>, n: nat): real
    requires n <= |a| && n <= |b|
  {
    if n == 0 then 0.0 else DotTo(a, b, n - 1) + Times(a[n - 1], b[n - 1])
  }

  function Dot(a: seq<real>, b: seq<real>): real
    requires |a| == |b|
  {
    DotTo(a, b, |a|)
  }

  lemma {:induction false} EnergyFromFirst(a: seq<real>, lo: nat, hi: nat)
    requires lo < hi <= |a|
    ensures EnergyRange(a, lo, hi) == Times(a[lo], a[lo]) + EnergyRange(a, lo + 1, hi)
    decreases hi
  {
    hide Times;
    if lo + 1 < hi {
      EnergyFromFirst(a, lo, hi - 1);
    } else {
      assert EnergyRange(a, lo, hi) == EnergyRange(a, lo, lo) + Times(a[lo], a[lo]);
    }
  }

  /** Energy depends on the samples only, wherever they lie. */
  lemma {:induction false} EnergyMoved(a: seq<real>, lo: nat, b: seq<real>, lo': nat, n: nat)
    requires lo + n <= |a| && lo' + n <= |b|
    requires forall i {:trigger a[i]} :: lo <= i < lo + n ==> a[i] == b[i - lo + lo']
    ensures EnergyRange(a, lo, lo + n) == EnergyRange(b, lo', lo' + n)
    decreases n
  {
    hide Times;
    if n > 0 {
      EnergyMoved(a, lo, b, lo', n - 1);
      assert a[lo + n - 1] == b[lo' + n - 1];
    }
  }

  /** A window one sample earlier: plus the sample that comes in, minus the one that goes out. */
  lemma WindowSlides(s: seq<real>, at: nat, n: nat)
    requires at + n < |s|
    ensures Energy(Sub(s, at, n)) == Energy(Sub(s, at + 1, n)) + Times(s[at], s[at]) - Times(s[at + n], s[at + n])
  {
    hide Times, EnergyRange, Sub;
    EnergyMoved(Sub(s, at, n), 0, s, at, n);
    EnergyMoved(Sub(s, at + 1, n), 0, s, at + 1, n);
    if n == 0 {
      EnergyNone(Sub(s, at, n), Sub(s, at + 1, n));
    } else {
      EnergyFromFirst(s, at, at + n);
      EnergyLast(s, at + 1, at + n + 1);
    }
  }

  lemma EnergyLast(s: seq<real>, lo: nat, hi: nat)
    requires lo < hi <= |s|
    ensures EnergyRange(s, lo, hi) == EnergyRange(s, lo, hi - 1) + Times(s[hi - 1], s[hi - 1])
  {
    hide Times;
  }

  lemma EnergyNone(a: seq<real>, b: seq<real>)
    requires |a| == |b| == 0
    ensures Energy(a) == Energy(b) == 0.0
  {
  }

  // ---------- Scoring ----------

  /** The best candidate so far. */
  datatype Best = Best(index: nat, measure: real, gain: real)

  const NOTHING: Best := Best(0, LOWEST, 0.0)

  datatype Candidate = Candidate(index: nat, vec: seq<real>)

  function InverseEnergy(energy: real): real {
    if energy > 0.0 then 1.0 / (energy + EPS) else 0.0
  }

  /** The measure of a candidate; at the first stage a negative correlation does not compete. */
  function Measure(stage: nat, cross: real, inverse: real): real {
    if stage == 0 && cross <= 0.0 then LOWEST else Times(Times(cross, cross), inverse)
  }

  /** One step of the running maximum. */
  function Consider(b: Best, stage: nat, index: nat, cross: real, inverse: real): Best {
    var measure := Measure(stage, cross, inverse);
    var gain := Times(cross, inverse);
    if measure > b.measure && Abs(gain) < CB_MAXGAIN then Best(index, measure, gain) else b
  }

  function CrossOf(target: seq<real>, c: Candidate): real
    requires |target| == |c.vec|
  {
    Dot(target, c.vec)
  }

  function MeasureOf(stage: nat, target: seq<real>, c: Candidate): real
    requires |target| == |c.vec|
  {
    Measure(stage, CrossOf(target, c), InverseEnergy(Energy(c.vec)))
  }

  function GainOf(target: seq<real>, c: Candidate): real
    requires |target| == |c.vec|
  {
    Times(CrossOf(target, c), InverseEnergy(Energy(c.vec)))
  }

  function ConsiderCandidate(b: Best, stage: nat, target: seq<real>, c: Candidate): Best
    requires |target| == |c.vec|
  {
    Consider(b, stage, c.index, CrossOf(target, c), InverseEnergy(Energy(c.vec)))
  }

  ghost predicate AllOfLength(cands: seq<Candidate>, n: nat) {
    forall i :: 0 <= i < |cands| ==> |cands[i].vec| == n
  }

  /** The running maximum over the first n candidates. */
  function Visit(b: Best, stage: nat, target: seq<real>, cands: seq<Candidate>, n: nat): Best
    requires n <= |cands| && AllOfLength(cands, |target|)
  {
    if n == 0 then b else ConsiderCandidate(Visit(b, stage, target, cands, n - 1), stage, target, cands[n - 1])
  }

  // ---------- What a stage visits ----------

  /** The plain vectors of a section, in the order of the index. */
  function PlainCandidates(mem: seq<real>, len: nat, first: nat, from: nat, n: nat): (c: seq<Candidate>)
    requires len + from + n <= |mem| + 1
    ensures |c| == n && AllOfLength(c, len)
  {
    seq(n, i requires 0 <= i < n => Candidate(first + from + i, Sub(mem, |mem| - len - from - i, len)))
  }

  /** The interpolated vectors of lags low to high - 1, numbered from startIndex for lag 20. */
  function AugmentedCandidates(mem: seq<real>, startIndex: nat, low: nat, high: nat): (c: seq<Candidate>)
    requires 20 <= low <= high <= SUBL && 2 * (SUBL - 1) <= |mem|
    ensures |c| == high - low && AllOfLength(c, SUBL)
  {
    var c := seq(high - low, i requires 0 <= i < high - low =>
      Candidate(startIndex + low + i - 20, Augmented(mem, low + i)));
    assert forall i :: 0 <= i < |c| ==> c[i].vec == Augmented(mem, low + i);
    c
  }

  /** The search window of the filtered section: [from, to) of the plain vectors, lags [low, high) if any. */
  datatype Window = Window(from: nat, to: nat, low: nat, high: nat)

  /** The restricted range around the best index of the first section, as iCBSearch limits it. */
  function Restricted(best: nat, baseSize: nat, range: nat, lTarget: nat): (w: Window)
    requires CB_RESRANGE <= range <= baseSize && best < baseSize
    requires lTarget == SUBL ==> range <= baseSize - 20 && (best < range || baseSize - 20 <= best)
    requires lTarget != SUBL ==> best < range
    ensures w.from <= w.to <= range && (w.low == w.high == 0 || 20 <= w.low < w.high <= SUBL)
    ensures lTarget != SUBL ==> w.low == 0
    ensures (w.to - w.from) + (w.high - w.low) == CB_RESRANGE
  {
    var s: int := best - CB_RESRANGE / 2;
    var e: int := s + CB_RESRANGE;
    if lTarget == SUBL then
      if s < 0 then Window(0, e, 40 + s, 40)
      else if best < baseSize - 20 then
        (if e > range then Window(s - (e - range), range, 0, 0) else Window(s, e, 0, 0))
      else if s < baseSize - 20 then Window(0, 14, 20, 40)
      else
        var low := 20 + s - (baseSize - 20);
        Window(0, CB_RESRANGE - (40 - low), low, 40)
    else
      var s1, e1 := if s < 0 then 0 else s, if s < 0 then e - s else e;
      if e1 > range then Window(s1 - (e1 - range), range, 0, 0) else Window(s1, e1, 0, 0)
  }

  /** The window always holds the neighbourhood of the best vector found so far: its filtered counterpart is in it. */
  lemma WindowHoldsBest(best: nat, baseSize: nat, range: nat, lTarget: nat)
    requires CB_RESRANGE <= range <= baseSize && best < baseSize
    requires lTarget == SUBL ==> range <= baseSize - 20 && (best < range || baseSize - 20 <= best)
    requires lTarget != SUBL ==> best < range
    ensures var w := Restricted(best, baseSize, range, lTarget);
            if lTarget == SUBL && baseSize - 20 <= best
            then w.low <= best - (baseSize - 20) + 20 < w.high
            else w.from <= best < w.to
  {
  }

  // ---------- A whole stage ----------

  /** The candidates of a stage in the order visited, given the best of the first section. */
  function FirstSection(mem: seq<real>, len: nat, range: nat): (c: seq<Candidate>)
    requires Suits(|mem|, len) && range <= Plain(|mem|, len)
    ensures AllOfLength(c, len)
  {
    if len == SUBL
    then PlainCandidates(mem, len, 0, 0, range) + AugmentedCandidates(mem, BaseSize(|mem|, len) - 20, 20, SUBL)
    else PlainCandidates(mem, len, 0, 0, range)
  }

  function SecondSection(mem: seq<real>, len: nat, w: Window): (c: seq<Candidate>)
    requires Suits(|mem|, len) && w.from <= w.to <= Plain(|mem|, len)
    requires w.low == w.high == 0 || (len == SUBL && 20 <= w.low < w.high <= SUBL)
    ensures AllOfLength(c, len)
  {
    var base := BaseSize(|mem|, len);
    var plain := PlainCandidates(Filtered(mem), len, base, w.from, w.to - w.from);
    if w.low == 0 then plain
    else plain + AugmentedCandidates(Filtered(mem), 2 * base - 20, w.low, w.high)
  }

  /** The search ranges that fit a memory: those of the source's table do. */
  predicate RangeFits(lMem: nat, len: nat, range: nat) {
    Suits(lMem, len) && CB_RESRANGE <= range <= Plain(lMem, len)
  }

  function FirstBest(stage: nat, range: nat, target: seq<real>, mem: seq<real>): Best
    requires RangeFits(|mem|, |target|, range)
  {
    var c := FirstSection(mem, |target|, range);
    Visit(NOTHING, stage, target, c, |c|)
  }

  /** An index a stage can end with: in one of the four parts of the layout. */
  predicate Reachable(index: nat, lMem: nat, len: nat, range: nat)
    requires Suits(lMem, len)
  {
    var base := BaseSize(lMem, len);
    || index < range || base <= index < base + range
    || (len == SUBL && (base - 20 <= index < base || 2 * base - 20 <= index < 2 * base))
  }

  // ---------- The running maximum ----------

  ghost predicate Passes(target: seq<real>, c: Candidate)
    requires |target| == |c.vec|
  {
    Abs(GainOf(target, c)) < CB_MAXGAIN
  }

  /** b records candidate c. */
  ghost predicate Records(b: Best, stage: nat, target: seq<real>, c: Candidate)
    requires |target| == |c.vec|
  {
    b == Best(c.index, MeasureOf(stage, target, c), GainOf(target, c)) && Passes(target, c)
  }

  /** Candidate i won: it passes, and no passing candidate before it measures as much. */
  ghost predicate Wins(r: Best, stage: nat, target: seq<real>, cands: seq<Candidate>, i: nat)
    requires i < |cands| && AllOfLength(cands, |target|)
  {
    && Records(r, stage, target, cands[i])
    && forall k :: 0 <= k < i && Passes(target, cands[k]) ==> MeasureOf(stage, target, cands[k]) < r.measure
  }

  /** The maximum is the start or a visited candidate, and no visited candidate that passes measures more. */
  lemma {:induction false} VisitIsMaximum(b: Best, stage: nat, target: seq<real>, cands: seq<Candidate>, n: nat)
    requires n <= |cands| && AllOfLength(cands, |target|)
    ensures var r := Visit(b, stage, target, cands, n);
            && (r == b || (b.measure < r.measure && exists i :: 0 <= i < n && Wins(r, stage, target, cands, i)))
            && forall i :: 0 <= i < n && Passes(target, cands[i]) ==> MeasureOf(stage, target, cands[i]) <= r.measure
  {
    hide Dot, EnergyRange, Measure, Times, InverseEnergy;
    if n > 0 {
      VisitIsMaximum(b, stage, target, cands, n - 1);
      var q, r := Visit(b, stage, target, cands, n - 1), Visit(b, stage, target, cands, n);
      if r != q {
        assert Wins(r, stage, target, cands, n - 1);
      }
    }
  }

  lemma {:induction false} VisitJoin(b: Best, stage: nat, target: seq<real>, c: seq<Candidate>, d: seq<Candidate>, n: nat)
    requires AllOfLength(c, |target|) && AllOfLength(d, |target|) && n <= |d|
    ensures AllOfLength(c + d, |target|)
    ensures Visit(b, stage, target, c + d, |c| + n) == Visit(Visit(b, stage, target, c, |c|), stage, target, d, n)
  {
    hide ConsiderCandidate;
    if n == 0 {
      VisitPrefix(b, stage, target, c, d, |c|);
    } else {
      VisitJoin(b, stage, target, c, d, n - 1);
    }
  }

  lemma {:induction false} VisitPrefix(b: Best, stage: nat, target: seq<real>, c: seq<Candidate>, d: seq<Candidate>, n: nat)
    requires AllOfLength(c, |target|) && AllOfLength(c + d, |target|) && n <= |c|
    ensures Visit(b, stage, target, c + d, n) == Visit(b, stage, target, c, n)
  {
    hide ConsiderCandidate;
    if n > 0 {
      VisitPrefix(b, stage, target, c, d, n - 1);
    }
  }

  // ---------- The best of a stage ----------

  /** The first section ends at an index the window is defined for. */
  lemma FirstBestIndex(stage: nat, range: nat, target: seq<real>, mem: seq<real>)
    requires RangeFits(|mem|, |target|, range)
    ensures var i, base := FirstBest(stage, range, target, mem).index, BaseSize(|mem|, |target|);
            i < range || (|target| == SUBL && base - 20 <= i < base)
  {
    hide Visit, Augmented, Sub, MeasureOf, GainOf, Passes;
    var c := FirstSection(mem, |target|, range);
    VisitIsMaximum(NOTHING, stage, target, c, |c|);
  }

  function WindowOf(stage: nat, range: nat, target: seq<real>, mem: seq<real>): (w: Window)
    requires RangeFits(|mem|, |target|, range)
    ensures w.from <= w.to <= range
    ensures w.low == w.high == 0 || (|target| == SUBL && 20 <= w.low < w.high <= SUBL)
  {
    FirstBestIndex(stage, range, target, mem);
    Restricted(FirstBest(stage, range, target, mem).index, BaseSize(|mem|, |target|), range, |target|)
  }

  /** All the candidates of a stage, in the order visited. */
  function Visited(stage: nat, range: nat, target: seq<real>, mem: seq<real>): (c: seq<Candidate>)
    requires RangeFits(|mem|, |target|, range)
    ensures AllOfLength(c, |target|)
  {
    FirstSection(mem, |target|, range) + SecondSection(mem, |target|, WindowOf(stage, range, target, mem))
  }

  function StageBest(stage: nat, range: nat, target: seq<real>, mem: seq<real>): Best
    requires RangeFits(|mem|, |target|, range)
  {
    var c := SecondSection(mem, |target|, WindowOf(stage, range, target, mem));
    Visit(FirstBest(stage, range, target, mem), stage, target, c, |c|)
  }

  /**
   What a stage finds: either nothing worth having among the vectors it visited, or the first
   of those with the largest measure among all that pass the gain bound.
   */
  lemma StageBestIsMaximum(stage: nat, range: nat, target: seq<real>, mem: seq<real>)
    requires RangeFits(|mem|, |target|, range)
    ensures var r, c := StageBest(stage, range, target, mem), Visited(stage, range, target, mem);
            && (r == NOTHING || (LOWEST < r.measure && exists i :: 0 <= i < |c| && Wins(r, stage, target, c, i)))
            && forall i :: 0 <= i < |c| && Passes(target, c[i]) ==> MeasureOf(stage, target, c[i]) <= r.measure
  {
    hide FirstSection, SecondSection, Visit, MeasureOf, WindowOf, Wins, Passes;
    var first, second := FirstSection(mem, |target|, range), SecondSection(mem, |target|, WindowOf(stage, range, target, mem));
    VisitJoin(NOTHING, stage, target, first, second, |second|);
    VisitIsMaximum(NOTHING, stage, target, first + second, |first + second|);
  }

  /** c is the codebook vector of its index, which the search may return. */
  ghost predicate InLayout(c: Candidate, mem: seq<real>, len: nat, range: nat)
    requires RangeFits(|mem|, len, range)
  {
    && c.index < 2 * BaseSize(|mem|, len)
    && Reachable(c.index, |mem|, len, range)
    && c.vec == CbVec(mem, c.index, len)
  }

  lemma FirstSectionInLayout(mem: seq<real>, len: nat, range: nat, i: nat)
    requires RangeFits(|mem|, len, range) && i < |FirstSection(mem, len, range)|
    ensures InLayout(FirstSection(mem, len, range)[i], mem, len, range)
  {
    hide Augmented, Filtered, Sub;
  }

  lemma SecondSectionInLayout(mem: seq<real>, len: nat, range: nat, w: Window, i: nat)
    requires RangeFits(|mem|, len, range) && w.from <= w.to <= range
    requires w.low == w.high == 0 || (len == SUBL && 20 <= w.low < w.high <= SUBL)
    requires i < |SecondSection(mem, len, w)|
    ensures InLayout(SecondSection(mem, len, w)[i], mem, len, range)
  {
    hide Augmented, Filtered, Sub;
  }

  /** Every candidate is the codebook vector of its index, and its index is in the layout. */
  lemma VisitedAreCodebookVectors(stage: nat, range: nat, target: seq<real>, mem: seq<real>, i: nat)
    requires RangeFits(|mem|, |target|, range) && i < |Visited(stage, range, target, mem)|
    ensures InLayout(Visited(stage, range, target, mem)[i], mem, |target|, range)
  {
    hide FirstSection, InLayout, SecondSection, WindowOf;
    var first := FirstSection(mem, |target|, range);
    if i < |first| {
      FirstSectionInLayout(mem, |target|, range, i);
    } else {
      SecondSectionInLayout(mem, |target|, range, WindowOf(stage, range, target, mem), i - |first|);
    }
  }

  /** Whatever the signal, a stage ends inside the layout. */
  lemma StageBestIsReachable(stage: nat, range: nat, target: seq<real>, mem: seq<real>)
    requires RangeFits(|mem|, |target|, range)
    ensures var i := StageBest(stage, range, target, mem).index;
            i < 2 * BaseSize(|mem|, |target|) && Reachable(i, |mem|, |target|, range)
  {
    hide MeasureOf, Passes, StageBest, Visited;
    StageBestIsMaximum(stage, range, target, mem);
    var r := StageBest(stage, range, target, mem);
    if r != NOTHING {
      var c := Visited(stage, range, target, mem);
      var i :| 0 <= i < |c| && Wins(r, stage, target, c, i);
      VisitedAreCodebookVectors(stage, range, target, mem, i);
    }
  }
}
