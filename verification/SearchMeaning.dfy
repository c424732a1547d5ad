/**
 What the codebook search sends means to a decoder: the gains it subtracted with are the gains
 the indices stand for, and the vector it accumulated is the one a decoder builds of them.
 */
module SearchMeaning {
  import opened Codebook
  import opened Constants
  import opened Correlations
  import opened Quantisers
  import opened Reals
  import opened ResidualSpec
  import opened SearchSpec
  import opened Sequences
  import opened StagedSearch

  /** The record of a whole search. */
  ghost predicate Whole(t: Trace, block: nat, buf: seq<real>)
    requires |buf| == MemoryOf(block)
  {
    |t.targets| > 0 && Faithful(t, block, buf, t.targets[0], CB_NSTAGES)
  }

  lemma StageAt(t: Trace, block: nat, buf: seq<real>, s: nat)
    requires |buf| == MemoryOf(block) && Whole(t, block, buf) && s < CB_NSTAGES
    ensures StageOf(t, block, buf, s)
  {
    hide StageOf;
  }

  lemma IndicesFit(t: Trace, block: nat, buf: seq<real>)
    requires |buf| == MemoryOf(block) && Whole(t, block, buf)
    ensures Constructible(t.index, t.gainIndex, |buf|, LengthOf(block))
  {
    hide StageBest, GainErrors, GainDequant, FirstMinimum, Minus, CbVec, BaseSize;
    RangesFit(block, 0);
    forall s | 0 <= s < CB_NSTAGES
      ensures t.index[s] < 2 * BaseSize(|buf|, LengthOf(block)) && t.gainIndex[s] < GainLevels(s)
    {
      StageAt(t, block, buf, s);
    }
    assert t.gainIndex[0] < GainLevels(0) && t.gainIndex[1] < GainLevels(1) && t.gainIndex[2] < GainLevels(2);
  }

  lemma GainAt(t: Trace, block: nat, buf: seq<real>, s: nat)
    requires |buf| == MemoryOf(block) && Whole(t, block, buf) && s < CB_NSTAGES
    ensures t.gainIndex[s] < GainLevels(s) && t.gains[s] == GainDequant(t.gainIndex[s], Reference(s, t.gains), GainLevels(s))
  {
    hide StageBest, GainErrors, GainDequant, FirstMinimum, Minus, CbVec, BaseSize, Reference;
    StageAt(t, block, buf, s);
  }

  /** The gains of the three stages are those a decoder makes of the gain indices. */
  lemma GainsAreDecoded(t: Trace, block: nat, buf: seq<real>)
    requires |buf| == MemoryOf(block) && Whole(t, block, buf)
    ensures Constructible(t.index, t.gainIndex, |buf|, LengthOf(block))
    ensures Gain0(t.gainIndex) == t.gains[0] && Gain1(t.gainIndex) == t.gains[1] && Gain2(t.gainIndex) == t.gains[2]
  {
    hide Constructible, GainDequant, StageOf, BaseSize;
    IndicesFit(t, block, buf);
    GainAt(t, block, buf, 0);
    GainAt(t, block, buf, 1);
    GainAt(t, block, buf, 2);
  }

  lemma TargetAt(t: Trace, block: nat, buf: seq<real>, s: nat, j: nat)
    requires |buf| == MemoryOf(block) && Whole(t, block, buf) && s < CB_NSTAGES && j < LengthOf(block)
    ensures Suits(|buf|, LengthOf(block)) && t.index[s] < 2 * BaseSize(|buf|, LengthOf(block))
    ensures t.targets[s][j] == t.targets[s + 1][j] + Times(t.gains[s], CbVec(buf, t.index[s], LengthOf(block))[j])
  {
    hide StageBest, GainErrors, GainDequant, FirstMinimum, CbVec, BaseSize, Times;
    RangesFit(block, s);
    StageAt(t, block, buf, s);
  }

  /** What the three stages took from the target is the vector a decoder builds. */
  lemma TakenIsConstructed(t: Trace, block: nat, buf: seq<real>)
    requires |buf| == MemoryOf(block) && Whole(t, block, buf)
    ensures Constructible(t.index, t.gainIndex, |buf|, LengthOf(block))
    ensures Sum(Constructed(buf, t.index, t.gainIndex, LengthOf(block)), t.targets[CB_NSTAGES]) == t.targets[0]
  {
    hide Constructible, CbVec, Gain0, Gain1, Gain2, StageOf, Times, BaseSize;
    GainsAreDecoded(t, block, buf);
    forall j | 0 <= j < LengthOf(block)
      ensures Constructed(buf, t.index, t.gainIndex, LengthOf(block))[j] + t.targets[CB_NSTAGES][j] == t.targets[0][j]
    {
      TargetAt(t, block, buf, 0, j);
      TargetAt(t, block, buf, 1, j);
      TargetAt(t, block, buf, 2, j);
    }
  }

  lemma SumCancels(v: seq<real>, w: seq<real>, x: seq<real>)
    requires |v| == |w| == |x| && Sum(v, x) == Sum(w, x)
    ensures v == w
  {
    forall j | 0 <= j < |v|
      ensures v[j] == w[j]
    {
      assert Sum(v, x)[j] == Sum(w, x)[j];
    }
  }

  /** So is the vector the search accumulated, before the adjustment of the first gain. */
  lemma AccumulatedIsConstructed(index: seq<nat>, gainIndex: seq<nat>, t: Trace, cvec: seq<real>, block: nat, buf: seq<real>)
    requires |buf| == MemoryOf(block) && SearchOutcome(index, gainIndex, t, cvec, block, buf)
    ensures Constructible(t.index, t.gainIndex, |buf|, LengthOf(block))
    ensures cvec == Constructed(buf, t.index, t.gainIndex, LengthOf(block))
  {
    hide Constructible, Constructed, Quieter, StageOf, Sum;
    TakenIsConstructed(t, block, buf);
    SumCancels(cvec, Constructed(buf, t.index, t.gainIndex, LengthOf(block)), t.targets[CB_NSTAGES]);
  }

  // ---------- The adjustment of the first gain ----------

  lemma FirstGain(i: nat)
    requires i < 32
    ensures GainDequant(i, 1.0, 32) == GainSq5()[i] > 0.0
    ensures i >= 2 ==> GainSq5()[i] >= 0.1
  {
  }

  lemma {:induction false} LevelsRise(i: nat, j: nat)
    requires i <= j < 32
    ensures GainSq5()[i] <= GainSq5()[j]
  {
    if i < j {
      LevelsRise(i, j - 1);
      LevelRises(j);
    }
  }

  lemma LevelRises(j: nat)
    requires 0 < j < 32
    ensures GainSq5()[j - 1] <= GainSq5()[j]
  {
  }

  /** A gain relative to another rises with it, as long as neither is below the smallest scale. */
  lemma RelativeGainRises(a: real, b: real, x: real, y: real, level: nat, cblen: nat)
    requires cblen in {8, 16, 32} && level < cblen && 0.1 <= Abs(x) <= Abs(y) && 0.0 < a <= b
    requires Times(a, y) == Times(b, x)
    ensures Times(a, GainDequant(level, Abs(y), cblen)) == Times(b, GainDequant(level, Abs(x), cblen))
  {
    hide GainSq3, GainSq4, GainSq5;
    var q := GainTable(cblen)[level];
    assert Times(a, Abs(y)) == Times(b, Abs(x));
    assert a * (Abs(y) * q) == (a * Abs(y)) * q;
    assert b * (Abs(x) * q) == (b * Abs(x)) * q;
  }

  /** All three gains rise by the same factor with the first level, unless the first two are too small to be scales. */
  lemma GainsRise(gain: seq<nat>, j: nat)
    requires |gain| == CB_NSTAGES && 2 <= gain[0] <= j < 32 && gain[1] < 16 && gain[2] < 8
    requires Abs(Gain1(gain)) >= 0.1
    ensures var a, b, adj := GainSq5()[gain[0]], GainSq5()[j], gain[0 := j];
            && Times(a, Gain0(adj)) == Times(b, Gain0(gain)) && Times(a, Gain1(adj)) == Times(b, Gain1(gain))
            && Times(a, Gain2(adj)) == Times(b, Gain2(gain))
  {
    hide GainSq3, GainSq4, GainSq5, GainDequant, Times;
    var a, b, adj := GainSq5()[gain[0]], GainSq5()[j], gain[0 := j];
    FirstGain(gain[0]);
    FirstGain(j);
    LevelsRise(gain[0], j);
    ProductSwaps(a, b);
    RelativeGainRises(a, b, a, b, gain[1], 16);
    LargerStays(a, b, Gain1(gain), Gain1(adj));
    RelativeGainRises(a, b, Gain1(gain), Gain1(adj), gain[2], 8);
  }

  lemma ProductSwaps(a: real, b: real)
    ensures Times(a, b) == Times(b, a)
  {
  }

  lemma LargerStays(a: real, b: real, x: real, y: real)
    requires 0.0 < a <= b && Times(a, y) == Times(b, x)
    ensures Abs(x) <= Abs(y)
  {
    assert a * Abs(y) == b * Abs(x);
    assert (b - a) * Abs(x) >= 0.0;
    FactorCancels(a, Abs(x), Abs(y));
  }

  lemma FactorCancels(a: real, x: real, y: real)
    requires a > 0.0 && a * x <= a * y
    ensures x <= y
  {
    var d := y - x;
    assert a * d >= 0.0;
    assert d == (a * d) / a;
  }

  lemma ProductOfSum(a: real, b: real, g: real, h: real, x: real)
    requires Times(a, h) == Times(b, g)
    ensures Times(a, Times(h, x)) == Times(b, Times(g, x))
  {
    assert a * (h * x) == (a * h) * x;
    assert b * (g * x) == (b * g) * x;
  }

  lemma TimesOverThree(a: real, x: real, y: real, z: real)
    ensures Times(a, x + y + z) == Times(a, x) + Times(a, y) + Times(a, z)
  {
  }

  /** So does the vector a decoder builds. */
  lemma VectorRises(buf: seq<real>, index: seq<nat>, gain: seq<nat>, j: nat, len: nat, k: nat)
    requires Constructible(index, gain, |buf|, len) && 2 <= gain[0] <= j < 32 && Abs(Gain1(gain)) >= 0.1 && k < len
    ensures Constructible(index, gain[0 := j], |buf|, len)
    ensures Times(GainSq5()[gain[0]], Constructed(buf, index, gain[0 := j], len)[k])
            == Times(GainSq5()[j], Constructed(buf, index, gain, len)[k])
  {
    hide GainSq5, Gain0, Gain1, Gain2, Times, CbVec, Suits, BaseSize;
    var a, b, adj := GainSq5()[gain[0]], GainSq5()[j], gain[0 := j];
    GainsRise(gain, j);
    var x, y, z := CbVec(buf, index[0], len)[k], CbVec(buf, index[1], len)[k], CbVec(buf, index[2], len)[k];
    ProductOfSum(a, b, Gain0(gain), Gain0(adj), x);
    ProductOfSum(a, b, Gain1(gain), Gain1(adj), y);
    ProductOfSum(a, b, Gain2(gain), Gain2(adj), z);
    TimesOverThree(a, Times(Gain0(adj), x), Times(Gain1(adj), y), Times(Gain2(adj), z));
    TimesOverThree(b, Times(Gain0(gain), x), Times(Gain1(gain), y), Times(Gain2(gain), z));
  }

  lemma SquareOfTimes(a: real, x: real)
    ensures Times(Square(a), Times(x, x)) == Square(Times(a, x))
  {
  }

  lemma {:induction false} EnergyRises(v: seq<real>, w: seq<real>, a: real, b: real, n: nat)
    requires n <= |v| == |w| && forall k :: 0 <= k < |v| ==> Times(a, v[k]) == Times(b, w[k])
    ensures Times(Square(a), EnergyRange(v, 0, n)) == Times(Square(b), EnergyRange(w, 0, n))
  {
    hide Times, Square;
    if n == 0 {
      TimesZero(Square(a));
      TimesZero(Square(b));
    } else {
      EnergyRises(v, w, a, b, n - 1);
      SquareOfTimes(a, v[n - 1]);
      SquareOfTimes(b, w[n - 1]);
      TimesOverThree(Square(a), EnergyRange(v, 0, n - 1), Times(v[n - 1], v[n - 1]), 0.0);
      TimesOverThree(Square(b), EnergyRange(w, 0, n - 1), Times(w[n - 1], w[n - 1]), 0.0);
      TimesZero(Square(a));
      TimesZero(Square(b));
    }
  }

  lemma SquareCancels(a: real, x: real, y: real)
    requires a > 0.0 && Times(Square(a), x) < Times(y, Square(a))
    ensures x < y
  {
    var q, d := a * a, y - x;
    assert q > 0.0;
    assert q * d > 0.0;
    assert d == (q * d) / q;
  }

  lemma SwapSquare(x: real, b: real)
    ensures Times(x, Square(b)) == Times(Square(b), x)
  {
  }

  /**
   What the adjustment is for: when it moves the first gain and the first two gains are large
   enough to be scales, the vector a decoder builds is the accumulated one, louder by the
   quotient of the levels, and still has less energy than the weighted target.
   */
  lemma AdjustedVectorIsQuieter(index: seq<nat>, gainIndex: seq<nat>, t: Trace, cvec: seq<real>, block: nat, buf: seq<real>)
    requires |buf| == MemoryOf(block) && SearchOutcome(index, gainIndex, t, cvec, block, buf)
    requires 2 <= t.gainIndex[0] < gainIndex[0] && Abs(t.gains[1]) >= 0.1
    ensures Constructible(index, gainIndex, |buf|, LengthOf(block))
    ensures var v := Constructed(buf, index, gainIndex, LengthOf(block));
            && (forall k :: 0 <= k < |v| ==> Times(GainSq5()[t.gainIndex[0]], v[k]) == Times(GainSq5()[gainIndex[0]], cvec[k]))
            && Energy(v) < Energy(t.targets[0])
  {
    hide Constructible, Constructed, StageOf, Sum, GainSq5, Gain0, Gain1, Gain2, GainDequant, Times, Square, EnergyRange;
    GainsAreDecoded(t, block, buf);
    AccumulatedIsConstructed(index, gainIndex, t, cvec, block, buf);
    var j, len := gainIndex[0], LengthOf(block);
    GainsMoved(t, gainIndex, block, buf);
    assert gainIndex == t.gainIndex[0 := j];
    Movable(buf, index, t.gainIndex, j, len);
    var v := Constructed(buf, index, gainIndex, len);
    forall k | 0 <= k < |v|
      ensures Times(GainSq5()[t.gainIndex[0]], v[k]) == Times(GainSq5()[j], cvec[k])
    {
      VectorRises(buf, index, t.gainIndex, j, len, k);
    }
    var a, b := GainSq5()[t.gainIndex[0]], GainSq5()[j];
    EnergyRises(v, cvec, a, b, |v|);
    assert Quieter(j, Energy(cvec), Energy(t.targets[0]), t.gains[0]);
    FirstGain(t.gainIndex[0]);
    SwapSquare(Energy(cvec), b);
    SquareCancels(a, Energy(v), Energy(t.targets[0]));
  }

  lemma GainsMoved(t: Trace, gainIndex: seq<nat>, block: nat, buf: seq<real>)
    requires |buf| == MemoryOf(block) && Whole(t, block, buf) && |gainIndex| == CB_NSTAGES && gainIndex[1..] == t.gainIndex[1..]
    ensures |t.gainIndex| == CB_NSTAGES && t.gainIndex[0] < 32 && gainIndex == t.gainIndex[0 := gainIndex[0]]
    ensures t.gains[0] == GainDequant(t.gainIndex[0], 1.0, 32)
  {
    hide StageOf, GainDequant;
    GainAt(t, block, buf, 0);
    assert gainIndex[1] == gainIndex[1..][0] && gainIndex[2] == gainIndex[1..][1];
  }

  lemma Movable(buf: seq<real>, index: seq<nat>, gain: seq<nat>, j: nat, len: nat)
    requires Constructible(index, gain, |buf|, len) && j < 32
    ensures Constructible(index, gain[0 := j], |buf|, len) && gain[0] < 32 && gain[1] < 16 && gain[2] < 8
  {
  }

  // ---------- What the measure measures ----------

  lemma GainGains(c: real, e: real, i: real)
    requires e >= 0.0 && i == InverseEnergy(e)
    ensures var g := Times(c, i);
            2.0 * Times(g, c) - Times(Square(g), e) >= Times(Times(c, c), i)
  {
    var g, q := c * i, c * c;
    if e > 0.0 {
      var p := e + EPS;
      assert i * p == 1.0;
      assert i > 0.0;
      assert i * e <= 1.0 by {
        assert i * EPS >= 0.0;
        assert i * e + i * EPS == i * p;
      }
      assert (g * g) * e == (q * i) * (i * e);
      assert g * c == q * i;
      assert q * i >= 0.0;
      var r, f := q * i, i * e;
      assert r * (1.0 - f) >= 0.0;
      assert r * f <= r;
    } else {
      assert i == 0.0 && g == 0.0;
    }
  }

  /** Taken out with its gain, a candidate lowers the energy of the target by its measure at least. */
  lemma MeasureIsTaken(stage: nat, target: seq<real>, c: Candidate)
    requires |c.vec| == |target| && !(stage == 0 && CrossOf(target, c) <= 0.0)
    ensures Energy(Minus(target, GainOf(target, c), c.vec)) <= Energy(target) - MeasureOf(stage, target, c)
  {
    hide Times, Square, EnergyRange, DotTo, InverseEnergy;
    EnergyOfRest(target, GainOf(target, c), c.vec, |target|);
    EnergyIsNatural(c.vec, |c.vec|);
    GainGains(CrossOf(target, c), Energy(c.vec), InverseEnergy(Energy(c.vec)));
  }

  /** And of that it falls short only by what EPS adds to the energy. */
  lemma MeasureIsNearlyThat(stage: nat, target: seq<real>, c: Candidate)
    requires |c.vec| == |target| && !(stage == 0 && CrossOf(target, c) <= 0.0) && Energy(c.vec) > 0.0
    ensures Times(MeasureOf(stage, target, c), Energy(c.vec) + EPS) == Square(CrossOf(target, c))
  {
    hide EnergyRange, DotTo;
    var q, p := CrossOf(target, c) * CrossOf(target, c), Energy(c.vec) + EPS;
    assert (q * (1.0 / p)) * p == q;
  }

  /** A stage that finds something takes its measure from the target, before the gain is quantised. */
  lemma StageTakesItsMeasure(stage: nat, range: nat, target: seq<real>, mem: seq<real>)
    requires RangeFits(|mem|, |target|, range)
    ensures var r := StageBest(stage, range, target, mem);
            r != NOTHING ==>
              && r.index < 2 * BaseSize(|mem|, |target|) && Abs(r.gain) < CB_MAXGAIN
              && Energy(Minus(target, r.gain, CbVec(mem, r.index, |target|))) <= Energy(target) - r.measure
  {
    hide StageBest, Visited, Energy, Dot, Minus, CbVec, BaseSize, Times, InverseEnergy, Reachable;
    StageBestIsMaximum(stage, range, target, mem);
    var r, c := StageBest(stage, range, target, mem), Visited(stage, range, target, mem);
    if r != NOTHING {
      var i :| 0 <= i < |c| && Wins(r, stage, target, c, i);
      VisitedAreCodebookVectors(stage, range, target, mem, i);
      MeasureIsTaken(stage, target, c[i]);
    }
  }

  lemma GainHasSignOfCross(c: real, e: real)
    requires c > 0.0
    ensures Times(c, InverseEnergy(e)) >= 0.0
  {
    if e > 0.0 {
      assert InverseEnergy(e) > 0.0;
    }
  }

  /** The gain of a stage needs no clamp before it is quantised: at the first stage it is never negative, and never too large. */
  lemma GainNeedsNoClamp(stage: nat, range: nat, target: seq<real>, mem: seq<real>)
    requires RangeFits(|mem|, |target|, range)
    ensures var g := StageBest(stage, range, target, mem).gain;
            ClampedGain(stage, g) == g && Abs(g) < CB_MAXGAIN && (stage == 0 ==> g >= 0.0)
  {
    hide StageBest, Visited, Energy, Dot, BaseSize, Times, InverseEnergy, Reachable;
    StageBestIsMaximum(stage, range, target, mem);
    var r, c := StageBest(stage, range, target, mem), Visited(stage, range, target, mem);
    if r != NOTHING {
      var i :| 0 <= i < |c| && Wins(r, stage, target, c, i);
      if stage == 0 {
        assert CrossOf(target, c[i]) > 0.0;
        GainHasSignOfCross(CrossOf(target, c[i]), Energy(c[i].vec));
      }
    }
  }

  // ---------- The gains ----------

  lemma LevelIsSmall(i: nat, cblen: nat)
    requires cblen in {8, 16, 32} && i < cblen
    ensures Abs(GainTable(cblen)[i]) <= 1.21
  {
  }

  lemma GainIsSmall(i: nat, x: real, cblen: nat, m: real)
    requires cblen in {8, 16, 32} && i < cblen && 0.1 <= m && Abs(x) <= m
    ensures Abs(GainDequant(i, x, cblen)) <= 1.21 * m
  {
    hide GainTable;
    LevelIsSmall(i, cblen);
    BoundedProduct(GainScale(x), GainTable(cblen)[i], m, 1.21);
  }

  lemma BoundedProduct(x: real, y: real, m: real, n: real)
    requires Abs(x) <= m && Abs(y) <= n
    ensures Abs(Times(x, y)) <= m * n
  {
    var u, v := Abs(x), Abs(y);
    assert Abs(x * y) == u * v;
    assert u * (n - v) >= 0.0;
    assert (m - u) * n >= 0.0;
  }

  /** Every gain, and every level it is relative to, is below 2. */
  lemma GainsAreSmall(t: Trace, block: nat, buf: seq<real>, s: nat, j: nat)
    requires |buf| == MemoryOf(block) && Whole(t, block, buf) && s < CB_NSTAGES && j < GainLevels(s)
    ensures Abs(GainDequant(j, Reference(s, t.gains), GainLevels(s))) <= 1.8
  {
    hide StageOf, GainDequant;
    GainAt(t, block, buf, 0);
    GainAt(t, block, buf, 1);
    GainIsSmall(t.gainIndex[0], 1.0, 32, 1.0);
    GainIsSmall(t.gainIndex[1], Abs(t.gains[0]), 16, 1.21);
    GainIsSmall(j, Reference(s, t.gains), GainLevels(s), if s == 0 then 1.0 else if s == 1 then 1.21 else 1.4641);
  }

  lemma ErrorIsSmall(g: real, v: real)
    requires Abs(g) <= 2.0 && Abs(v) <= 2.0
    ensures Square(g - v) < GAIN_BOUND
  {
    SquaresCompare(4.0, g - v);
    assert Square(4.0) == 16.0;
  }

  lemma MinimumIsNearest(i: nat, d: seq<real>, j: nat, g: real, v: real, w: real)
    requires FirstMinimum(i, d, GAIN_BOUND) && j < |d| && d[j] < GAIN_BOUND && d[i] == Square(g - v) && d[j] == Square(g - w)
    ensures Abs(g - v) <= Abs(g - w)
  {
    hide Square;
    SquaresCompare(g - v, g - w);
  }

  /** Every stage subtracts with the level nearest to the gain it found, on the scale of the gain before. */
  lemma GainIsNearest(t: Trace, block: nat, buf: seq<real>, s: nat, j: nat)
    requires |buf| == MemoryOf(block) && Whole(t, block, buf) && s < CB_NSTAGES && j < GainLevels(s)
    ensures RangeFits(|buf|, |t.targets[s]|, SearchRange(block, s))
    ensures var g := StageBest(s, SearchRange(block, s), t.targets[s], buf).gain;
            Abs(g - t.gains[s]) <= Abs(g - GainDequant(j, Reference(s, t.gains), GainLevels(s)))
  {
    hide StageBest, FirstMinimum, CbVec, BaseSize, GainDequant, Square, Minus, Reference, ClampedGain;
    RangesFit(block, s);
    StageAt(t, block, buf, s);
    GainNeedsNoClamp(s, SearchRange(block, s), t.targets[s], buf);
    var g, x := StageBest(s, SearchRange(block, s), t.targets[s], buf).gain, GainDequant(j, Reference(s, t.gains), GainLevels(s));
    GainsAreSmall(t, block, buf, s, j);
    ErrorIsSmall(g, x);
    MinimumIsNearest(t.gainIndex[s], GainErrors(g, Reference(s, t.gains), GainLevels(s)), j, g, t.gains[s], x);
  }
}
