/**
 iCBSearch: the weighting of target and memory, three stages that each subtract the vector
 they found, and the adjustment of the first gain.
 */
module StagedSearch {
  import opened Buffers
  import opened Codebook
  import opened CodebookSearch
  import opened Constants
  import opened Correlations
  import opened Filters
  import opened Quantisers
  import opened Reals
  import opened SearchSpec
  import opened Sequences

  /** search_rangeTbl. */
  function SearchRange(block: nat, stage: nat): (r: nat)
    ensures CB_RESRANGE <= r <= SearchRange(block, 0)
    decreases stage
  {
    if block == 0 then 58 else if block == 1 && stage > 0 then 44 else 108
  }

  /** The memory and vector lengths of a block: the 22 samples of the start state, or a subframe. */
  function LengthOf(block: nat): nat {
    if block == 0 then 22 else SUBL
  }

  function MemoryOf(block: nat): nat {
    if block == 0 then 85 else CB_MEML
  }

  lemma RangesFit(block: nat, stage: nat)
    ensures RangeFits(MemoryOf(block), LengthOf(block), SearchRange(block, stage))
    ensures 2 * BaseSize(MemoryOf(block), LengthOf(block)) <= 256
  {
  }

  // ---------- One stage on vectors ----------

  /** v + c * w, sample by sample. */
  function Plus(v: seq<real>, c: real, w: seq<real>): (r: seq<real>)
    requires |v| == |w|
    ensures |r| == |v|
  {
    seq(|v|, j requires 0 <= j < |v| => v[j] + Times(c, w[j]))
  }

  function Sum(v: seq<real>, w: seq<real>): (r: seq<real>)
    requires |v| == |w|
    ensures |r| == |v|
  {
    seq(|v|, j requires 0 <= j < |v| => v[j] + w[j])
  }

  /** What is put into the accumulated vector is taken from the target. */
  lemma StageConserves(cvec: seq<real>, target: seq<real>, c: real, w: seq<real>)
    requires |cvec| == |target| == |w|
    ensures Sum(Plus(cvec, c, w), Minus(target, c, w)) == Sum(cvec, target)
  {
    hide Times;
  }

  /** The gain a stage quantises: within [0, CB_MAXGAIN] at the first stage. */
  function ClampedGain(stage: nat, gain: real): real {
    if stage > 0 then gain else if gain < 0.0 then 0.0 else if gain > CB_MAXGAIN then CB_MAXGAIN else gain
  }

  /** The gain a stage's gain is relative to. */
  function Reference(stage: nat, gains: seq<real>): real
    requires stage <= |gains|
  {
    if stage == 0 then 1.0 else Abs(gains[stage - 1])
  }

  /** What the stages did: the target before each of them and after the last, and each one's choice. */
  datatype Trace = Trace(targets: seq<seq<real>>, index: seq<nat>, gainIndex: seq<nat>, gains: seq<real>)

  ghost predicate Shaped(t: Trace, block: nat, n: nat) {
    && |t.targets| == n + 1 && |t.index| == |t.gainIndex| == |t.gains| == n
    && forall s :: 0 <= s <= n ==> |t.targets[s]| == LengthOf(block)
  }

  /** Stage s: the best index for its target, the gain quantised, the scaled vector subtracted. */
  ghost predicate StageOf(t: Trace, block: nat, buf: seq<real>, s: nat)
    requires |buf| == MemoryOf(block) && s < |t.index| && Shaped(t, block, |t.index|)
  {
    RangesFit(block, s);
    var best := StageBest(s, SearchRange(block, s), t.targets[s], buf);
    && t.index[s] == best.index < 2 * BaseSize(|buf|, LengthOf(block))
    && t.gainIndex[s] < GainLevels(s)
    && FirstMinimum(t.gainIndex[s], GainErrors(ClampedGain(s, best.gain), Reference(s, t.gains), GainLevels(s)), GAIN_BOUND)
    && t.gains[s] == GainDequant(t.gainIndex[s], Reference(s, t.gains), GainLevels(s))
    && t.targets[s + 1] == Minus(t.targets[s], t.gains[s], CbVec(buf, t.index[s], LengthOf(block)))
  }

  /** A faithful record of the first n stages on a weighted memory and target. */
  ghost predicate Faithful(t: Trace, block: nat, buf: seq<real>, target: seq<real>, n: nat)
    requires |buf| == MemoryOf(block)
  {
    && Shaped(t, block, n) && t.targets[0] == target
    && forall s :: 0 <= s < n ==> StageOf(t, block, buf, s)
  }

  // ---------- The adjustment of the first gain ----------

  /** The squared test of the adjustment: would level i leave less energy than the target had? */
  predicate Quieter(i: nat, cene: real, tene: real, gain: real)
    requires i < 32
  {
    Times(cene, Square(GainSq5()[i])) < Times(tene, Square(gain))
  }

  /**
   The last loop of iCBSearch: the first gain moves up to a level that keeps the energy of the
   vector below the target's; no later level would do, or the level is twice the gain already,
   which no level it moved on from was.
   */
  method AdjustGain(start: nat, cene: real, tene: real, gain: real) returns (j: nat)
    requires start < 32
    ensures start <= j < 32 && (j == start || Quieter(j, cene, tene, gain))
    ensures forall i :: j < i < 32 ==> !Quieter(i, cene, tene, gain) || GainSq5()[j] >= 2.0 * gain
    ensures forall i :: start <= i < j && (i == start || Quieter(i, cene, tene, gain)) ==> GainSq5()[i] < 2.0 * gain
  {
    hide GainSq5, Times, Square;
    j := start;
    for i := start to 32
      invariant start <= j < 32 && (j == start || (j < i && Quieter(j, cene, tene, gain)))
      invariant forall k :: j < k < i ==> !Quieter(k, cene, tene, gain) || GainSq5()[j] >= 2.0 * gain
      invariant forall k :: start <= k < j && (k == start || Quieter(k, cene, tene, gain)) ==> GainSq5()[k] < 2.0 * gain
    {
      if Quieter(i, cene, tene, gain) && GainSq5()[j] < 2.0 * gain {
        j := i;
      }
    }
  }

  // ---------- The routine ----------

  lemma Extend(t: Trace, u: Trace, block: nat, buf: seq<real>, target: seq<real>, n: nat)
    requires |buf| == MemoryOf(block) && Faithful(t, block, buf, target, n)
    requires Shaped(u, block, n + 1) && u.targets[..n + 1] == t.targets
    requires u.index[..n] == t.index && u.gainIndex[..n] == t.gainIndex && u.gains[..n] == t.gains
    requires StageOf(u, block, buf, n)
    ensures Faithful(u, block, buf, target, n + 1)
  {
    hide StageBest, GainErrors, GainDequant, FirstMinimum, Minus, CbVec, BaseSize;
    assert t.targets[0] == u.targets[0];
    forall s | 0 <= s < n
      ensures StageOf(u, block, buf, s)
    {
      assert StageOf(t, block, buf, s);
      assert u.targets[s] == t.targets[s] && u.targets[s + 1] == t.targets[s + 1];
      assert s > 0 ==> u.gains[s - 1] == t.gains[s - 1];
    }
  }

  /** A stage: search, gain quantisation, extraction of the vector and its subtraction. */
  method RunStage(block: nat, stage: nat, buf: seq<real>, cbvectors: seq<real>, target: seq<real>, gains: seq<real>,
                  energy: array<real>, invenergy: array<real>)
    returns (index: nat, gainIndex: nat, gain: real, vec: seq<real>)
    requires |buf| == MemoryOf(block) && |target| == LengthOf(block) && cbvectors == Filtered(buf) && |gains| == stage
    requires energy != invenergy && energy.Length == invenergy.Length == 256
    requires RangeFits(|buf|, |target|, SearchRange(block, 0))
    requires stage > 0 ==> Slots(energy[..], invenergy[..], buf, |target|, SearchRange(block, 0))
    modifies energy, invenergy
    ensures RangeFits(|buf|, |target|, SearchRange(block, stage))
    ensures var best := StageBest(stage, SearchRange(block, stage), target, buf);
            && index == best.index < 2 * BaseSize(|buf|, |target|)
            && gainIndex < GainLevels(stage)
            && FirstMinimum(gainIndex,
                 GainErrors(ClampedGain(stage, best.gain), Reference(stage, gains), GainLevels(stage)), GAIN_BOUND)
            && gain == GainDequant(gainIndex, Reference(stage, gains), GainLevels(stage))
            && vec == CbVec(buf, index, |target|)
    ensures Slots(energy[..], invenergy[..], buf, |target|, SearchRange(block, 0))
  {
    hide StageBest, GainErrors, GainDequant, FirstMinimum, CbVec, Filtered, Slots;
    RangesFit(block, stage);
    var best := SearchStage(stage, SearchRange(block, stage), target, buf, cbvectors, energy, invenergy, SearchRange(block, 0));
    StageBestIsReachable(stage, SearchRange(block, stage), target, buf);
    index := best.index;
    gain, gainIndex := GainQuant(ClampedGain(stage, best.gain), Reference(stage, gains), GainLevels(stage));
    vec := ExtractVector(buf, cbvectors, index, |target|);
  }

  /** Weighting: memory and target in one buffer behind the filter state, filtered together. */
  method Weight(mem: seq<real>, intarget: seq<real>, weightDenum: seq<real>, weightState: seq<real>)
    returns (wmem: seq<real>, wtarget: seq<real>)
    requires |weightDenum| == |weightState| + 1
    ensures |wmem| == |mem| && |wtarget| == |intarget|
    ensures wmem + wtarget == Synthesised(weightDenum, weightState, mem + intarget)
  {
    hide Synthesised;
    var order, all := |weightState|, weightState + mem + intarget;
    var buf := new real[|all|](i requires 0 <= i < |all| => all[i]);
    assert buf[..] == all;
    assert buf[0..order] == weightState && buf[order..|all|] == mem + intarget;
    AllPoleFilter(buf, order, weightDenum, |mem| + |intarget|);
    OverwrittenReads(buf[..], all, order, Synthesised(weightDenum, weightState, mem + intarget));
    wmem, wtarget := buf[order..order + |mem|], buf[order + |mem|..];
  }

  lemma NothingAdded(zero: seq<real>, target: seq<real>)
    requires |zero| == |target| && forall j :: 0 <= j < |zero| ==> zero[j] == 0.0
    ensures Sum(zero, target) == target
  {
  }

  /** The outcome of the search: indices and gain indices as sent, and how they came about. */
  ghost predicate SearchOutcome(index: seq<nat>, gainIndex: seq<nat>, t: Trace, cvec: seq<real>, block: nat, buf: seq<real>)
    requires |buf| == MemoryOf(block)
  {
    && |t.targets| > 0 && Faithful(t, block, buf, t.targets[0], CB_NSTAGES)
    && index == t.index && |gainIndex| == CB_NSTAGES && gainIndex[1..] == t.gainIndex[1..]
    && |cvec| == LengthOf(block) && Sum(cvec, t.targets[CB_NSTAGES]) == t.targets[0]
    && var cene, tene, g := Energy(cvec), Energy(t.targets[0]), t.gains[0];
       && t.gainIndex[0] <= gainIndex[0] < 32
       && (gainIndex[0] == t.gainIndex[0] || Quieter(gainIndex[0], cene, tene, g))
       && (forall i :: gainIndex[0] < i < 32 ==> !Quieter(i, cene, tene, g) || GainSq5()[gainIndex[0]] >= 2.0 * g)
       && (forall i :: t.gainIndex[0] <= i < gainIndex[0] && (i == t.gainIndex[0] || Quieter(i, cene, tene, g)) ==>
             GainSq5()[i] < 2.0 * g)
  }

  /** The main loop of iCBSearch over the stages, on the weighted memory and target. */
  method RunStages(block: nat, wmem: seq<real>, wtarget: seq<real>)
    returns (index: seq<nat>, gainIndex: seq<nat>, gains: seq<real>, cvec: seq<real>, ghost t: Trace)
    requires |wmem| == MemoryOf(block) && |wtarget| == LengthOf(block)
    ensures Faithful(t, block, wmem, wtarget, CB_NSTAGES)
    ensures t.index == index && t.gainIndex == gainIndex && t.gains == gains
    ensures |cvec| == LengthOf(block) && Sum(cvec, t.targets[CB_NSTAGES]) == wtarget
  {
    hide BaseSize, CbVec, ClampedGain, FilterSum, Filtered, FirstMinimum, GainDequant, GainErrors, Minus, Plus, RangeFits,
         Slots, StageBest, StageOf, Sum;
    var filtered := new real[CB_MEML];
    FilteredCBvecs(filtered, wmem);
    var cbvectors := filtered[..|wmem|];
    var energy, invenergy := new real[256], new real[256];
    RangesFit(block, 0);
    var target := wtarget;
    cvec := seq(LengthOf(block), _ => 0.0);
    NothingAdded(cvec, target);
    index, gainIndex, gains := [], [], [];
    t := Trace([target], [], [], []);
    for stage := 0 to CB_NSTAGES
      invariant |gains| == stage && |cvec| == |target| == LengthOf(block)
      invariant stage > 0 ==> Slots(energy[..], invenergy[..], wmem, LengthOf(block), SearchRange(block, 0))
      invariant Faithful(t, block, wmem, wtarget, stage) && t.targets[stage] == target
      invariant t.index == index && t.gainIndex == gainIndex && t.gains == gains
      invariant Sum(cvec, target) == wtarget
    {
      var i, g, gain, vec := RunStage(block, stage, wmem, cbvectors, target, gains, energy, invenergy);
      StageConserves(cvec, target, gain, vec);
      cvec, target := Plus(cvec, gain, vec), Minus(target, gain, vec);
      index, gainIndex, gains := index + [i], gainIndex + [g], gains + [gain];
      ghost var u := Trace(t.targets + [target], index, gainIndex, gains);
      Recorded(t, u, block, wmem, stage);
      Extend(t, u, block, wmem, wtarget, stage);
      t := u;
    }
  }

  /** The record of a stage just run is faithful. */
  lemma Recorded(t: Trace, u: Trace, block: nat, buf: seq<real>, s: nat)
    requires |buf| == MemoryOf(block) && Shaped(t, block, s) && Shaped(u, block, s + 1)
    requires u.targets[..s + 1] == t.targets && u.gains[..s] == t.gains
    requires RangeFits(|buf|, LengthOf(block), SearchRange(block, s))
    requires var best, len := StageBest(s, SearchRange(block, s), t.targets[s], buf), LengthOf(block);
             && u.index[s] == best.index < 2 * BaseSize(|buf|, len)
             && u.gainIndex[s] < GainLevels(s)
             && FirstMinimum(u.gainIndex[s],
                  GainErrors(ClampedGain(s, best.gain), Reference(s, t.gains), GainLevels(s)), GAIN_BOUND)
             && u.gains[s] == GainDequant(u.gainIndex[s], Reference(s, t.gains), GainLevels(s))
             && u.targets[s + 1] == Minus(t.targets[s], u.gains[s], CbVec(buf, u.index[s], len))
    ensures StageOf(u, block, buf, s)
  {
    hide StageBest, GainErrors, GainDequant, FirstMinimum, Minus, CbVec, BaseSize;
    assert u.targets[s] == t.targets[s];
    assert s > 0 ==> u.gains[s - 1] == t.gains[s - 1];
  }

  lemma FirstGainFits(t: Trace, block: nat, buf: seq<real>)
    requires |buf| == MemoryOf(block) && |t.targets| > 0 && Faithful(t, block, buf, t.targets[0], CB_NSTAGES)
    ensures t.gainIndex[0] < 32
  {
    hide StageBest, GainErrors, GainDequant, FirstMinimum, Minus, CbVec, BaseSize;
    assert StageOf(t, block, buf, 0);
  }

  /** Whatever the signal, every index sent is in the layout its range reaches and every gain index in its table. */
  lemma SearchStaysInLayout(index: seq<nat>, gainIndex: seq<nat>, t: Trace, cvec: seq<real>, block: nat, buf: seq<real>)
    requires |buf| == MemoryOf(block) && SearchOutcome(index, gainIndex, t, cvec, block, buf)
    ensures |index| == |gainIndex| == CB_NSTAGES
    ensures Suits(MemoryOf(block), LengthOf(block))
    ensures forall s :: 0 <= s < CB_NSTAGES ==>
              Reachable(index[s], MemoryOf(block), LengthOf(block), SearchRange(block, s)) && gainIndex[s] < GainLevels(s)
  {
    hide StageBest, GainErrors, GainDequant, FirstMinimum, Minus, CbVec, BaseSize, Reachable, Quieter, Sum;
    RangesFit(block, 0);
    forall s | 0 <= s < CB_NSTAGES
      ensures Reachable(index[s], MemoryOf(block), LengthOf(block), SearchRange(block, s)) && gainIndex[s] < GainLevels(s)
    {
      assert StageOf(t, block, buf, s);
      RangesFit(block, s);
      StageBestIsReachable(s, SearchRange(block, s), t.targets[s], buf);
      assert s > 0 ==> gainIndex[s] == gainIndex[1..][s - 1] == t.gainIndex[s];
    }
  }

  /**
   iCBSearch. Whatever the signal, every index is one its range reaches and every gain index is
   in its table; t records how they came about.
   */
  method ICBSearch(intarget: seq<real>, mem: seq<real>, weightDenum: seq<real>, weightState: seq<real>, block: nat)
    returns (index: seq<nat>, gainIndex: seq<nat>, ghost t: Trace, ghost cvec: seq<real>, ghost buf: seq<real>)
    requires |intarget| == LengthOf(block) && |mem| == MemoryOf(block) && |weightDenum| == |weightState| + 1
    ensures |index| == |gainIndex| == CB_NSTAGES && Suits(MemoryOf(block), LengthOf(block))
    ensures forall s :: 0 <= s < CB_NSTAGES ==>
              Reachable(index[s], MemoryOf(block), LengthOf(block), SearchRange(block, s)) && gainIndex[s] < GainLevels(s)
    ensures |buf| == |mem| && SearchOutcome(index, gainIndex, t, cvec, block, buf)
    ensures buf + t.targets[0] == Synthesised(weightDenum, weightState, mem + intarget)
  {
    hide EnergyRange, Reachable, StageOf, Sum, Synthesised, Quieter, GainSq5;
    var wmem, target := Weight(mem, intarget, weightDenum, weightState);
    buf := wmem;
    var tene := EnergyAt(target, 0, |target|);
    SubAll(target);
    var gains, cv;
    index, gainIndex, gains, cv, t := RunStages(block, wmem, target);
    cvec := cv;
    var cene := EnergyAt(cv, 0, |cv|);
    SubAll(cv);
    FirstGainFits(t, block, wmem);
    var j := AdjustGain(gainIndex[0], cene, tene, gains[0]);
    gainIndex := gainIndex[0 := j];
    SearchStaysInLayout(index, gainIndex, t, cvec, block, buf);
  }
}
