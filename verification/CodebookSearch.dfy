/**
 The search routines as the encoder runs them: correlations in loops, energies updated
 recursively from lag to lag and kept from stage to stage. They compute what SearchSpec
 defines with the energies taken afresh.
 */
module CodebookSearch {
  import opened Codebook
  import opened Constants
  import opened Reals
  import opened SearchSpec
  import opened Sequences

  // ---------- Inner loops ----------

  /** The correlation of the target with the samples from `at` on. */
  method DotAt(target: seq<real>, buf: seq<real>, at: nat) returns (crossDot: real)
    requires at + |target| <= |buf|
    ensures crossDot == Dot(target, Sub(buf, at, |target|))
  {
    hide Times;
    crossDot := 0.0;
    for j := 0 to |target|
      invariant crossDot == DotTo(target, Sub(buf, at, |target|), j)
    {
      crossDot := crossDot + Times(target[j], buf[at + j]);
    }
  }

  /** The energy of n samples from `at` on. */
  method EnergyAt(buf: seq<real>, at: nat, n: nat) returns (e: real)
    requires at + n <= |buf|
    ensures e == Energy(Sub(buf, at, n))
  {
    hide Times;
    e := 0.0;
    for j := 0 to n
      invariant e == EnergyRange(Sub(buf, at, n), 0, j)
    {
      e := e + Times(buf[at + j], buf[at + j]);
    }
  }

  // ---------- What the energy slots hold ----------

  /** Slots 0 to n - 1 of the first section, with their inverses. */
  ghost predicate FirstSlots(energy: seq<real>, inv: seq<real>, mem: seq<real>, len: nat, n: nat) {
    && len + n <= |mem| + 1 && n <= |energy| && n <= |inv|
    && forall i {:trigger energy[i]} :: 0 <= i < n ==>
         energy[i] == Energy(Sub(mem, |mem| - len - i, len)) && inv[i] == InverseEnergy(energy[i])
  }

  /** The n slots of the second section's plain vectors. */
  ghost predicate SecondSlots(energy: seq<real>, mem: seq<real>, len: nat, base: nat, n: nat) {
    && len + n <= |mem| + 1 && base + n <= |energy|
    && forall i {:trigger energy[i]} :: base <= i < base + n ==>
         energy[i] == Energy(Sub(Filtered(mem), |mem| - len - (i - base), len))
  }

  // ---------- The first section ----------

  lemma VisitPlain(b: Best, stage: nat, target: seq<real>, mem: seq<real>, first: nat, from: nat, n: nat, i: nat)
    requires |target| + from + n <= |mem| + 1 && i < n
    ensures var c := PlainCandidates(mem, |target|, first, from, n);
            var vec := Sub(mem, |mem| - |target| - from - i, |target|);
            Visit(b, stage, target, c, i + 1)
            == Consider(Visit(b, stage, target, c, i), stage, first + from + i, Dot(target, vec), InverseEnergy(Energy(vec)))
  {
    hide Consider, Dot, Energy, InverseEnergy, Sub;
  }

  /** One lag of the full search: its energy (from the lag before, at stage 0), its measure, the running best. */
  method SearchLag(stage: nat, icount: nat, target: seq<real>, buf: seq<real>,
                   energy: array<real>, invenergy: array<real>, best: Best) returns (next: Best)
    requires energy != invenergy && |target| + icount <= |buf| && icount < energy.Length && icount < invenergy.Length
    requires FirstSlots(energy[..], invenergy[..], buf, |target|, if stage == 0 then icount else icount + 1)
    modifies energy, invenergy
    ensures FirstSlots(energy[..], invenergy[..], buf, |target|, icount + 1)
    ensures forall i {:trigger energy[i]} :: 0 <= i < energy.Length && i != icount ==> energy[i] == old(energy[i])
    ensures forall i {:trigger invenergy[i]} :: 0 <= i < invenergy.Length && i != icount ==> invenergy[i] == old(invenergy[i])
    ensures stage > 0 ==> energy[icount] == old(energy[icount]) && invenergy[icount] == old(invenergy[icount])
    ensures var vec := Sub(buf, |buf| - |target| - icount, |target|);
            next == Consider(best, stage, icount, Dot(target, vec), InverseEnergy(Energy(vec)))
  {
    hide Consider, Dot, Energy, InverseEnergy, Sub, Times;
    var lMem, lTarget := |buf|, |target|;
    var crossDot := DotAt(target, buf, lMem - lTarget - icount);
    if stage == 0 {
      if icount == 0 {
        energy[0] := EnergyAt(buf, lMem - lTarget, lTarget);
      } else {
        WindowSlides(buf, lMem - lTarget - icount, lTarget);
        energy[icount] := energy[icount - 1] + Times(buf[lMem - lTarget - icount], buf[lMem - lTarget - icount])
                          - Times(buf[lMem - icount], buf[lMem - icount]);
      }
      invenergy[icount] := InverseEnergy(energy[icount]);
    }
    assert energy[..][icount] == Energy(Sub(buf, lMem - lTarget - icount, lTarget));
    next := Consider(best, stage, icount, crossDot, invenergy[icount]);
  }

  /** The full search over the plain vectors. */
  method SearchPlain(stage: nat, range: nat, target: seq<real>, buf: seq<real>,
                     energy: array<real>, invenergy: array<real>) returns (best: Best)
    requires energy != invenergy && 0 < range && |target| + range <= |buf| + 1
    requires range <= energy.Length && range <= invenergy.Length
    requires stage > 0 ==> FirstSlots(energy[..], invenergy[..], buf, |target|, range)
    modifies energy, invenergy
    ensures best == Visit(NOTHING, stage, target, PlainCandidates(buf, |target|, 0, 0, range), range)
    ensures FirstSlots(energy[..], invenergy[..], buf, |target|, range)
    ensures forall i {:trigger energy[i]} :: range <= i < energy.Length || (stage > 0 && 0 <= i < range) ==>
              energy[i] == old(energy[i])
    ensures forall i {:trigger invenergy[i]} :: range <= i < invenergy.Length || (stage > 0 && 0 <= i < range) ==>
              invenergy[i] == old(invenergy[i])
  {
    hide Consider, Dot, Energy, InverseEnergy, PlainCandidates, Sub, Times;
    best := NOTHING;
    for icount := 0 to range
      invariant best == Visit(NOTHING, stage, target, PlainCandidates(buf, |target|, 0, 0, range), icount)
      invariant FirstSlots(energy[..], invenergy[..], buf, |target|, if stage == 0 then icount else range)
      invariant forall i {:trigger energy[i]} :: range <= i < energy.Length || (stage > 0 && 0 <= i < range) ==>
                  energy[i] == old(energy[i])
      invariant forall i {:trigger invenergy[i]} :: range <= i < invenergy.Length || (stage > 0 && 0 <= i < range) ==>
                  invenergy[i] == old(invenergy[i])
    {
      VisitPlain(NOTHING, stage, target, buf, 0, 0, range, icount);
      best := SearchLag(stage, icount, target, buf, energy, invenergy, best);
    }
  }

  // ---------- The interpolated vectors ----------

  lemma AugmentedHead(buffer: seq<real>, lag: nat, j: nat)
    requires SUBL / 2 <= lag <= SUBL && 2 * lag <= |buffer| && j < lag - 4
    ensures Augmented(buffer, lag)[j] == buffer[|buffer| - lag + j]
  {
    if j == lag - 5 {
      NoFade(buffer[|buffer| - lag + j], buffer[|buffer| - 2 * lag + j]);
    }
  }

  lemma NoFade(x: real, y: real)
    ensures Mix(Alfa(0), x, y) == x
  {
    assert Alfa(0) == 0.0;
  }

  /** One lag of searchAugmentedCB: energy of the head given, interpolation and tail in loops. */
  method AugmentedLag(lag: nat, target: seq<real>, buffer: seq<real>, nrj: real) returns (energy: real, crossDot: real)
    requires SUBL / 2 <= lag < SUBL && 2 * lag <= |buffer| && |target| == SUBL
    requires nrj == EnergyRange(buffer, |buffer| - lag, |buffer| - 4)
    ensures energy == Energy(Augmented(buffer, lag)) && crossDot == Dot(target, Augmented(buffer, lag))
  {
    hide Alfa, Augmented, EnergyRange, Mix, Times;
    ghost var v := Augmented(buffer, lag);
    var n, ilow := |buffer|, lag - 4;
    HeadEnergy(buffer, lag);
    energy, crossDot := nrj, 0.0;
    for j := 0 to ilow
      invariant crossDot == DotTo(target, v, j)
    {
      AugmentedHead(buffer, lag, j);
      crossDot := crossDot + Times(target[j], buffer[n - lag + j]);
    }
    var alfa := 0.2;
    AlfaSteps(0);
    for j := ilow to lag
      invariant alfa == Alfa(j - (lag - 5))
      invariant energy == EnergyRange(v, 0, j) && crossDot == DotTo(target, v, j)
    {
      var weighted := Mix(alfa, buffer[n - 4 + (j - ilow)], buffer[n - lag - 4 + (j - ilow)]);
      AugmentedMiddle(buffer, lag, j);
      EnergyLast(v, 0, j + 1);
      energy := energy + Times(weighted, weighted);
      crossDot := crossDot + Times(target[j], weighted);
      AlfaSteps(j - (lag - 5));
      alfa := alfa + 0.2;
    }
    for j := lag to SUBL
      invariant energy == EnergyRange(v, 0, j) && crossDot == DotTo(target, v, j)
    {
      var x := buffer[n - lag + (j - lag)];
      AugmentedTail(buffer, lag, j);
      EnergyLast(v, 0, j + 1);
      energy := energy + Times(x, x);
      crossDot := crossDot + Times(target[j], x);
    }
  }

  lemma AlfaSteps(t: nat)
    ensures Alfa(t) + 0.2 == Alfa(t + 1) && Alfa(1) == 0.2
  {
  }

  lemma AugmentedMiddle(buffer: seq<real>, lag: nat, j: nat)
    requires SUBL / 2 <= lag <= SUBL && 2 * lag <= |buffer| && lag - 5 <= j < lag
    ensures Augmented(buffer, lag)[j]
         == Mix(Alfa(j - (lag - 5)), buffer[|buffer| - lag + j], buffer[|buffer| - 2 * lag + j])
  {
    hide Alfa, Mix;
  }

  lemma AugmentedTail(buffer: seq<real>, lag: nat, j: nat)
    requires SUBL / 2 <= lag <= SUBL && 2 * lag <= |buffer| && lag <= j < SUBL
    ensures Augmented(buffer, lag)[j] == buffer[|buffer| - 2 * lag + j]
  {
    hide Alfa, Mix;
  }

  /** The energy of the part before the interpolation is that of the samples it copies. */
  lemma HeadEnergy(buffer: seq<real>, lag: nat)
    requires SUBL / 2 <= lag < SUBL && 2 * lag <= |buffer|
    ensures EnergyRange(Augmented(buffer, lag), 0, lag - 4) == EnergyRange(buffer, |buffer| - lag, |buffer| - 4)
  {
    hide Augmented, EnergyRange;
    var v, at := Augmented(buffer, lag), |buffer| - lag;
    forall j | 0 <= j < lag - 4
      ensures v[j] == buffer[j - 0 + at]
    {
      AugmentedHead(buffer, lag, j);
    }
    EnergyMoved(v, 0, buffer, at, lag - 4);
  }

  lemma VisitAugmented(b: Best, stage: nat, target: seq<real>, mem: seq<real>, startIndex: nat, low: nat, high: nat, i: nat)
    requires |target| == SUBL && 20 <= low <= high <= SUBL && 2 * (SUBL - 1) <= |mem| && i < high - low
    ensures var c := AugmentedCandidates(mem, startIndex, low, high);
            var vec := Augmented(mem, low + i);
            Visit(b, stage, target, c, i + 1)
            == Consider(Visit(b, stage, target, c, i), stage, startIndex + low + i - 20, Dot(target, vec),
                        InverseEnergy(Energy(vec)))
  {
    hide Consider, Dot, Energy, InverseEnergy, Augmented;
  }

  /** searchAugmentedCB over lags low to high inclusive, the head energies by recursion from lag to lag. */
  method SearchAugmentedCB(low: nat, high: nat, stage: nat, startIndex: nat, target: seq<real>, buffer: seq<real>,
                           best0: Best, energy: array<real>, invenergy: array<real>) returns (best: Best)
    requires energy != invenergy && |target| == SUBL
    requires 20 <= low <= high < SUBL && 2 * (SUBL - 1) <= |buffer|
    requires startIndex + 20 <= energy.Length && startIndex + 20 <= invenergy.Length
    modifies energy, invenergy
    ensures best == Visit(best0, stage, target, AugmentedCandidates(buffer, startIndex, low, high + 1), high + 1 - low)
    ensures forall i {:trigger energy[i]} :: 0 <= i < energy.Length && !(startIndex <= i < startIndex + 20) ==>
              energy[i] == old(energy[i])
    ensures forall i {:trigger invenergy[i]} :: 0 <= i < invenergy.Length && !(startIndex <= i < startIndex + 20) ==>
              invenergy[i] == old(invenergy[i])
    ensures forall lag :: low <= lag <= high ==> energy[startIndex + lag - 20] == Energy(Augmented(buffer, lag))
  {
    hide Augmented, AugmentedCandidates, Consider, Dot, Energy, EnergyRange, InverseEnergy, Times;
    var n := |buffer|;
    var nrjRecursive := RecursiveStart(buffer, low);
    best := best0;
    for lagcount := low to high + 1
      invariant nrjRecursive == EnergyRange(buffer, n - lagcount + 1, n - 4)
      invariant best == Visit(best0, stage, target, AugmentedCandidates(buffer, startIndex, low, high + 1), lagcount - low)
      invariant forall i {:trigger energy[i]} :: 0 <= i < energy.Length && !(startIndex <= i < startIndex + 20) ==>
                  energy[i] == old(energy[i])
      invariant forall i {:trigger invenergy[i]} :: 0 <= i < invenergy.Length && !(startIndex <= i < startIndex + 20) ==>
                  invenergy[i] == old(invenergy[i])
      invariant forall lag :: low <= lag < lagcount ==> energy[startIndex + lag - 20] == Energy(Augmented(buffer, lag))
    {
      var tmpIndex := startIndex + lagcount - 20;
      EnergyFromFirst(buffer, n - lagcount, n - 4);
      nrjRecursive := nrjRecursive + Times(buffer[n - lagcount], buffer[n - lagcount]);
      var e, crossDot := AugmentedLag(lagcount, target, buffer, nrjRecursive);
      energy[tmpIndex] := e;
      invenergy[tmpIndex] := InverseEnergy(energy[tmpIndex]);
      VisitAugmented(best0, stage, target, buffer, startIndex, low, high + 1, lagcount - low);
      best := Consider(best, stage, tmpIndex, crossDot, invenergy[tmpIndex]);
    }
  }

  /** The energy of the (low - 5) samples that all the lags share. */
  method RecursiveStart(buffer: seq<real>, low: nat) returns (nrj: real)
    requires 20 <= low < SUBL && 2 * (SUBL - 1) <= |buffer|
    ensures nrj == EnergyRange(buffer, |buffer| - low + 1, |buffer| - 4)
  {
    hide Times;
    nrj := 0.0;
    var at := |buffer| - low + 1;
    for j := 0 to low - 5
      invariant nrj == EnergyRange(buffer, at, at + j)
    {
      nrj := nrj + Times(buffer[at + j], buffer[at + j]);
    }
  }

  // ---------- The second section ----------

  /** Stage 0 computes the energies of all the plain filtered vectors in range, by the same recursion. */
  method FilteredEnergies(range: nat, cbvectors: seq<real>, lTarget: nat, base: nat, energy: array<real>, ghost mem: seq<real>)
    requires 0 < range && lTarget + range <= |cbvectors| + 1 && base + range <= energy.Length
    requires cbvectors == Filtered(mem)
    modifies energy
    ensures SecondSlots(energy[..], mem, lTarget, base, range)
    ensures forall i {:trigger energy[i]} :: 0 <= i < energy.Length && !(base <= i < base + range) ==>
              energy[i] == old(energy[i])
  {
    hide Energy, Filtered, Sub, Times;
    var lMem := |cbvectors|;
    energy[base] := EnergyAt(cbvectors, lMem - lTarget, lTarget);
    for j := 0 to range - 1
      invariant SecondSlots(energy[..], mem, lTarget, base, j + 1)
      invariant forall i {:trigger energy[i]} :: 0 <= i < energy.Length && !(base <= i < base + range) ==>
                  energy[i] == old(energy[i])
    {
      var pin, pout := lMem - 1 - lTarget - j, lMem - 1 - j;
      WindowSlides(cbvectors, pin, lTarget);
      assert energy[..][base + j] == Energy(Sub(cbvectors, pin + 1, lTarget));
      energy[base + j + 1] := energy[base + j] + Times(cbvectors[pin], cbvectors[pin]) - Times(cbvectors[pout], cbvectors[pout]);
    }
  }

  /** The restricted search over plain filtered vectors; every energy it reads was written at stage 0. */
  method SearchFiltered(stage: nat, w: Window, target: seq<real>, cbvectors: seq<real>, base: nat,
                        energy: array<real>, invenergy: array<real>, best0: Best,
                        ghost mem: seq<real>, ghost slots: nat) returns (best: Best)
    requires energy != invenergy && cbvectors == Filtered(mem)
    requires w.from <= w.to <= slots && base + slots <= invenergy.Length
    requires SecondSlots(energy[..], mem, |target|, base, slots)
    modifies invenergy
    ensures best == Visit(best0, stage, target,
                          PlainCandidates(cbvectors, |target|, base, w.from, w.to - w.from), w.to - w.from)
    ensures forall i {:trigger invenergy[i]} :: 0 <= i < invenergy.Length && !(base <= i < base + slots) ==>
              invenergy[i] == old(invenergy[i])
  {
    hide Consider, Dot, Energy, Filtered, InverseEnergy, PlainCandidates, Sub, Times;
    var lMem, counter := |cbvectors|, w.from;
    best := best0;
    for icount := base + w.from to base + w.to
      invariant counter == icount - base
      invariant best == Visit(best0, stage, target,
                              PlainCandidates(cbvectors, |target|, base, w.from, w.to - w.from), counter - w.from)
      invariant forall i {:trigger invenergy[i]} :: 0 <= i < invenergy.Length && !(base <= i < base + slots) ==>
                  invenergy[i] == old(invenergy[i])
    {
      VisitPlain(best0, stage, target, cbvectors, base, w.from, w.to - w.from, counter - w.from);
      assert energy[..][icount] == Energy(Sub(cbvectors, lMem - |target| - counter, |target|));
      var crossDot := DotAt(target, cbvectors, lMem - counter - |target|);
      counter := counter + 1;
      invenergy[icount] := InverseEnergy(energy[icount]);
      best := Consider(best, stage, icount, crossDot, invenergy[icount]);
    }
  }

  // ---------- A stage ----------

  /** What the energy slots hold from one stage to the next. */
  ghost predicate Slots(energy: seq<real>, inv: seq<real>, mem: seq<real>, len: nat, range0: nat)
    requires RangeFits(|mem|, len, range0)
  {
    && |energy| == |inv| == 256 && 2 * BaseSize(|mem|, len) <= 256
    && FirstSlots(energy, inv, mem, len, range0)
    && SecondSlots(energy, mem, len, BaseSize(|mem|, len), range0)
  }

  /** The full search of the first section. */
  method SearchFirstSection(stage: nat, range: nat, target: seq<real>, mem: seq<real>,
                            energy: array<real>, invenergy: array<real>, ghost range0: nat) returns (best: Best)
    requires energy != invenergy && energy.Length == invenergy.Length == 256
    requires RangeFits(|mem|, |target|, range0) && RangeFits(|mem|, |target|, range) && range <= range0
    requires 2 * BaseSize(|mem|, |target|) <= 256
    requires if stage == 0 then range == range0 else Slots(energy[..], invenergy[..], mem, |target|, range0)
    modifies energy, invenergy
    ensures best == FirstBest(stage, range, target, mem)
    ensures FirstSlots(energy[..], invenergy[..], mem, |target|, range0)
    ensures stage > 0 ==> Slots(energy[..], invenergy[..], mem, |target|, range0)
  {
    hide Augmented, AugmentedCandidates, Energy, Filtered, InverseEnergy, PlainCandidates, Sub, Visit;
    best := SearchPlain(stage, range, target, mem, energy, invenergy);
    if |target| == SUBL {
      var start := BaseSize(|mem|, SUBL) - 20;
      best := SearchAugmentedCB(20, 39, stage, start, target, mem, best, energy, invenergy);
      VisitJoin(NOTHING, stage, target, PlainCandidates(mem, SUBL, 0, 0, range),
                AugmentedCandidates(mem, start, 20, SUBL), 20);
    }
  }

  /** The search of the higher section inside its window. */
  method SearchSecondSection(stage: nat, w: Window, target: seq<real>, mem: seq<real>, cbvectors: seq<real>,
                             energy: array<real>, invenergy: array<real>, first: Best, ghost range0: nat)
    returns (best: Best)
    requires energy != invenergy && cbvectors == Filtered(mem) && RangeFits(|mem|, |target|, range0)
    requires Slots(energy[..], invenergy[..], mem, |target|, range0)
    requires w.from <= w.to <= range0 && (w.low == w.high == 0 || (|target| == SUBL && 20 <= w.low < w.high <= SUBL))
    modifies energy, invenergy
    ensures best == Visit(first, stage, target, SecondSection(mem, |target|, w), |SecondSection(mem, |target|, w)|)
    ensures Slots(energy[..], invenergy[..], mem, |target|, range0)
  {
    hide Augmented, AugmentedCandidates, Energy, Filtered, InverseEnergy, PlainCandidates, Sub, Visit;
    var base := BaseSize(|mem|, |target|);
    ghost var plain := PlainCandidates(cbvectors, |target|, base, w.from, w.to - w.from);
    best := SearchFiltered(stage, w, target, cbvectors, base, energy, invenergy, first, mem, range0);
    if w.low != 0 {
      best := SearchAugmentedCB(w.low, w.high - 1, stage, 2 * base - 20, target, cbvectors, best, energy, invenergy);
      VisitJoin(first, stage, target, plain, AugmentedCandidates(cbvectors, 2 * base - 20, w.low, w.high), w.high - w.low);
    }
  }

  /** One stage of the search: the first section, then the window around its best in the higher section. */
  method SearchStage(stage: nat, range: nat, target: seq<real>, mem: seq<real>, cbvectors: seq<real>,
                     energy: array<real>, invenergy: array<real>, ghost range0: nat) returns (best: Best)
    requires energy != invenergy && energy.Length == invenergy.Length == 256 && cbvectors == Filtered(mem)
    requires RangeFits(|mem|, |target|, range0) && RangeFits(|mem|, |target|, range) && range <= range0
    requires 2 * BaseSize(|mem|, |target|) <= 256
    requires if stage == 0 then range == range0 else Slots(energy[..], invenergy[..], mem, |target|, range0)
    modifies energy, invenergy
    ensures best == StageBest(stage, range, target, mem)
    ensures Slots(energy[..], invenergy[..], mem, |target|, range0)
  {
    hide Energy, Filtered, FirstBest, InverseEnergy, Restricted, SecondSection, Sub, Visit;
    best := SearchFirstSection(stage, range, target, mem, energy, invenergy, range0);
    FirstBestIndex(stage, range, target, mem);
    var base := BaseSize(|mem|, |target|);
    var w := Restricted(best.index, base, range, |target|);
    if stage == 0 {
      FilteredEnergies(range, cbvectors, |target|, base, energy, mem);
    }
    best := SearchSecondSection(stage, w, target, mem, cbvectors, energy, invenergy, best, range0);
  }
}
