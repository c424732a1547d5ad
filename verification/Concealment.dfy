/** The loops of doCPLC.c. */
module Concealment {
  import opened ConcealmentSpec
  import opened Constants
  import opened Reals
  import opened SearchSpec
  import opened Sequences

  // ---------- The pitch lag ----------

  /** compCorr. */
  method CompCorr(buffer: seq<real>, lag: nat, bLen: nat, sRange: nat) returns (cc: real, gc: real)
    requires |buffer| == bLen == BLOCKL && sRange == CORR_RANGE && lag + sRange <= bLen
    ensures cc == Correlation(buffer, lag) && gc == CorrelationGain(buffer, lag)
  {
    hide Times, Sub;
    ghost var x, y := Sub(buffer, bLen - sRange, sRange), Sub(buffer, bLen - sRange - lag, sRange);
    var ftmp1, ftmp2 := 0.0, 0.0;
    for i := 0 to sRange
      invariant ftmp1 == DotTo(x, y, i) && ftmp2 == EnergyRange(y, 0, i)
    {
      var u, v := buffer[bLen - sRange + i], buffer[bLen - sRange + i - lag];
      assert x[i] == u && y[i] == v;
      ftmp1 := ftmp1 + Times(u, v);
      ftmp2 := ftmp2 + Times(v, v);
    }
    if ftmp2 > 0.0 {
      cc := ftmp1 * ftmp1 / ftmp2;
      gc := Abs(ftmp1 / ftmp2);
    } else {
      cc, gc := 0.0, 0.0;
    }
  }

  /** The search around the last lag. */
  method FindPitch(past: seq<real>, inlag: nat) returns (lag: nat, gain: real)
    requires |past| == BLOCKL && IsLag(inlag)
    ensures lag == PitchLag(past, inlag, inlag + 3) && gain == CorrelationGain(past, lag)
  {
    hide Correlation, CorrelationGain;
    lag := inlag - 3;
    var maxcc;
    maxcc, gain := CompCorr(past, lag, BLOCKL, CORR_RANGE);
    for i := inlag - 2 to inlag + 4
      invariant lag == PitchLag(past, inlag, i - 1)
      invariant maxcc == Correlation(past, lag) && gain == CorrelationGain(past, lag)
    {
      var maxccComp, gainComp := CompCorr(past, i, BLOCKL, CORR_RANGE);
      if maxccComp > maxcc {
        maxcc, gain, lag := maxccComp, gainComp, i;
      }
    }
  }

  // ---------- The concealed residual ----------

  /** a starts with the new samples of a history. */
  ghost predicate Holds(a: seq<real>, h: seq<real>, n: nat) {
    n <= |a| && |h| == BLOCKL + n && forall i {:trigger a[i]} :: 0 <= i < n ==> a[i] == h[BLOCKL + i]
  }

  /** A sample `lag` before sample i, from the past block or from the new one. */
  method Earlier(past: seq<real>, a: array<real>, i: nat, lag: nat, ghost h: seq<real>) returns (x: real)
    requires |past| == BLOCKL && 0 < lag <= BLOCKL && Holds(a[..], h, i) && h[..BLOCKL] == past
    ensures x == h[BLOCKL + i - lag]
  {
    var pick := i - lag;
    if pick < 0 {
      x := past[BLOCKL + pick];
      assert h[..BLOCKL][BLOCKL + pick] == x;
    } else {
      x := a[pick];
    }
  }

  lemma {:induction false} HistoryKeepsPast(past: seq<real>, gain: real, f: real, lag: nat, seed: nat, n: nat)
    requires |past| == BLOCKL && 0 < lag <= BLOCKL
    ensures NoiseHistory(past, gain, seed, n)[..BLOCKL] == past
    ensures PitchHistory(past, gain, f, lag, seed, n)[..BLOCKL] == past
  {
    hide Times, Mixed, SeedAfter;
    if n > 0 {
      HistoryKeepsPast(past, gain, f, lag, seed, n - 1);
    }
  }

  /** The loop over the samples: noise, pitch repetition, and their mixture. */
  method Generate(plc: array<real>, randvec: array<real>, past: seq<real>, gain: real, pitchfact: real, lag: nat,
                  seed0: nat, n: nat)
    returns (seed: nat, energy: real)
    requires plc != randvec && |past| == BLOCKL && 0 < lag <= BLOCKL
    requires n <= plc.Length && n <= randvec.Length
    modifies plc, randvec
    ensures seed == SeedAfter(seed0, n)
    ensures Holds(plc[..], PitchHistory(past, gain, pitchfact, lag, seed0, n), n)
    ensures Holds(randvec[..], NoiseHistory(past, gain, seed0, n), n)
    ensures energy == EnergyRange(PitchHistory(past, gain, pitchfact, lag, seed0, n), BLOCKL, BLOCKL + n)
  {
    hide EnergyRange, Mixed, NextSeed, NoiseHistory, PitchHistory, SeedAfter, Times;
    seed, energy := seed0, 0.0;
    NothingGenerated(plc[..], randvec[..], past, gain, pitchfact, lag, seed0);
    for i := 0 to n
      invariant seed == SeedAfter(seed0, i)
      invariant Holds(plc[..], PitchHistory(past, gain, pitchfact, lag, seed0, i), i)
      invariant Holds(randvec[..], NoiseHistory(past, gain, seed0, i), i)
      invariant energy == EnergyRange(PitchHistory(past, gain, pitchfact, lag, seed0, i), BLOCKL, BLOCKL + i)
    {
      ghost var h, k := NoiseHistory(past, gain, seed0, i), PitchHistory(past, gain, pitchfact, lag, seed0, i);
      HistoryKeepsPast(past, gain, pitchfact, lag, seed0, i);
      seed := NextSeed(seed);
      SeedStep(seed0, i);
      var randlag := 50 + seed % 70;
      var x := Earlier(past, randvec, i, randlag, h);
      randvec[i] := Times(gain, x);
      var y := Earlier(past, plc, i, lag, k);
      plc[i] := Times(gain, y);
      plc[i] := Mixed(pitchfact, plc[i], randvec[i]);
      energy := energy + Times(plc[i], plc[i]);
      OneMoreSample(past, gain, pitchfact, lag, seed0, i, randvec[i], plc[i]);
    }
  }

  lemma NothingGenerated(plc: seq<real>, randvec: seq<real>, past: seq<real>, gain: real, f: real, lag: nat, seed: nat)
    requires |past| == BLOCKL && 0 < lag <= BLOCKL
    ensures Holds(plc, PitchHistory(past, gain, f, lag, seed, 0), 0) && Holds(randvec, NoiseHistory(past, gain, seed, 0), 0)
    ensures EnergyRange(PitchHistory(past, gain, f, lag, seed, 0), BLOCKL, BLOCKL) == 0.0
    ensures SeedAfter(seed, 0) == seed
  {
  }

  lemma SeedStep(seed: nat, i: nat)
    ensures SeedAfter(seed, i + 1) == NextSeed(SeedAfter(seed, i))
    ensures RandLag(seed, i) == 50 + SeedAfter(seed, i + 1) % 70
  {
  }

  lemma OneMoreSample(past: seq<real>, gain: real, f: real, lag: nat, seed: nat, i: nat, x: real, y: real)
    requires |past| == BLOCKL && 0 < lag <= BLOCKL
    requires x == Times(gain, NoiseHistory(past, gain, seed, i)[BLOCKL + i - RandLag(seed, i)])
    requires y == Mixed(f, Times(gain, PitchHistory(past, gain, f, lag, seed, i)[BLOCKL + i - lag]), x)
    ensures NoiseHistory(past, gain, seed, i + 1) == NoiseHistory(past, gain, seed, i) + [x]
    ensures var k, k' := PitchHistory(past, gain, f, lag, seed, i), PitchHistory(past, gain, f, lag, seed, i + 1);
            && k' == k + [y]
            && EnergyRange(k', BLOCKL, BLOCKL + i + 1) == EnergyRange(k, BLOCKL, BLOCKL + i) + Times(y, y)
  {
    hide Mixed, SeedAfter, Times;
    var k, k' := PitchHistory(past, gain, f, lag, seed, i), PitchHistory(past, gain, f, lag, seed, i + 1);
    EnergyMoved(k', BLOCKL, k, BLOCKL, i);
  }

  lemma HeldIs(a: seq<real>, h: seq<real>)
    requires |a| == BLOCKL && Holds(a, h, BLOCKL)
    ensures a == NewSamples(h, BLOCKL) && Energy(a) == EnergyRange(h, BLOCKL, 2 * BLOCKL)
  {
    hide Times;
    EnergyMoved(a, 0, h, BLOCKL, BLOCKL);
  }

  // ---------- The three cases ----------

  /** A lost frame, from the lag and the gain it starts from: the residual and the gain recorded. */
  method ConcealResidual(plc: array<real>, past: seq<real>, lag: nat, gain: real, seed0: nat)
    returns (seed: nat, recorded: real, energy: real)
    requires plc.Length == BLOCKL && |past| == BLOCKL && 0 < lag <= BLOCKL
    modifies plc
    ensures seed == SeedAfter(seed0, BLOCKL)
    ensures var pitch := NewSamples(PitchHistory(past, gain, PitchFact(gain), lag, seed0, BLOCKL), BLOCKL);
            var noise := NewSamples(NoiseHistory(past, gain, seed0, BLOCKL), BLOCKL);
            && plc[..] == (if Quiet(Energy(pitch)) then noise else pitch)
            && recorded == (if Quiet(Energy(pitch)) then 0.0 else gain)
    ensures energy == Energy(plc[..])
  {
    hide EnergyRange, NoiseHistory, PitchHistory, SeedAfter, Quiet, NewSamples;
    var randvec := new real[BLOCKL];
    recorded := gain;
    seed, energy := Generate(plc, randvec, past, gain, PitchFact(gain), lag, seed0, BLOCKL);
    HeldIs(plc[..], PitchHistory(past, gain, PitchFact(gain), lag, seed0, BLOCKL));
    HeldIs(randvec[..], NoiseHistory(past, gain, seed0, BLOCKL));
    if Quiet(energy) {
      recorded := 0.0;
      energy := CopyWithEnergy(plc, randvec[..]);
    }
  }

  method CopyWithEnergy(plc: array<real>, from: seq<real>) returns (energy: real)
    requires plc.Length == |from|
    modifies plc
    ensures plc[..] == from && energy == Energy(from)
  {
    hide Times;
    energy := 0.0;
    for i := 0 to plc.Length
      invariant plc[..i] == from[..i] && energy == EnergyRange(from, 0, i)
    {
      plc[i] := from[i];
      energy := energy + Times(plc[i], plc[i]);
    }
  }

  /** The first good frame after a loss, when the recorded gain is high: overlap-add over three subframes. */
  method RecoverResidual(plc: array<real>, past: seq<real>, lag: nat, gain: real, seed0: nat, decoded: seq<real>)
    returns (seed: nat)
    requires plc.Length == BLOCKL && |past| == BLOCKL && 0 < lag <= BLOCKL && |decoded| == BLOCKL
    modifies plc
    ensures seed == SeedAfter(seed0, OFFSET)
    ensures plc[..] == Faded(NewSamples(PitchHistory(past, gain, PitchFact(gain), lag, seed0, OFFSET), OFFSET), decoded)
  {
    hide EnergyRange, Fade, NoiseHistory, PitchHistory, SeedAfter;
    var randvec := new real[BLOCKL];
    var energy;
    seed, energy := Generate(plc, randvec, past, gain, PitchFact(gain), lag, seed0, OFFSET);
    ghost var c := NewSamples(PitchHistory(past, gain, PitchFact(gain), lag, seed0, OFFSET), OFFSET);
    for i := 0 to OFFSET
      invariant forall k {:trigger plc[k]} :: 0 <= k < OFFSET ==> plc[k] == if k < i then Fade(k, c[k], decoded[k]) else c[k]
    {
      plc[i] := Fade(i, plc[i], decoded[i]);
    }
    forall i | OFFSET <= i < BLOCKL {
      plc[i] := decoded[i];
    }
    assert plc[..] == Faded(c, decoded);
  }

  /** The filter of a lost frame: the running product ftmp. */
  method ConcealLpc(lpc: seq<real>) returns (plcLpc: seq<real>)
    requires |lpc| == LPC_FILTERORDER + 1
    ensures plcLpc == ConcealedLpc(lpc)
  {
    hide Times;
    var out := new real[LPC_FILTERORDER + 1];
    var ftmp := 0.99;
    PowerOne();
    out[0] := 1.0;
    for i := 1 to LPC_FILTERORDER + 1
      invariant ftmp == Power(0.99, i)
      invariant forall k {:trigger out[k]} :: 0 <= k < i ==> out[k] == ConcealedLpc(lpc)[k]
    {
      out[i] := Times(ftmp, lpc[i]);
      ftmp := Times(ftmp, 0.99);
    }
    plcLpc := out[..];
  }

  lemma PowerOne()
    ensures Power(0.99, 1) == 0.99
  {
    assert Power(0.99, 0) == 1.0;
  }
}
