/** Concealment fades: bounds over runs of lost frames, and the return to the decoded signal. */
module ConcealmentDecay {
  import opened ConcealmentSpec
  import opened Constants
  import opened Reals
  import opened SearchSpec
  import opened Sequences

  /** No sample of s is larger than p. */
  ghost predicate Bounded(s: seq<real>, p: real) {
    forall i {:trigger s[i]} :: 0 <= i < |s| ==> -p <= s[i] <= p
  }

  // ---------- Products ----------

  lemma TimesShrinks(g: real, x: real, p: real)
    requires 0.0 <= g <= 1.0 && -p <= x <= p
    ensures -Times(g, p) <= Times(g, x) <= Times(g, p) <= p
  {
    assert g * (p - x) >= 0.0 && g * (p + x) >= 0.0 && (1.0 - g) * p >= 0.0;
  }

  lemma TimesMonotonic(g: real, h: real, p: real, q: real)
    requires 0.0 <= g <= h && 0.0 <= p <= q
    ensures 0.0 <= Times(g, p) <= Times(h, q)
  {
    assert (h - g) * q >= 0.0 && g * (q - p) >= 0.0 && g * p >= 0.0;
  }

  lemma ProductNotNegative(x: real, y: real)
    requires 0.0 <= x && 0.0 <= y
    ensures x * y >= 0.0
  {
  }

  lemma MixedBetween(f: real, x: real, y: real, p: real)
    requires 0.0 <= f <= 1.0 && -p <= x <= p && -p <= y <= p
    ensures -p <= Mixed(f, x, y) <= p
  {
    ProductNotNegative(f, p - x);
    ProductNotNegative(f, p + x);
    ProductNotNegative(1.0 - f, p - y);
    ProductNotNegative(1.0 - f, p + y);
  }

  lemma {:induction false} PowerAdd(x: real, m: nat, n: nat)
    ensures Times(Power(x, m), Power(x, n)) == Power(x, m + n)
  {
    if n > 0 {
      PowerAdd(x, m, n - 1);
      TimesAssociates(Power(x, m), Power(x, n - 1), x);
    }
  }

  lemma TimesAssociates(x: real, y: real, z: real)
    ensures Times(x, Times(y, z)) == Times(Times(x, y), z)
  {
  }

  lemma {:induction false} PowerInUnit(x: real, n: nat)
    requires 0.0 <= x <= 1.0
    ensures 0.0 <= Power(x, n) <= 1.0
  {
    if n > 0 {
      PowerInUnit(x, n - 1);
      TimesMonotonic(Power(x, n - 1), 1.0, x, 1.0);
    }
  }

  // ---------- One lost frame ----------

  /** Every noise sample is at most gain times the past peak. */
  lemma {:induction false} NoiseIsBounded(past: seq<real>, gain: real, seed: nat, n: nat, p: real)
    requires |past| == BLOCKL && Bounded(past, p) && 0.0 <= gain <= 1.0
    ensures Bounded(NoiseHistory(past, gain, seed, n), p)
    ensures forall i {:trigger NoiseHistory(past, gain, seed, n)[i]} :: BLOCKL <= i < BLOCKL + n ==>
              -Times(gain, p) <= NoiseHistory(past, gain, seed, n)[i] <= Times(gain, p)
  {
    hide Times, SeedAfter;
    if n > 0 {
      NoiseIsBounded(past, gain, seed, n - 1, p);
      var h := NoiseHistory(past, gain, seed, n - 1);
      TimesShrinks(gain, h[BLOCKL + n - 1 - RandLag(seed, n - 1)], p);
    }
  }

  /** So is every sample of the mixture. */
  lemma {:induction false} PitchIsBounded(past: seq<real>, gain: real, f: real, lag: nat, seed: nat, n: nat, p: real)
    requires |past| == BLOCKL && Bounded(past, p) && 0.0 <= gain <= 1.0 && 0.0 <= f <= 1.0 && 0 < lag <= BLOCKL
    ensures Bounded(PitchHistory(past, gain, f, lag, seed, n), p)
    ensures forall i {:trigger PitchHistory(past, gain, f, lag, seed, n)[i]} :: BLOCKL <= i < BLOCKL + n ==>
              -Times(gain, p) <= PitchHistory(past, gain, f, lag, seed, n)[i] <= Times(gain, p)
  {
    hide Times, SeedAfter, NoiseHistory, Mixed;
    if n > 0 {
      PitchIsBounded(past, gain, f, lag, seed, n - 1, p);
      NoiseIsBounded(past, gain, seed, n, p);
      var h := PitchHistory(past, gain, f, lag, seed, n - 1);
      TimesShrinks(gain, h[BLOCKL + n - 1 - lag], p);
      MixedBetween(f, Times(gain, h[BLOCKL + n - 1 - lag]), NoiseHistory(past, gain, seed, n)[BLOCKL + n - 1], Times(gain, p));
    }
  }

  /** A lost frame scales the peak by its gain, and records no larger gain. */
  lemma LossScales(s: State, inlag: nat, p: real)
    requires Sound(s) && IsLag(inlag) && Bounded(s.residual, p)
    ensures var t := Concealed(s, inlag);
            Bounded(t.residual, Times(GainOfLoss(s, inlag), p)) && t.gain <= GainOfLoss(s, inlag)
  {
    hide Times, PitchHistory, NoiseHistory, LagOf, GainOfLoss, Quiet, Energy, SeedAfter, Sub;
    var gain := GainOfLoss(s, inlag);
    PitchIsBounded(s.residual, gain, PitchFact(gain), LagOf(s, inlag), s.seed, BLOCKL, p);
    NoiseIsBounded(s.residual, gain, s.seed, BLOCKL, p);
  }

  // ---------- Runs of lost frames ----------

  /** Frames from to from + n - 1 are lost, the one before them was not. */
  ghost predicate Burst(fs: seq<Frame>, from: nat, n: nat) {
    && from + n <= |fs| && (from == 0 || fs[from - 1].Good?)
    && forall i :: from <= i < from + n ==> fs[i].Lost?
  }

  /** 0 + 1 + ... + (n - 1). */
  function Triangular(n: nat): (t: nat)
    ensures 2 * t == n * (n - 1)
  {
    if n == 0 then 0 else Triangular(n - 1) + (n - 1)
  }

  /** The first loss after a good frame. */
  lemma FirstLoss(s: State, inlag: nat, p: real)
    requires Sound(s) && !s.lost && IsLag(inlag) && Bounded(s.residual, p)
    ensures Concealed(s, inlag).gain <= Power(0.9, 0)
    ensures Bounded(Concealed(s, inlag).residual, Times(Power(0.9, Triangular(1)), p))
  {
    hide Concealed, GainOfLoss, Times;
    PeakIsNatural(s.residual, p);
    LossScales(s, inlag, p);
    GainAfterLoss(s, inlag);
    PowerZero(p);
    TimesMonotonic(GainOfLoss(s, inlag), 1.0, p, p);
  }

  /** Each further loss. */
  lemma NextLoss(s: State, inlag: nat, n: nat, p: real)
    requires Sound(s) && s.lost && IsLag(inlag) && p >= 0.0 && s.gain <= Power(0.9, n)
    requires Bounded(s.residual, Times(Power(0.9, Triangular(n + 1)), p))
    ensures Concealed(s, inlag).gain <= Power(0.9, n + 1)
    ensures Bounded(Concealed(s, inlag).residual, Times(Power(0.9, Triangular(n + 2)), p))
  {
    hide Concealed, GainOfLoss, Power, Times, Triangular;
    var tri := Triangular(n + 1);
    var peak := Times(Power(0.9, tri), p);
    LossScales(s, inlag, peak);
    GainAfterLoss(s, inlag);
    PowerInUnit(0.9, tri);
    TimesMonotonic(0.0, Power(0.9, tri), p, p);
    PowerOneMore(0.9, n);
    TimesMonotonic(s.gain, Power(0.9, n), 0.9, 0.9);
    TimesMonotonic(GainOfLoss(s, inlag), Power(0.9, n + 1), peak, peak);
    PowerAdd(0.9, n + 1, tri);
    TriangularOneMore(n + 1);
    TimesAssociates(Power(0.9, n + 1), Power(0.9, tri), p);
  }

  lemma TriangularOneMore(n: nat)
    ensures Triangular(n + 1) == n + Triangular(n)
  {
  }

  /**
   n frames after the last good one, the recorded gain is at most 0.9^(n-1) and the peak at most
   0.9^(n(n-1)/2) times that of the last good residual, whatever the lags and the noise.
   */
  lemma {:induction false} BurstDecays(s: State, fs: seq<Frame>, unset: seq<real>, from: nat, n: nat, p: real)
    requires Sound(s) && !s.lost && AreFrames(fs) && |fs| == |unset| && Burst(fs, from, n) && n > 0
    requires Bounded(Run(s, fs, unset, from).residual, p)
    ensures var t := Run(s, fs, unset, from + n);
            && 0.0 <= t.gain <= Power(0.9, n - 1)
            && Bounded(t.residual, Times(Power(0.9, Triangular(n)), p))
  {
    hide Concealed, Power, Run, Streak, Times, Triangular;
    var q, inlag := Run(s, fs, unset, from + n - 1), fs[from + n - 1].inlag;
    CounterIsStreak(s, fs, unset, from + n - 1);
    CounterIsStreak(s, fs, unset, from + n);
    RunStep(s, fs, unset, from + n);
    if n == 1 {
      FirstLoss(q, inlag, p);
    } else {
      BurstDecays(s, fs, unset, from, n - 1, p);
      PeakIsNatural(Run(s, fs, unset, from).residual, p);
      NextLoss(q, inlag, n - 2, p);
    }
  }

  lemma RunStep(s: State, fs: seq<Frame>, unset: seq<real>, n: nat)
    requires Sound(s) && AreFrames(fs) && 0 < n <= |fs| == |unset| && fs[n - 1].Lost?
    ensures Run(s, fs, unset, n) == Concealed(Run(s, fs, unset, n - 1), fs[n - 1].inlag)
  {
  }

  /** After a loss the next lost frame uses 0.9 of the recorded gain. */
  lemma GainAfterLoss(s: State, inlag: nat)
    requires Sound(s) && IsLag(inlag)
    ensures s.lost ==> GainOfLoss(s, inlag) == Times(s.gain, 0.9)
    ensures 0.0 <= GainOfLoss(s, inlag) <= 1.0
  {
  }

  lemma PeakIsNatural(s: seq<real>, p: real)
    requires |s| > 0 && Bounded(s, p)
    ensures p >= 0.0
  {
    assert -p <= s[0] <= p;
  }

  lemma PowerZero(p: real)
    ensures Power(0.9, 0) == 1.0 && Triangular(1) == 0 && Times(Power(0.9, 0), p) == p == Times(1.0, p)
  {
  }

  lemma PowerOneMore(x: real, n: nat)
    ensures Power(x, n + 1) == Times(Power(x, n), x)
  {
  }

  /** The filter fades too: after n losses coefficient i is (0.99^i)^n times that of the last good frame. */
  lemma {:induction false} BurstExpandsFilter(s: State, fs: seq<Frame>, unset: seq<real>, from: nat, n: nat, i: nat)
    requires Sound(s) && AreFrames(fs) && |fs| == |unset| && Burst(fs, from, n) && n > 0 && i < LPC_FILTERORDER + 1
    ensures var t := Run(s, fs, unset, from + n);
            t.lpc[i] == if i == 0 then 1.0 else Times(Power(Power(0.99, i), n), Run(s, fs, unset, from).lpc[i])
  {
    hide Concealed, Power, Run, Times;
    RunStep(s, fs, unset, from + n);
    LossExpands(Run(s, fs, unset, from + n - 1), fs[from + n - 1].inlag, i);
    var x := Power(0.99, i);
    if n == 1 {
      PowerOfOne(x);
    } else if i > 0 {
      BurstExpandsFilter(s, fs, unset, from, n - 1, i);
      PowerOfOne(x);
      PowerAdd(x, 1, n - 1);
      TimesAssociates(x, Power(x, n - 1), Run(s, fs, unset, from).lpc[i]);
    }
  }

  lemma LossExpands(s: State, inlag: nat, i: nat)
    requires Sound(s) && IsLag(inlag) && i < LPC_FILTERORDER + 1
    ensures Concealed(s, inlag).lpc[i] == if i == 0 then 1.0 else Times(Power(0.99, i), s.lpc[i])
  {
    hide Power, Times;
  }

  lemma PowerOfOne(x: real)
    ensures Power(x, 1) == x
  {
    assert Power(x, 0) == 1.0;
  }

  // ---------- Back to the decoded signal ----------

  /** The first good frame: its second half is the decoded residual, its first half no louder than either source. */
  lemma RecoveryIsBounded(s: State, decoded: seq<real>, lpc: seq<real>, p: real)
    requires Sound(s) && s.lost && |decoded| == BLOCKL && |lpc| == LPC_FILTERORDER + 1
    requires Bounded(s.residual, p) && Bounded(decoded, p)
    ensures var t := Recovered(s, decoded, lpc);
            && Bounded(t.residual, p)
            && (forall i :: OFFSET <= i < BLOCKL ==> t.residual[i] == decoded[i])
            && (s.gain < 0.5 ==> t.residual == decoded)
  {
    hide PitchHistory, SeedAfter, Sub;
    if s.gain >= 0.5 {
      PitchIsBounded(s.residual, s.gain, PitchFact(s.gain), s.lag, s.seed, OFFSET, p);
      var h := PitchHistory(s.residual, s.gain, PitchFact(s.gain), s.lag, s.seed, OFFSET);
      forall i | 0 <= i < OFFSET
        ensures -p <= Fade(i, h[BLOCKL + i], decoded[i]) <= p
      {
        var w := (i + 1) as real / (OFFSET + 1) as real;
        MixedBetween(w, decoded[i], h[BLOCKL + i], p);
      }
    }
  }

  /** The frame after that is not touched at all: concealment has no longer memory. */
  lemma SecondGoodFrameIsDecoded(s: State, f: Frame, g: Frame, u: real, v: real)
    requires Sound(s) && IsFrame(f) && IsFrame(g) && f.Good? && g.Good?
    ensures Sound(Step(s, f, u))
    ensures var t := Step(Step(s, f, u), g, v);
            t.residual == g.residual && t.lpc == g.lpc && t.count == 0 && !t.lost
  {
    hide PitchHistory, SeedAfter, Sub;
    StepKeepsSound(s, f, u);
  }
}
