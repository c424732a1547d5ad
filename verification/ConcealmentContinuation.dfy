/**
 What a concealed frame sounds like: the pitch of the past goes on as far as the gain vouches for
 it, and the first good frame takes over step by step.
 */
module ConcealmentContinuation {
  import opened ConcealmentDecay
  import opened ConcealmentSpec
  import opened Constants
  import opened Correlations
  import opened Reals
  import opened SearchSpec
  import opened Sequences

  // ---------- The pitch goes on ----------

  lemma ShareOfNoise(f: real, x: real, y: real, p: real)
    requires 0.0 <= f <= 1.0 && -p <= x <= p && -p <= y <= p
    ensures Abs(Mixed(f, x, y) - x) <= (1.0 - f) * (2.0 * p)
    ensures Mixed(f, x, y) - x == (1.0 - f) * (y - x)
  {
    assert Mixed(f, x, y) - x == (1.0 - f) * (y - x);
    ProductNotNegative(1.0 - f, 2.0 * p - (y - x));
    ProductNotNegative(1.0 - f, 2.0 * p + (y - x));
  }

  lemma {:induction false} HistoryPrefix(past: seq<real>, gain: real, f: real, lag: nat, seed: nat, m: nat, n: nat)
    requires |past| == BLOCKL && 0 < lag <= BLOCKL && m <= n
    ensures PitchHistory(past, gain, f, lag, seed, n)[..BLOCKL + m] == PitchHistory(past, gain, f, lag, seed, m)
  {
    hide NoiseHistory, Mixed, Times;
    if m < n {
      HistoryPrefix(past, gain, f, lag, seed, m, n - 1);
      var h := PitchHistory(past, gain, f, lag, seed, n - 1);
      assert PitchHistory(past, gain, f, lag, seed, n)[..BLOCKL + m] == h[..BLOCKL + m];
    }
  }

  lemma {:induction false} NoisePrefix(past: seq<real>, gain: real, seed: nat, m: nat, n: nat)
    requires |past| == BLOCKL && m <= n
    ensures NoiseHistory(past, gain, seed, n)[..BLOCKL + m] == NoiseHistory(past, gain, seed, m)
  {
    hide Times, RandLag;
    if m < n {
      NoisePrefix(past, gain, seed, m, n - 1);
      var h := NoiseHistory(past, gain, seed, n - 1);
      assert NoiseHistory(past, gain, seed, n)[..BLOCKL + m] == h[..BLOCKL + m];
    }
  }

  lemma PitchSampleIs(past: seq<real>, g: real, f: real, lag: nat, seed: nat, n: nat, i: nat)
    requires |past| == BLOCKL && 0 < lag <= BLOCKL && i < n
    ensures var h := PitchHistory(past, g, f, lag, seed, n);
            h[BLOCKL + i] == Mixed(f, Times(g, h[BLOCKL + i - lag]), NoiseHistory(past, g, seed, n)[BLOCKL + i])
  {
    hide NoiseHistory, Mixed, Times, SeedAfter;
    var h, q := PitchHistory(past, g, f, lag, seed, n), PitchHistory(past, g, f, lag, seed, i);
    HistoryPrefix(past, g, f, lag, seed, i + 1, n);
    HistoryPrefix(past, g, f, lag, seed, i, n);
    NoisePrefix(past, g, seed, i + 1, n);
    assert h[BLOCKL + i] == h[..BLOCKL + (i + 1)][BLOCKL + i];
    assert h[BLOCKL + i - lag] == h[..BLOCKL + i][BLOCKL + i - lag] == q[BLOCKL + i - lag];
    assert NoiseHistory(past, g, seed, n)[BLOCKL + i] == NoiseHistory(past, g, seed, n)[..BLOCKL + (i + 1)][BLOCKL + i];
  }

  /**
   Every new sample is the one a lag before it times the gain, but for the share of the noise,
   which is the rest of 0.95 times the gain.
   */
  lemma PitchGoesOn(past: seq<real>, g: real, lag: nat, seed: nat, n: nat, i: nat, p: real)
    requires |past| == BLOCKL && Bounded(past, p) && 0.0 <= g <= 1.0 && 0 < lag <= BLOCKL && i < n
    ensures var h, noise := PitchHistory(past, g, PitchFact(g), lag, seed, n), NoiseHistory(past, g, seed, n);
            && Abs(h[BLOCKL + i] - Times(g, h[BLOCKL + i - lag])) <= (1.0 - 0.95 * g) * (2.0 * Times(g, p))
            && h[BLOCKL + i] - Times(g, h[BLOCKL + i - lag])
               == (1.0 - 0.95 * g) * (noise[BLOCKL + i] - Times(g, h[BLOCKL + i - lag]))
  {
    hide NoiseHistory, PitchHistory, Mixed, Times, SeedAfter;
    var f := PitchFact(g);
    var h := PitchHistory(past, g, f, lag, seed, n);
    PitchSampleIs(past, g, f, lag, seed, n, i);
    PitchIsBounded(past, g, f, lag, seed, n, p);
    NoiseIsBounded(past, g, seed, n, p);
    TimesShrinks(g, h[BLOCKL + i - lag], p);
    ShareOfNoise(f, Times(g, h[BLOCKL + i - lag]), NoiseHistory(past, g, seed, n)[BLOCKL + i], Times(g, p));
  }

  /** A lost frame that is not quiet goes on with its past at the recorded lag. */
  lemma LossContinuesPitch(s: State, inlag: nat, i: nat, p: real)
    requires Sound(s) && IsLag(inlag) && Bounded(s.residual, p) && i < BLOCKL
    requires !Quiet(Energy(PitchPart(s, inlag)))
    ensures var t, g := Concealed(s, inlag), GainOfLoss(s, inlag);
            && t.gain == g
            && Abs(t.residual[i] - Times(g, (s.residual + t.residual)[BLOCKL + i - t.lag]))
               <= (1.0 - 0.95 * g) * (2.0 * Times(g, p))
  {
    hide PitchHistory, Times, Quiet, Energy, LagOf, GainOfLoss, PitchFact, SeedAfter, NoiseHistory, Bounded, ConcealedLpc;
    var g, lag := GainOfLoss(s, inlag), LagOf(s, inlag);
    var h := PitchHistory(s.residual, g, PitchFact(g), lag, s.seed, BLOCKL);
    HistoryIs(s.residual, g, PitchFact(g), lag, s.seed, BLOCKL);
    PitchGoesOn(s.residual, g, lag, s.seed, BLOCKL, i, p);
    assert h == s.residual + PitchPart(s, inlag);
  }

  /** Every noise sample is the gain times one from 50 to 119 samples before, at the lag the next seed gives. */
  lemma NoiseSampleIs(past: seq<real>, g: real, seed: nat, n: nat, i: nat)
    requires |past| == BLOCKL && i < n
    ensures var noise := NoiseHistory(past, g, seed, n);
            noise[BLOCKL + i] == Times(g, noise[BLOCKL + i - (50 + SeedAfter(seed, i + 1) % 70)])
  {
    hide Times, SeedAfter;
    var h, q := NoiseHistory(past, g, seed, n), NoiseHistory(past, g, seed, i);
    NoisePrefix(past, g, seed, i + 1, n);
    NoisePrefix(past, g, seed, i, n);
    assert h[BLOCKL + i] == h[..BLOCKL + (i + 1)][BLOCKL + i];
    assert h[BLOCKL + i - RandLag(seed, i)] == h[..BLOCKL + i][BLOCKL + i - RandLag(seed, i)] == q[BLOCKL + i - RandLag(seed, i)];
  }

  /** A lost frame that would be quiet is noise of its past instead, and the losses after it are silent. */
  lemma QuietLossIsNoise(s: State, inlag: nat, i: nat)
    requires Sound(s) && IsLag(inlag) && i < BLOCKL
    requires Quiet(Energy(PitchPart(s, inlag)))
    ensures var t, g := Concealed(s, inlag), GainOfLoss(s, inlag);
            && t.residual[i] == Times(g, (s.residual + t.residual)[BLOCKL + i - (50 + SeedAfter(s.seed, i + 1) % 70)])
            && t.gain == 0.0 && GainOfLoss(t, inlag) == 0.0
  {
    hide PitchHistory, Times, Quiet, Energy, LagOf, PitchFact, SeedAfter, NoiseHistory, ConcealedLpc;
    var g := GainOfLoss(s, inlag);
    NoisePrefix(s.residual, g, s.seed, 0, BLOCKL);
    NoiseSampleIs(s.residual, g, s.seed, BLOCKL, i);
    NoNoiseYet(s.residual, g, s.seed);
    assert NoiseHistory(s.residual, g, s.seed, BLOCKL) == s.residual + NoisePart(s, inlag);
  }

  lemma NoNoiseYet(past: seq<real>, g: real, seed: nat)
    requires |past| == BLOCKL
    ensures NoiseHistory(past, g, seed, 0) == past
  {
  }

  lemma HistoryIs(past: seq<real>, g: real, f: real, lag: nat, seed: nat, n: nat)
    requires |past| == BLOCKL && 0 < lag <= BLOCKL
    ensures PitchHistory(past, g, f, lag, seed, n) == past + NewSamples(PitchHistory(past, g, f, lag, seed, n), n)
  {
    hide PitchHistory;
    HistoryPrefix(past, g, f, lag, seed, 0, n);
    assert PitchHistory(past, g, f, lag, seed, 0) == past by {
      EmptyHistory(past, g, f, lag, seed);
    }
  }

  lemma EmptyHistory(past: seq<real>, g: real, f: real, lag: nat, seed: nat)
    requires |past| == BLOCKL && 0 < lag <= BLOCKL
    ensures PitchHistory(past, g, f, lag, seed, 0) == past
  {
  }

  // ---------- The pitch that goes on ----------

  /** The last samples of the past, and those a lag before them. */
  function Tail(past: seq<real>): (t: seq<real>)
    requires |past| == BLOCKL
    ensures |t| == CORR_RANGE
  {
    Sub(past, BLOCKL - CORR_RANGE, CORR_RANGE)
  }

  function BeforeTail(past: seq<real>, lag: nat): (t: seq<real>)
    requires |past| == BLOCKL && lag + CORR_RANGE <= BLOCKL
    ensures |t| == CORR_RANGE
  {
    Sub(past, BLOCKL - CORR_RANGE - lag, CORR_RANGE)
  }

  /** The past ends with a multiple of what was a lag before. */
  ghost predicate Echoes(past: seq<real>, lag: nat)
    requires |past| == BLOCKL && lag + CORR_RANGE <= BLOCKL
  {
    exists g :: IsMultiple(Tail(past), g, BeforeTail(past, lag))
  }

  lemma NoEcho(x: seq<real>, g: real, y: seq<real>)
    requires |x| == |y| && IsMultiple(x, g, y) && Energy(x) > 0.0
    ensures Energy(y) > 0.0
  {
    hide Times, Square, EnergyRange, DotTo, IsMultiple;
    MultipleIs(x, g, y, |x|);
    EnergyIsNatural(y, |y|);
    TimesZero(Square(g));
  }

  /** The correlation at a lag is at most the energy of the end of the past, and all of it exactly at an echo. */
  lemma EchoCorrelates(past: seq<real>, lag: nat)
    requires |past| == BLOCKL && lag + CORR_RANGE <= BLOCKL && Energy(Tail(past)) > 0.0
    ensures Correlation(past, lag) <= Energy(Tail(past))
    ensures Correlation(past, lag) == Energy(Tail(past)) <==> Echoes(past, lag)
  {
    hide Times, EnergyRange, DotTo, IsMultiple, Sub;
    var x, y := Tail(past), BeforeTail(past, lag);
    if Echoes(past, lag) {
      var g :| IsMultiple(x, g, y);
      NoEcho(x, g, y);
      FactorIs(x, g, y);
    }
    CauchySchwarz(x, y);
    if Energy(y) > 0.0 {
      SquareAsProduct(Dot(x, y));
      QuotientAtMost(Square(Dot(x, y)), Energy(y), Energy(x));
      OnlyMultiplesMeetBound(x, y);
    }
  }

  /** At an echo the gain is the factor, without its sign. */
  lemma EchoGain(past: seq<real>, lag: nat, g: real)
    requires |past| == BLOCKL && lag + CORR_RANGE <= BLOCKL && Energy(Tail(past)) > 0.0
    requires IsMultiple(Tail(past), g, BeforeTail(past, lag))
    ensures CorrelationGain(past, lag) == Abs(g)
  {
    hide Times, EnergyRange, DotTo, IsMultiple, Sub;
    NoEcho(Tail(past), g, BeforeTail(past, lag));
    FactorIs(Tail(past), g, BeforeTail(past, lag));
  }

  /**
   If the past ends with an echo at one of the seven lags, the first loss goes on with the
   smallest such lag, and with the factor of that echo as its gain, 1 at most.
   */
  lemma LossFollowsEcho(s: State, inlag: nat, l: nat)
    requires Sound(s) && !s.lost && IsLag(inlag) && inlag - 3 <= l <= inlag + 3
    requires Energy(Tail(s.residual)) > 0.0 && Echoes(s.residual, l)
    ensures var lag := LagOf(s, inlag);
            && Concealed(s, inlag).lag == lag && inlag - 3 <= lag <= inlag + 3 && Echoes(s.residual, lag)
            && (forall k :: inlag - 3 <= k < lag ==> !Echoes(s.residual, k))
            && forall g {:trigger IsMultiple(Tail(s.residual), g, BeforeTail(s.residual, lag))} ::
                 IsMultiple(Tail(s.residual), g, BeforeTail(s.residual, lag)) ==> GainOfLoss(s, inlag) == CapOne(Abs(g))
  {
    hide Correlation, CorrelationGain, Echoes, Tail, BeforeTail, Energy, Quiet, PitchHistory, NoiseHistory, PitchLag, IsMultiple,
      SeedAfter, ConcealedLpc;
    var past := s.residual;
    forall k | inlag - 3 <= k <= inlag + 3
      ensures Correlation(past, k) <= Energy(Tail(past)) && (Correlation(past, k) == Energy(Tail(past)) <==> Echoes(past, k))
    {
      EchoCorrelates(past, k);
    }
    var lag := PitchLag(past, inlag, inlag + 3);
    assert BestLag(lag, past, inlag, inlag + 3);
    assert Correlation(past, l) == Energy(Tail(past));
    forall g | IsMultiple(Tail(past), g, BeforeTail(past, lag))
      ensures GainOfLoss(s, inlag) == CapOne(Abs(g))
    {
      EchoGain(past, lag, g);
    }
  }

  // ---------- Back to the decoded signal ----------

  lemma FadeMoves(i: nat, c: real, d: real)
    requires i < OFFSET
    ensures Times((OFFSET + 1) as real, Fade(i, c, d) - c) == Times((i + 1) as real, d - c)
  {
    var n, w := (OFFSET + 1) as real, (i + 1) as real / (OFFSET + 1) as real;
    assert Fade(i, c, d) - c == w * (d - c);
    assert n * (w * (d - c)) == (n * w) * (d - c);
  }

  /**
   The first good frame starts as the concealment would have gone on and moves to the decoded
   residual in equal steps: after sample i it is i + 1 of 121 parts of the way there.
   */
  lemma RecoveryMovesToDecoded(s: State, decoded: seq<real>, lpc: seq<real>, i: nat)
    requires Sound(s) && s.lost && s.gain >= 0.5 && |decoded| == BLOCKL && |lpc| == LPC_FILTERORDER + 1 && i < OFFSET
    ensures var t, h := Recovered(s, decoded, lpc), PitchHistory(s.residual, s.gain, PitchFact(s.gain), s.lag, s.seed, OFFSET);
            Times((OFFSET + 1) as real, t.residual[i] - h[BLOCKL + i]) == Times((i + 1) as real, decoded[i] - h[BLOCKL + i])
  {
    hide PitchHistory, Times, Fade, SeedAfter;
    var h := PitchHistory(s.residual, s.gain, PitchFact(s.gain), s.lag, s.seed, OFFSET);
    FadeMoves(i, h[BLOCKL + i], decoded[i]);
  }

  // ---------- Quiet ----------

  lemma {:induction false} EnergyOfConstant(v: seq<real>, x: real, n: nat)
    requires n <= |v| && forall i :: 0 <= i < |v| ==> v[i] == x
    ensures EnergyRange(v, 0, n) == Times(n as real, Square(x))
  {
    if n > 0 {
      EnergyOfConstant(v, x, n - 1);
      assert n as real == (n - 1) as real + 1.0;
    }
  }

  /** A concealed frame is quiet if it has less energy than one that is 30 throughout. */
  lemma QuietMeans(r: seq<real>, v: seq<real>)
    requires |r| == |v| == BLOCKL && forall i :: 0 <= i < BLOCKL ==> v[i] == 30.0
    ensures Quiet(Energy(r)) <==> Energy(r) < Energy(v)
  {
    hide EnergyRange;
    EnergyOfConstant(v, 30.0, BLOCKL);
  }
}
