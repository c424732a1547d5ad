/**
 Packet loss concealment as a state machine: what a good and a lost frame do to the residual,
 to the filter and to the recorded state, and what that means over runs of frames.
 */
module ConcealmentSpec {
  import opened Constants
  import opened Reals
  import opened SearchSpec
  import opened Sequences

  const CORR_RANGE: nat := 60
  const OFFSET: nat := 120

  // ---------- Pseudo-random lags ----------

  function NextSeed(seed: nat): (s: nat)
    ensures s < 0x8000_0000
  {
    (seed * 69069 + 1) % 0x8000_0000
  }

  /** The seed after n steps. */
  function SeedAfter(seed: nat, n: nat): nat {
    if n == 0 then seed else NextSeed(SeedAfter(seed, n - 1))
  }

  /** The noise lag of sample i. */
  function RandLag(seed: nat, i: nat): (lag: nat)
    ensures 50 <= lag < 120
  {
    50 + SeedAfter(seed, i + 1) % 70
  }

  // ---------- Signals that repeat their own past ----------

  /** The past block and n noise samples: each is a scaled sample from a random lag before it. */
  function NoiseHistory(past: seq<real>, gain: real, seed: nat, n: nat): (h: seq<real>)
    requires |past| == BLOCKL
    ensures |h| == BLOCKL + n
  {
    if n == 0 then past else
    var h := NoiseHistory(past, gain, seed, n - 1);
    h + [Times(gain, h[BLOCKL + n - 1 - RandLag(seed, n - 1)])]
  }

  function Mixed(pitchfact: real, x: real, y: real): real {
    pitchfact * x + (1.0 - pitchfact) * y
  }

  /** The past block and n samples that mix repetition at the pitch lag with noise. */
  function PitchHistory(past: seq<real>, gain: real, pitchfact: real, lag: nat, seed: nat, n: nat): (h: seq<real>)
    requires |past| == BLOCKL && 0 < lag <= BLOCKL
    ensures |h| == BLOCKL + n
  {
    if n == 0 then past else
    var h := PitchHistory(past, gain, pitchfact, lag, seed, n - 1);
    h + [Mixed(pitchfact, Times(gain, h[BLOCKL + n - 1 - lag]), NoiseHistory(past, gain, seed, n)[BLOCKL + n - 1])]
  }

  /** The new samples of a history. */
  function NewSamples(h: seq<real>, n: nat): (s: seq<real>)
    requires |h| == BLOCKL + n
    ensures |s| == n
  {
    Sub(h, BLOCKL, n)
  }

  /** The weight of pitch repetition against noise. */
  function PitchFact(gain: real): real {
    if gain > 1.0 then 0.95 else if gain < 0.0 then 0.0 else 0.95 * gain
  }

  // ---------- The pitch lag ----------

  /** The last samples of the past, and those `lag` before them. */
  function Numerator(past: seq<real>, lag: nat): real
    requires |past| == BLOCKL && lag + CORR_RANGE <= BLOCKL
  {
    Dot(Sub(past, BLOCKL - CORR_RANGE, CORR_RANGE), Sub(past, BLOCKL - CORR_RANGE - lag, CORR_RANGE))
  }

  function Denominator(past: seq<real>, lag: nat): real
    requires |past| == BLOCKL && lag + CORR_RANGE <= BLOCKL
  {
    Energy(Sub(past, BLOCKL - CORR_RANGE - lag, CORR_RANGE))
  }

  /** compCorr: the normalised correlation at a lag. */
  function Correlation(past: seq<real>, lag: nat): real
    requires |past| == BLOCKL && lag + CORR_RANGE <= BLOCKL
  {
    var num, den := Numerator(past, lag), Denominator(past, lag);
    if den > 0.0 then num * num / den else 0.0
  }

  /** compCorr: the gain at a lag. */
  function CorrelationGain(past: seq<real>, lag: nat): (g: real)
    requires |past| == BLOCKL && lag + CORR_RANGE <= BLOCKL
    ensures g >= 0.0
  {
    var num, den := Numerator(past, lag), Denominator(past, lag);
    if den > 0.0 then Abs(num / den) else 0.0
  }

  /** A lag the enhancer or the decoder's own search may hand over. */
  predicate IsLag(inlag: nat) {
    20 <= inlag < 120
  }

  /** The first lag of the largest correlation in inlag - 3 to last. */
  ghost predicate BestLag(lag: nat, past: seq<real>, inlag: nat, last: nat)
    requires |past| == BLOCKL && IsLag(inlag) && last <= inlag + 3
  {
    && inlag - 3 <= lag <= last
    && (forall l :: inlag - 3 <= l <= last ==> Correlation(past, l) <= Correlation(past, lag))
    && (forall l :: inlag - 3 <= l < lag ==> Correlation(past, l) < Correlation(past, lag))
  }

  lemma FirstIsBest(past: seq<real>, inlag: nat)
    requires |past| == BLOCKL && IsLag(inlag)
    ensures BestLag(inlag - 3, past, inlag, inlag - 3)
  {
  }

  lemma BestLagGrows(past: seq<real>, inlag: nat, last: nat, lag: nat)
    requires |past| == BLOCKL && IsLag(inlag) && inlag - 3 < last <= inlag + 3 && BestLag(lag, past, inlag, last - 1)
    ensures BestLag(if Correlation(past, last) > Correlation(past, lag) then last else lag, past, inlag, last)
  {
    hide Correlation;
  }

  /** That lag, by scanning upwards. */
  function PitchLag(past: seq<real>, inlag: nat, last: nat): (lag: nat)
    requires |past| == BLOCKL && IsLag(inlag) && inlag - 3 <= last <= inlag + 3
    ensures inlag - 3 <= lag <= last && BestLag(lag, past, inlag, last)
    decreases last
  {
    hide Correlation, BestLag;
    if last == inlag - 3 then FirstIsBest(past, inlag); last else
    var lag := PitchLag(past, inlag, last - 1);
    BestLagGrows(past, inlag, last, lag);
    if Correlation(past, last) > Correlation(past, lag) then last else lag
  }

  // ---------- One frame ----------

  /** The concealment part of the decoder instance. */
  datatype State = State(lost: bool, count: nat, lag: nat, gain: real, lpc: seq<real>, residual: seq<real>, seed: nat)

  datatype Frame = Good(residual: seq<real>, lpc: seq<real>) | Lost(inlag: nat)

  predicate IsFrame(f: Frame) {
    match f
    case Good(residual, lpc) => |residual| == BLOCKL && |lpc| == LPC_FILTERORDER + 1
    case Lost(inlag) => IsLag(inlag)
  }

  /** What holds between frames: a recorded lag and gain are only there, and only needed, after a loss. */
  predicate Sound(s: State) {
    && |s.lpc| == LPC_FILTERORDER + 1 && |s.residual| == BLOCKL
    && (s.lost <==> s.count > 0)
    && (s.lost ==> 17 <= s.lag <= 122 && 0.0 <= s.gain <= 1.0)
  }

  function CapOne(x: real): real {
    if x > 1.0 then 1.0 else x
  }

  /** The lag and the gain a lost frame starts from. */
  function LagOf(s: State, inlag: nat): (lag: nat)
    requires Sound(s) && IsLag(inlag)
    ensures 17 <= lag <= 122
  {
    if s.lost then s.lag else PitchLag(s.residual, inlag, inlag + 3)
  }

  function GainOfLoss(s: State, inlag: nat): (g: real)
    requires Sound(s) && IsLag(inlag)
    ensures 0.0 <= g <= 1.0
  {
    if s.lost then s.gain * 0.9 else CapOne(CorrelationGain(s.residual, PitchLag(s.residual, inlag, inlag + 3)))
  }

  /** The concealed residual: pitch repetition and noise, or noise alone when that is below 30 dB. */
  function PitchPart(s: State, inlag: nat): (r: seq<real>)
    requires Sound(s) && IsLag(inlag)
    ensures |r| == BLOCKL
  {
    var gain := GainOfLoss(s, inlag);
    NewSamples(PitchHistory(s.residual, gain, PitchFact(gain), LagOf(s, inlag), s.seed, BLOCKL), BLOCKL)
  }

  function NoisePart(s: State, inlag: nat): (r: seq<real>)
    requires Sound(s) && IsLag(inlag)
    ensures |r| == BLOCKL
  {
    NewSamples(NoiseHistory(s.residual, GainOfLoss(s, inlag), s.seed, BLOCKL), BLOCKL)
  }

  /** sqrt(energy / 240) < 30, squared. */
  predicate Quiet(energy: real) {
    energy / 240.0 < 900.0
  }

  /** Bandwidth expansion of the previous filter. */
  function ConcealedLpc(lpc: seq<real>): (r: seq<real>)
    requires |lpc| == LPC_FILTERORDER + 1
    ensures |r| == LPC_FILTERORDER + 1
  {
    seq(LPC_FILTERORDER + 1, i requires 0 <= i < LPC_FILTERORDER + 1 => if i == 0 then 1.0 else Times(Power(0.99, i), lpc[i]))
  }

  function Concealed(s: State, inlag: nat): (t: State)
    requires Sound(s) && IsLag(inlag)
  {
    var quiet := Quiet(Energy(PitchPart(s, inlag)));
    State(true, s.count + 1, LagOf(s, inlag), if quiet then 0.0 else GainOfLoss(s, inlag), ConcealedLpc(s.lpc),
          if quiet then NoisePart(s, inlag) else PitchPart(s, inlag), SeedAfter(s.seed, BLOCKL))
  }

  /** The first good frame after a loss: the concealment is faded out over the first half. */
  function Faded(concealed: seq<real>, decoded: seq<real>): (r: seq<real>)
    requires |concealed| == OFFSET && |decoded| == BLOCKL
    ensures |r| == BLOCKL
  {
    seq(BLOCKL, i requires 0 <= i < BLOCKL => if i < OFFSET then Fade(i, concealed[i], decoded[i]) else decoded[i])
  }

  function Fade(i: nat, concealed: real, decoded: real): real {
    var w := (i + 1) as real / (OFFSET + 1) as real;
    concealed * (1.0 - w) + decoded * w
  }

  function Recovered(s: State, decoded: seq<real>, lpc: seq<real>): (t: State)
    requires Sound(s) && s.lost && |decoded| == BLOCKL && |lpc| == LPC_FILTERORDER + 1
  {
    if s.gain >= 0.5 then
      var h := PitchHistory(s.residual, s.gain, PitchFact(s.gain), s.lag, s.seed, OFFSET);
      State(false, 0, s.lag, s.gain, lpc, Faded(NewSamples(h, OFFSET), decoded), SeedAfter(s.seed, OFFSET))
    else State(false, 0, s.lag, s.gain, lpc, decoded, s.seed)
  }

  /** One frame. The gain a good frame records after a good one is whatever the variable held: `unset`. */
  function Step(s: State, f: Frame, unset: real): (t: State)
    requires Sound(s) && IsFrame(f)
  {
    match f
    case Lost(inlag) => Concealed(s, inlag)
    case Good(residual, lpc) =>
      if s.lost then Recovered(s, residual, lpc)
      else State(false, s.count, 20, unset, lpc, residual, s.seed)
  }

  /** The state tells whether the last frame was lost. */
  lemma StepRecordsLoss(s: State, f: Frame, unset: real)
    requires Sound(s) && IsFrame(f)
    ensures Step(s, f, unset).lost == f.Lost?
  {
    hide PitchHistory, NoiseHistory, SeedAfter, Quiet, CorrelationGain, ConcealedLpc;
  }

  lemma StepKeepsSound(s: State, f: Frame, unset: real)
    requires Sound(s) && IsFrame(f)
    ensures Sound(Step(s, f, unset))
  {
    hide PitchPart, NoisePart, LagOf, GainOfLoss, Quiet, Energy, SeedAfter, PitchHistory;
  }

  /** The filters stay monic. */
  lemma StepKeepsMonic(s: State, f: Frame, unset: real)
    requires Sound(s) && IsFrame(f) && s.lpc[0] == 1.0 && (f.Good? ==> f.lpc[0] == 1.0)
    ensures Sound(Step(s, f, unset)) && Step(s, f, unset).lpc[0] == 1.0
  {
    hide PitchPart, NoisePart, LagOf, GainOfLoss, Quiet, Energy, SeedAfter, PitchHistory;
  }

  // ---------- Runs of frames ----------

  predicate AreFrames(fs: seq<Frame>) {
    forall i :: 0 <= i < |fs| ==> IsFrame(fs[i])
  }

  /** The state after the first n frames; unset[i] is what the gain variable happens to hold in frame i. */
  function Run(s: State, fs: seq<Frame>, unset: seq<real>, n: nat): (t: State)
    requires Sound(s) && AreFrames(fs) && n <= |fs| == |unset|
    ensures Sound(t)
  {
    if n == 0 then s else
    var q := Run(s, fs, unset, n - 1);
    StepKeepsSound(q, fs[n - 1], unset[n - 1]);
    Step(q, fs[n - 1], unset[n - 1])
  }

  /** The number of lost frames at the end of the first n. */
  function Streak(fs: seq<Frame>, n: nat): nat
    requires n <= |fs|
  {
    if n == 0 || fs[n - 1].Good? then 0 else Streak(fs, n - 1) + 1
  }

  /** The loss counter is the current streak of losses. */
  lemma {:induction false} CounterIsStreak(s: State, fs: seq<Frame>, unset: seq<real>, n: nat)
    requires Sound(s) && !s.lost && AreFrames(fs) && n <= |fs| == |unset|
    ensures Run(s, fs, unset, n).count == Streak(fs, n)
    ensures Run(s, fs, unset, n).lost <==> n > 0 && fs[n - 1].Lost?
  {
    hide PitchPart, NoisePart, LagOf, GainOfLoss, Quiet, Energy, SeedAfter, PitchHistory;
    if n > 0 {
      CounterIsStreak(s, fs, unset, n - 1);
    }
  }

  /** Two states that differ at most in a gain nobody reads. */
  predicate SameButUnread(s: State, t: State) {
    s == t.(gain := s.gain) && (s.lost ==> s.gain == t.gain)
  }

  /** A step reads the recorded gain only after a loss, when it is defined. */
  lemma StepIgnoresUnset(s: State, t: State, f: Frame, u: real, v: real)
    requires Sound(s) && Sound(t) && IsFrame(f) && SameButUnread(s, t)
    ensures SameButUnread(Step(s, f, u), Step(t, f, v))
  {
    hide PitchHistory, NoiseHistory, Quiet, Energy, SeedAfter, CorrelationGain, PitchLag;
  }

  /** So the uninitialised gain never reaches the output, over any run. */
  lemma {:induction false} RunIgnoresUnset(s: State, fs: seq<Frame>, u: seq<real>, v: seq<real>, n: nat)
    requires Sound(s) && AreFrames(fs) && n <= |fs| == |u| == |v|
    ensures SameButUnread(Run(s, fs, u, n), Run(s, fs, v, n))
    ensures Run(s, fs, u, n).residual == Run(s, fs, v, n).residual
  {
    hide Step;
    if n > 0 {
      RunIgnoresUnset(s, fs, u, v, n - 1);
      StepIgnoresUnset(Run(s, fs, u, n - 1), Run(s, fs, v, n - 1), fs[n - 1], u[n - 1], v[n - 1]);
    }
  }

  /** Without losses the residuals pass unchanged. */
  lemma {:induction false} NoLossNoChange(s: State, fs: seq<Frame>, unset: seq<real>, n: nat)
    requires Sound(s) && !s.lost && AreFrames(fs) && 0 < n <= |fs| == |unset|
    requires forall i :: 0 <= i < n ==> fs[i].Good?
    ensures Run(s, fs, unset, n).residual == fs[n - 1].residual && !Run(s, fs, unset, n).lost
  {
    if n > 1 {
      NoLossNoChange(s, fs, unset, n - 1);
    } else {
      assert Run(s, fs, unset, 0) == s;
    }
  }
}
