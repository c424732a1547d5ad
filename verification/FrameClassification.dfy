/** FrameClassify: where the start state lies, by the weighted energy of neighbouring subframes. */
module FrameClassification {
  import opened Constants
  import opened Correlations
  import opened Reals

  /** sampEn_win: the outer five samples of a pair count less. */
  function SampleWeight(l: nat): real {
    if l < 5 then (l + 1) as real / 6.0 else 1.0
  }

  /** ssqEn_win. */
  function PairWeight(n: nat): real
    requires n < NSUB - 1
  {
    if n == 0 || n == 4 then 0.8 else if n == 1 || n == 3 then 0.9 else 1.0
  }

  /** The energy of the first k samples of subframe n, the first five of them weighted. */
  function FrontTo(res: seq<real>, n: nat, k: nat): real
    requires |res| == BLOCKL && n < NSUB && k <= SUBL
  {
    if k == 0 then 0.0 else FrontTo(res, n, k - 1) + Times(SampleWeight(k - 1), Square(res[SUBL * n + k - 1]))
  }

  /** The energy of the first k samples of subframe n, the last five of the subframe weighted. */
  function BackTo(res: seq<real>, n: nat, k: nat): real
    requires |res| == BLOCKL && n < NSUB && k <= SUBL
  {
    if k == 0 then 0.0 else BackTo(res, n, k - 1) + Times(SampleWeight(SUBL - k), Square(res[SUBL * n + k - 1]))
  }

  /** The score of the pair of subframes n - 1 and n. */
  function Score(res: seq<real>, n: nat): real
    requires |res| == BLOCKL && 1 <= n < NSUB
  {
    Times(FrontTo(res, n - 1, SUBL) + BackTo(res, n, SUBL), PairWeight(n - 1))
  }

  lemma WeightOfOne(x: real)
    ensures Times(1.0, x) == x
  {
  }

  method FrontEnergy(res: seq<real>, n: nat) returns (e: real)
    requires |res| == BLOCKL && n < NSUB
    ensures e == FrontTo(res, n, SUBL)
  {
    hide Times;
    e := 0.0;
    for l := 0 to 5
      invariant e == FrontTo(res, n, l)
    {
      e := e + Times(SampleWeight(l), Square(res[SUBL * n + l]));
    }
    for l := 5 to SUBL
      invariant e == FrontTo(res, n, l)
    {
      WeightOfOne(Square(res[SUBL * n + l]));
      e := e + Square(res[SUBL * n + l]);
    }
  }

  method BackEnergy(res: seq<real>, n: nat) returns (e: real)
    requires |res| == BLOCKL && n < NSUB
    ensures e == BackTo(res, n, SUBL)
  {
    hide Times;
    e := 0.0;
    for l := 0 to SUBL - 5
      invariant e == BackTo(res, n, l)
    {
      WeightOfOne(Square(res[SUBL * n + l]));
      e := e + Square(res[SUBL * n + l]);
    }
    for l := SUBL - 5 to SUBL
      invariant e == BackTo(res, n, l)
    {
      e := e + Times(SampleWeight(SUBL - l - 1), Square(res[SUBL * n + l]));
    }
  }

  /** FrameClassify: the first pair with the largest score; always a position that the decoder accepts. */
  method FrameClassify(res: seq<real>) returns (start: nat)
    requires |res| == BLOCKL
    ensures 1 <= start <= 5
    ensures forall n :: 1 <= n < NSUB ==> Score(res, n) <= Score(res, start)
    ensures forall n :: 1 <= n < start ==> Score(res, n) < Score(res, start)
  {
    hide FrontTo, BackTo, Times;
    var fssqEn, bssqEn := new real[NSUB], new real[NSUB];
    for n := 0 to NSUB - 1
      invariant forall k {:trigger fssqEn[k]} :: 0 <= k < n ==> fssqEn[k] == FrontTo(res, k, SUBL)
      invariant forall k {:trigger bssqEn[k]} :: 1 <= k <= n ==> bssqEn[k] == BackTo(res, k, SUBL)
    {
      fssqEn[n] := FrontEnergy(res, n);
      bssqEn[n + 1] := BackEnergy(res, n + 1);
    }
    var maxSsqEn := Times(fssqEn[0] + bssqEn[1], PairWeight(0));
    start := 1;
    for n := 2 to NSUB
      invariant 1 <= start < n && maxSsqEn == Score(res, start)
      invariant forall k :: 1 <= k < n ==> Score(res, k) <= maxSsqEn
      invariant forall k :: 1 <= k < start ==> Score(res, k) < maxSsqEn
    {
      var e := Times(fssqEn[n - 1] + bssqEn[n], PairWeight(n - 1));
      if e > maxSsqEn {
        maxSsqEn, start := e, n;
      }
    }
  }

  // ---------- Both directions alike ----------

  /** res read backwards. */
  ghost predicate IsReverse(rev: seq<real>, res: seq<real>) {
    |rev| == |res| == BLOCKL && forall i :: 0 <= i < BLOCKL ==> rev[i] == res[BLOCKL - 1 - i]
  }

  lemma {:induction false} FrontIsBack(rev: seq<real>, res: seq<real>, n: nat, k: nat)
    requires IsReverse(rev, res) && n < NSUB && k <= SUBL
    ensures FrontTo(rev, n, k) + BackTo(res, NSUB - 1 - n, SUBL - k) == BackTo(res, NSUB - 1 - n, SUBL)
  {
    hide Times, SampleWeight, Square;
    if k > 0 {
      FrontIsBack(rev, res, n, k - 1);
      assert rev[SUBL * n + k - 1] == res[SUBL * (NSUB - 1 - n) + SUBL - k];
    }
  }

  lemma NothingInFront(res: seq<real>, n: nat)
    requires |res| == BLOCKL && n < NSUB
    ensures FrontTo(res, n, 0) == BackTo(res, n, 0) == 0.0
  {
  }

  /** The scores know no direction: a frame read backwards scores the same at the mirrored pairs. */
  lemma ScoreIsSymmetric(rev: seq<real>, res: seq<real>, n: nat)
    requires IsReverse(rev, res) && 1 <= n < NSUB
    ensures Score(rev, n) == Score(res, NSUB - n)
  {
    hide FrontTo, BackTo, Times;
    FrontIsBack(rev, res, n - 1, SUBL);
    FrontIsBack(res, rev, NSUB - 1 - n, SUBL);
    NothingInFront(res, NSUB - n);
    NothingInFront(rev, n);
  }

  lemma TimesIsNatural(x: real, y: real)
    requires x >= 0.0 && y >= 0.0
    ensures Times(x, y) >= 0.0 && (x > 0.0 && y > 0.0 ==> Times(x, y) > 0.0)
  {
  }

  /** A sample that is not zero counts, with any weight. */
  lemma {:induction false} EnergyCounts(res: seq<real>, n: nat, k: nat)
    requires |res| == BLOCKL && n < NSUB && k <= SUBL
    ensures FrontTo(res, n, k) >= 0.0 && BackTo(res, n, k) >= 0.0
    ensures FrontTo(res, n, k) > 0.0 <==> exists i :: SUBL * n <= i < SUBL * n + k && res[i] != 0.0
    ensures BackTo(res, n, k) > 0.0 <==> exists i :: SUBL * n <= i < SUBL * n + k && res[i] != 0.0
  {
    hide Times, Square;
    if k > 0 {
      EnergyCounts(res, n, k - 1);
      var x := res[SUBL * n + k - 1];
      SquareOfNonzero(x);
      TimesIsNatural(SampleWeight(k - 1), Square(x));
      TimesIsNatural(SampleWeight(SUBL - k), Square(x));
      TimesZero(SampleWeight(k - 1));
      TimesZero(SampleWeight(SUBL - k));
    }
  }

  lemma SquareOfNonzero(x: real)
    ensures Square(x) >= 0.0 && (Square(x) > 0.0 <==> x != 0.0) && (x == 0.0 ==> Square(x) == 0.0)
  {
    hide Times;
    SquareIs(x);
    TimesOne(x);
    TimesZero(x);
    ProductOfZero(1.0, x);
  }

  // ---------- The weights ----------

  /** The weight rises in equal steps from the edge of a pair to 1, which the rest of the subframe has. */
  lemma WeightsRise(l: nat)
    ensures SampleWeight(0) == 1.0 / 6.0
    ensures SampleWeight(l + 1) - SampleWeight(l) == if l < 5 then 1.0 / 6.0 else 0.0
    ensures l >= 5 ==> SampleWeight(l) == 1.0
  {
  }

  /** The energies of a frame that is as loud everywhere do not depend on the subframe. */
  lemma {:induction false} SameEverywhere(res: seq<real>, m: nat, n: nat, k: nat)
    requires |res| == BLOCKL && m < NSUB && n < NSUB && k <= SUBL
    requires forall i, j :: 0 <= i < j < BLOCKL ==> Square(res[i]) == Square(res[j])
    ensures FrontTo(res, m, k) == FrontTo(res, n, k) && BackTo(res, m, k) == BackTo(res, n, k)
  {
    hide Times, Square, SampleWeight;
    if k > 0 {
      SameEverywhere(res, m, n, k - 1);
      var i, j := SUBL * m + k - 1, SUBL * n + k - 1;
      assert i < j || i == j || j < i;
    }
  }

  lemma HeavierIsMore(e: real, v: real, w: real)
    requires e > 0.0 && v < w
    ensures Times(e, v) < Times(e, w)
  {
    var d := w - v;
    assert e * d > 0.0;
  }

  /** The pairs further from the middle of the frame count less: a frame that is as loud everywhere starts in the middle. */
  lemma MiddleIsPreferred(res: seq<real>, n: nat)
    requires |res| == BLOCKL && 1 <= n < NSUB && n != 3 && res[0] != 0.0
    requires forall i, j :: 0 <= i < j < BLOCKL ==> Square(res[i]) == Square(res[j])
    ensures Score(res, n) < Score(res, 3)
    ensures n < 3 ==> Score(res, n) < Score(res, n + 1)
    ensures n > 3 ==> Score(res, n) < Score(res, n - 1)
  {
    hide FrontTo, BackTo, Times, Square;
    EnergyCounts(res, 0, SUBL);
    var e := FrontTo(res, 0, SUBL) + BackTo(res, 0, SUBL);
    var nearer := if n < 3 then n + 1 else n - 1;
    SameEverywhere(res, 0, n - 1, SUBL);
    SameEverywhere(res, 0, n, SUBL);
    SameEverywhere(res, 0, nearer - 1, SUBL);
    SameEverywhere(res, 0, nearer, SUBL);
    SameEverywhere(res, 0, 2, SUBL);
    SameEverywhere(res, 0, 3, SUBL);
    HeavierIsMore(e, PairWeight(n - 1), PairWeight(2));
    HeavierIsMore(e, PairWeight(n - 1), PairWeight(nearer - 1));
  }
}
