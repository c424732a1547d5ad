/** The generator of the noise lags: its seeds do not repeat before all 2^31 of them have been used. */
module NoiseSeeds {
  import opened ConcealmentSpec
  import opened Constants
  import opened Packing

  const FACTOR: nat := 69069

  const SEEDS: nat := 0x8000_0000

  // ---------- The seed in closed form ----------

  /** 1 + FACTOR + ... + FACTOR^(n - 1). */
  function Sum(n: nat): nat {
    if n == 0 then 0 else FACTOR * Sum(n - 1) + 1
  }

  /** What every step adds, relative to the first. */
  function Stride(seed: nat): nat {
    (FACTOR - 1) * seed + 1
  }

  lemma NextOfRemainder(x: nat)
    ensures NextSeed(x % SEEDS) == (FACTOR * x + 1) % SEEDS
  {
    var q, r := x / SEEDS, x % SEEDS;
    assert FACTOR * x + 1 == (FACTOR * r + 1) + (FACTOR * q) * SEEDS;
    AddMultiple(FACTOR * r + 1, FACTOR * q, SEEDS);
  }

  lemma AddMultiple(x: nat, k: nat, m: nat)
    requires m > 0
    ensures (x + k * m) % m == x % m
  {
    var q := x / m;
    assert x + k * m == (q + k) * m + x % m;
    RemainderIs(x + k * m, q + k, x % m, m);
  }

  lemma RemainderIs(x: nat, q: nat, r: nat, m: nat)
    requires r < m && x == q * m + r
    ensures x % m == r
  {
    var d: int := x / m - q;
    assert d * m == r - x % m;
    assert -1 < d < 1 by {
      SmallMultiple(d, m, r - x % m);
    }
  }

  lemma SmallMultiple(d: int, m: nat, x: int)
    requires d * m == x && 0 - m < x < m
    ensures -1 < d < 1
  {
    assert (d + 1) * m == x + m && (1 - d) * m == m - x;
    PositiveFactor(d + 1, m);
    PositiveFactor(1 - d, m);
  }

  lemma PositiveFactor(x: int, d: nat)
    requires x * d > 0
    ensures x > 0
  {
  }

  lemma StrideStays(seed: nat, g: nat)
    ensures FACTOR * (seed + g * Stride(seed)) + 1 == seed + (FACTOR * g + 1) * Stride(seed)
  {
    var w := Stride(seed);
    assert (FACTOR * g + 1) * w == FACTOR * (g * w) + w;
  }

  lemma {:induction false} SeedIs(seed: nat, n: nat)
    requires seed < SEEDS
    ensures SeedAfter(seed, n) == (seed + Sum(n) * Stride(seed)) % SEEDS
  {
    hide NextSeed, Stride;
    if n > 0 {
      SeedIs(seed, n - 1);
      NextOfRemainder(seed + Sum(n - 1) * Stride(seed));
      StrideStays(seed, Sum(n - 1));
    }
  }

  // ---------- Divisibility by powers of two ----------

  /** x can be halved k times. */
  predicate Halves(x: nat, k: nat) {
    k == 0 || (x % 2 == 0 && Halves(x / 2, k - 1))
  }

  lemma {:induction false} HalvesIs(x: nat, k: nat)
    ensures Halves(x, k) <==> x % Pow2(k) == 0
  {
    if k > 0 {
      HalvesIs(x / 2, k - 1);
      TwiceDivides(x, Pow2(k - 1));
    }
  }

  lemma TwiceDivides(x: nat, p: nat)
    requires p > 0
    ensures x % (2 * p) == 0 <==> x % 2 == 0 && x / 2 % p == 0
  {
    if x % (2 * p) == 0 {
      var q := x / (2 * p);
      assert x == 2 * (q * p);
      AddMultiple(0, q, p);
    }
    if x % 2 == 0 && x / 2 % p == 0 {
      var q := x / 2 / p;
      assert x == q * (2 * p);
      AddMultiple(0, q, 2 * p);
    }
  }

  /** An odd factor does not help. */
  lemma {:induction false} OddFactor(x: nat, odd: nat, k: nat)
    requires odd % 2 == 1
    ensures Halves(x * odd, k) <==> Halves(x, k)
  {
    if k > 0 {
      ParityOfProduct(x, odd);
      if x % 2 == 0 {
        assert x * odd == 2 * (x / 2 * odd);
        OddFactor(x / 2, odd, k - 1);
      }
    }
  }

  lemma ParityOfProduct(x: nat, odd: nat)
    requires odd % 2 == 1
    ensures x * odd % 2 == x % 2
  {
    var h := odd / 2;
    assert x * odd == x + (x * h) * 2;
    AddMultiple(x, x * h, 2);
  }

  // ---------- The sums ----------

  lemma {:induction false} SumParity(n: nat)
    ensures Sum(n) % 2 == n % 2
  {
    hide Sum;
    if n == 0 {
      NoSum();
    } else {
      SumParity(n - 1);
      SumStep(n);
      OddStep(Sum(n - 1), n - 1);
    }
  }

  lemma NoSum()
    ensures Sum(0) == 0
  {
  }

  lemma SumStep(n: nat)
    requires n > 0
    ensures Sum(n) == FACTOR * Sum(n - 1) + 1
  {
  }

  lemma OddStep(g: nat, n: nat)
    requires g % 2 == n % 2
    ensures (FACTOR * g + 1) % 2 == (n + 1) % 2
  {
    assert FACTOR * g + 1 == (g + 1) + (34534 * g) * 2;
    AddMultiple(g + 1, 34534 * g, 2);
  }

  /** FACTOR^n, from the sum. */
  function PowerOf(n: nat): nat {
    (FACTOR - 1) * Sum(n) + 1
  }

  /** n terms more: the first n terms times FACTOR^m, and the m terms before. */
  lemma {:induction false} SumJoins(m: nat, n: nat)
    ensures Sum(m + n) == PowerOf(m) * Sum(n) + Sum(m)
  {
    hide Sum;
    if n == 0 {
      NoSum();
    } else {
      SumJoins(m, n - 1);
      SumStep(n);
      SumStep(m + n);
      JoinStep(PowerOf(m), Sum(n - 1));
    }
  }

  lemma JoinStep(p: nat, g: nat)
    ensures p * (FACTOR * g + 1) == FACTOR * (p * g) + p
  {
  }

  /** FACTOR is 1 more than a multiple of 4, so twice as many terms make up twice an odd multiple. */
  lemma SumOfTwice(n: nat)
    ensures Sum(2 * n) == 2 * (Sum(n) * (34534 * Sum(n) + 1))
  {
    SumJoins(n, n);
    var g := Sum(n);
    assert PowerOf(n) == 69068 * g + 1;
    assert PowerOf(n) * g + g == 2 * (g * (34534 * g + 1));
  }

  /** A sum can be halved as often as the number of its terms. */
  lemma {:induction false} SumHalves(n: nat, k: nat)
    ensures Halves(Sum(n), k) <==> Halves(n, k)
  {
    hide Sum;
    if k > 0 {
      SumParity(n);
      if n % 2 == 0 {
        var m := n / 2;
        SumOfTwice(m);
        assert 2 * m == n;
        SumHalves(m, k - 1);
        OddFactor(Sum(m), 34534 * Sum(m) + 1, k - 1);
      }
    }
  }

  // ---------- The period ----------

  lemma TwoIs()
    ensures Pow2(31) == SEEDS
  {
    assert Pow2(8) == 256;
    assert Pow2(16) == 65536;
    assert Pow2(24) == 16777216;
  }

  lemma StrideIsOdd(seed: nat)
    ensures Stride(seed) % 2 == 1
  {
    assert Stride(seed) == 1 + (34534 * seed) * 2;
    AddMultiple(1, 34534 * seed, 2);
  }

  lemma Returns(s: nat, d: nat)
    requires s < SEEDS
    ensures (s + d) % SEEDS == s <==> d % SEEDS == 0
  {
  }

  /** A seed returns after exactly the multiples of 2^31 steps. */
  lemma SeedReturns(seed: nat, n: nat)
    requires seed < SEEDS
    ensures SeedAfter(seed, n) == seed <==> n % SEEDS == 0
  {
    hide SeedAfter, Stride, Sum, Pow2, Halves;
    SeedIs(seed, n);
    Returns(seed, Sum(n) * Stride(seed));
    TwoIs();
    HalvesIs(Sum(n) * Stride(seed), 31);
    StrideIsOdd(seed);
    OddFactor(Sum(n), Stride(seed), 31);
    SumHalves(n, 31);
    HalvesIs(n, 31);
  }

  lemma {:induction false} SeedsJoin(seed: nat, m: nat, n: nat)
    ensures SeedAfter(seed, m + n) == SeedAfter(SeedAfter(seed, m), n)
  {
    hide NextSeed;
    if n > 0 {
      SeedsJoin(seed, m, n - 1);
    }
  }

  lemma {:induction false} SeedInRange(seed: nat, n: nat)
    requires seed < SEEDS
    ensures SeedAfter(seed, n) < SEEDS
  {
    hide NextSeed;
    if n > 0 {
      SeedInRange(seed, n - 1);
    }
  }

  /** Within 2^31 steps, which is three days of lost speech, no two noise samples have the same seed. */
  lemma SeedsDiffer(seed: nat, m: nat, n: nat)
    requires seed < SEEDS && m < n < m + SEEDS
    ensures SeedAfter(seed, m) != SeedAfter(seed, n)
  {
    hide SeedAfter;
    SeedInRange(seed, m);
    SeedsJoin(seed, m, n - m);
    SeedReturns(SeedAfter(seed, m), n - m);
  }

  /** The noise of the next loss, or of the recovery, goes on with the next seed. */
  lemma NoiseGoesOn(s: State, inlag: nat, i: nat)
    requires Sound(s) && IsLag(inlag)
    ensures RandLag(Concealed(s, inlag).seed, i) == RandLag(s.seed, BLOCKL + i)
  {
    hide SeedAfter, PitchPart, NoisePart, LagOf, GainOfLoss, Quiet, ConcealedLpc;
    SeedsJoin(s.seed, BLOCKL, i + 1);
  }

  /** So does the noise of a loss after a recovery that used some. */
  lemma NoiseGoesOnAfterRecovery(s: State, decoded: seq<real>, lpc: seq<real>, i: nat)
    requires Sound(s) && s.lost && |decoded| == BLOCKL && |lpc| == LPC_FILTERORDER + 1
    ensures RandLag(Recovered(s, decoded, lpc).seed, i) == RandLag(s.seed, (if s.gain >= 0.5 then OFFSET else 0) + i)
  {
    hide SeedAfter, PitchHistory, Faded;
    SeedsJoin(s.seed, OFFSET, i + 1);
  }
}
