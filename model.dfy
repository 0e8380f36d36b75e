/** Beta-posterior estimation per team and the match-level combiner
    (model.py). All arithmetic is exact over `real`. */
module Model {
  import opened Stats

  // League priors as pseudo-counts (successes, failures), 40 "virtual" games each.
  const A_FT: int := 30
  const B_FT: int := 10
  const A_HT: int := 32
  const B_HT: int := 8

  /** Mass of the posterior kept below the conservative estimate. */
  const CONF_LEVEL: real := 0.05

  /** Beta(a, b) over a team's true over-rate. */
  datatype BetaPosterior = BetaPosterior(a: real, b: real)

  /** What the Beta inverse CDF hands back: a finite float, a non-finite
      float (infinity or NaN), or an exception. */
  datatype PpfOutcome = Finite(q: real) | NonFinite | Raised

  /** The Beta inverse CDF, `ppf(alpha, a, b)`, supplied by the caller: the
      numerical routine itself is not part of this model. */
  type Ppf = (real, real, real) -> PpfOutcome

  /** Posterior mean; 0.0 when the total mass is not positive. */
  function Mean(p: BetaPosterior): (r: real)
    ensures p.a + p.b > 0.0 ==> r * (p.a + p.b) == p.a
    ensures p.a + p.b <= 0.0 ==> r == 0.0
  {
    if p.a + p.b > 0.0 then p.a / (p.a + p.b) else 0.0
  }

  /** Dividing out a positive factor keeps the sign of a product. */
  lemma SignOfFactor(x: real, t: real)
    requires t > 0.0
    ensures x * t >= 0.0 ==> x >= 0.0
    ensures x * t > 0.0 ==> x > 0.0
  {
  }

  /** With non-negative parameters and positive mass the mean is a probability. */
  lemma MeanInUnitInterval(p: BetaPosterior)
    requires 0.0 <= p.a && 0.0 <= p.b && p.a + p.b > 0.0
    ensures 0.0 <= Mean(p) <= 1.0
  {
  }

  /** The conservative estimate: the ppf value when it is a finite float,
      and 0.0 when it is not finite or the routine raised. */
  function QuantileLower(p: BetaPosterior, alpha: real, ppf: Ppf): (r: real)
    ensures r == 0.0 || ppf(alpha, p.a, p.b) == Finite(r)
    ensures ppf(alpha, p.a, p.b).Finite? ==> r == ppf(alpha, p.a, p.b).q
  {
    match ppf(alpha, p.a, p.b)
    case Finite(q) => q
    case NonFinite => 0.0
    case Raised => 0.0
  }

  /** Conjugate update of the prior Beta(a0, b0) with s successes in n trials.
      The caller's counts are not validated. */
  function PosteriorFromCounts(s: int, n: int, a0: int, b0: int): (r: BetaPosterior)
    ensures r.a - a0 as real == s as real
    ensures r.b - b0 as real == (n - s) as real
    ensures r.a + r.b == (a0 + b0 + n) as real
  {
    BetaPosterior((a0 + s) as real, (b0 + n - s) as real)
  }

  /** With valid counts and a proper prior the posterior is proper, its mass
      is the prior's plus the trials, and its mean is a probability. */
  lemma PosteriorIsProper(s: int, n: int, a0: int, b0: int)
    requires 0 <= s <= n && a0 > 0 && b0 > 0
    ensures PosteriorFromCounts(s, n, a0, b0).a > 0.0
    ensures PosteriorFromCounts(s, n, a0, b0).b > 0.0
    ensures 0.0 <= Mean(PosteriorFromCounts(s, n, a0, b0)) <= 1.0
  {
    MeanInUnitInterval(PosteriorFromCounts(s, n, a0, b0));
  }

  /** With no data the posterior is the prior and its mean is a0 / (a0 + b0). */
  lemma NoDataKeepsPrior(a0: int, b0: int)
    requires a0 > 0 && b0 > 0
    ensures PosteriorFromCounts(0, 0, a0, b0) == BetaPosterior(a0 as real, b0 as real)
    ensures Mean(PosteriorFromCounts(0, 0, a0, b0)) * (a0 + b0) as real == a0 as real
  {
  }

  /** The two league priors encode the league averages 0.80 (HT) and 0.75 (FT). */
  lemma PriorMeans()
    ensures Mean(PosteriorFromCounts(0, 0, A_HT, B_HT)) == 0.8
    ensures Mean(PosteriorFromCounts(0, 0, A_FT, B_FT)) == 0.75
  {
    assert PosteriorFromCounts(0, 0, A_HT, B_HT) == BetaPosterior(32.0, 8.0);
    assert PosteriorFromCounts(0, 0, A_FT, B_FT) == BetaPosterior(30.0, 10.0);
  }

  /** For a fixed number of trials, more successes never lower the posterior
      mean, and strictly more successes strictly raise it. */
  lemma MeanMonotoneInSuccesses(s1: int, s2: int, n: int, a0: int, b0: int)
    requires s1 <= s2 && a0 + b0 + n > 0
    ensures Mean(PosteriorFromCounts(s1, n, a0, b0)) <= Mean(PosteriorFromCounts(s2, n, a0, b0))
    ensures s1 < s2 ==> Mean(PosteriorFromCounts(s1, n, a0, b0)) < Mean(PosteriorFromCounts(s2, n, a0, b0))
  {
    var t := (a0 + b0 + n) as real;
    var m1 := Mean(PosteriorFromCounts(s1, n, a0, b0));
    var m2 := Mean(PosteriorFromCounts(s2, n, a0, b0));
    assert (m2 - m1) * t == m2 * t - m1 * t == (s2 - s1) as real;
    SignOfFactor(m2 - m1, t);
  }

  /** Average of two probabilities: the midpoint, so it lies between them. */
  function CombineTwoProbs(p1: real, p2: real): (r: real)
    ensures r - p1 == p2 - r
    ensures (if p1 <= p2 then p1 else p2) <= r <= (if p1 <= p2 then p2 else p1)
  {
    (p1 + p2) / 2.0
  }

  lemma CombineSymmetric(p1: real, p2: real)
    ensures CombineTwoProbs(p1, p2) == CombineTwoProbs(p2, p1)
  {
  }

  lemma CombineIdempotent(p: real)
    ensures CombineTwoProbs(p, p) == p
  {
  }

  lemma CombineZeroOne()
    ensures CombineTwoProbs(0.0, 1.0) == 0.5
  {
  }

  /** The `p_mean` / `p_min` pair of one market. */
  datatype MarketProbs = MarketProbs(pMean: real, pMin: real)

  /** The four posteriors, kept for diagnostics. */
  datatype Posteriors = Posteriors(aHt: BetaPosterior, bHt: BetaPosterior,
                                   aFt: BetaPosterior, bFt: BetaPosterior)

  datatype GameProbs = GameProbs(over05Ht: MarketProbs, over15Ft: MarketProbs,
                                 posteriors: Posteriors)

  /** One market from the two teams' posteriors: averaged means and averaged
      lower quantiles. */
  function MarketFromPosteriors(postA: BetaPosterior, postB: BetaPosterior, ppf: Ppf): (r: MarketProbs)
    ensures (if Mean(postA) <= Mean(postB) then Mean(postA) else Mean(postB)) <= r.pMean
    ensures r.pMean <= (if Mean(postA) <= Mean(postB) then Mean(postB) else Mean(postA))
    ensures r.pMean - Mean(postA) == Mean(postB) - r.pMean
    ensures r.pMin - QuantileLower(postA, CONF_LEVEL, ppf) == QuantileLower(postB, CONF_LEVEL, ppf) - r.pMin
    ensures !ppf(CONF_LEVEL, postA.a, postA.b).Finite? && !ppf(CONF_LEVEL, postB.a, postB.b).Finite? ==>
              r.pMin == 0.0
  {
    MarketProbs(CombineTwoProbs(Mean(postA), Mean(postB)),
                CombineTwoProbs(QuantileLower(postA, CONF_LEVEL, ppf),
                                QuantileLower(postB, CONF_LEVEL, ppf)))
  }

  /** Match probabilities for both markets from the two teams' counts: each
      team's half-time counts update the HT prior and its full-time counts the
      FT prior, and each market is built from the posteriors reported beside it. */
  function ComputeGameProbs(teamA: OverStats, teamB: OverStats, ppf: Ppf): (r: GameProbs)
    ensures r.over05Ht == MarketFromPosteriors(r.posteriors.aHt, r.posteriors.bHt, ppf)
    ensures r.over15Ft == MarketFromPosteriors(r.posteriors.aFt, r.posteriors.bFt, ppf)
    ensures r.posteriors ==
              Posteriors(PosteriorFromCounts(teamA.htSuccesses, teamA.htTrials, A_HT, B_HT),
                         PosteriorFromCounts(teamB.htSuccesses, teamB.htTrials, A_HT, B_HT),
                         PosteriorFromCounts(teamA.ftSuccesses, teamA.ftTrials, A_FT, B_FT),
                         PosteriorFromCounts(teamB.ftSuccesses, teamB.ftTrials, A_FT, B_FT))
  {
    var postAHt := PosteriorFromCounts(teamA.htSuccesses, teamA.htTrials, A_HT, B_HT);
    var postBHt := PosteriorFromCounts(teamB.htSuccesses, teamB.htTrials, A_HT, B_HT);
    var postAFt := PosteriorFromCounts(teamA.ftSuccesses, teamA.ftTrials, A_FT, B_FT);
    var postBFt := PosteriorFromCounts(teamB.ftSuccesses, teamB.ftTrials, A_FT, B_FT);
    GameProbs(MarketFromPosteriors(postAHt, postBHt, ppf),
              MarketFromPosteriors(postAFt, postBFt, ppf),
              Posteriors(postAHt, postBHt, postAFt, postBFt))
  }

  /** With consistent counts both match means are probabilities, and every
      posterior reported is proper. */
  lemma GameMeansAreProbabilities(teamA: OverStats, teamB: OverStats, ppf: Ppf)
    requires Consistent(teamA) && Consistent(teamB)
    ensures var g := ComputeGameProbs(teamA, teamB, ppf);
            0.0 <= g.over05Ht.pMean <= 1.0 && 0.0 <= g.over15Ft.pMean <= 1.0 &&
            g.posteriors.aHt.a > 0.0 && g.posteriors.aHt.b > 0.0 &&
            g.posteriors.bHt.a > 0.0 && g.posteriors.bHt.b > 0.0 &&
            g.posteriors.aFt.a > 0.0 && g.posteriors.aFt.b > 0.0 &&
            g.posteriors.bFt.a > 0.0 && g.posteriors.bFt.b > 0.0
  {
    PosteriorIsProper(teamA.htSuccesses, teamA.htTrials, A_HT, B_HT);
    PosteriorIsProper(teamB.htSuccesses, teamB.htTrials, A_HT, B_HT);
    PosteriorIsProper(teamA.ftSuccesses, teamA.ftTrials, A_FT, B_FT);
    PosteriorIsProper(teamB.ftSuccesses, teamB.ftTrials, A_FT, B_FT);
  }

  /** The half-time market sees only the half-time counts, and the full-time
      market only the full-time counts. */
  lemma MarketsAreIndependent(a1: OverStats, b1: OverStats, a2: OverStats, b2: OverStats, ppf: Ppf)
    ensures a1.htSuccesses == a2.htSuccesses && a1.htTrials == a2.htTrials &&
            b1.htSuccesses == b2.htSuccesses && b1.htTrials == b2.htTrials ==>
              ComputeGameProbs(a1, b1, ppf).over05Ht == ComputeGameProbs(a2, b2, ppf).over05Ht
    ensures a1.ftSuccesses == a2.ftSuccesses && a1.ftTrials == a2.ftTrials &&
            b1.ftSuccesses == b2.ftSuccesses && b1.ftTrials == b2.ftTrials ==>
              ComputeGameProbs(a1, b1, ppf).over15Ft == ComputeGameProbs(a2, b2, ppf).over15Ft
  {
  }

  /** Swapping home and away leaves both markets unchanged. */
  lemma TeamOrderIrrelevant(a: OverStats, b: OverStats, ppf: Ppf)
    ensures ComputeGameProbs(a, b, ppf).over05Ht == ComputeGameProbs(b, a, ppf).over05Ht
    ensures ComputeGameProbs(a, b, ppf).over15Ft == ComputeGameProbs(b, a, ppf).over15Ft
  {
  }

  /** With no history for either team each market's mean is the league prior
      mean and its conservative estimate is the prior's own lower quantile. */
  lemma NoHistoryGivesPriors(ppf: Ppf)
    ensures ComputeGameProbs(Zero, Zero, ppf).over05Ht ==
              MarketProbs(0.8, QuantileLower(BetaPosterior(32.0, 8.0), CONF_LEVEL, ppf))
    ensures ComputeGameProbs(Zero, Zero, ppf).over15Ft ==
              MarketProbs(0.75, QuantileLower(BetaPosterior(30.0, 10.0), CONF_LEVEL, ppf))
  {
    PriorMeans();
    assert PosteriorFromCounts(0, 0, A_HT, B_HT) == BetaPosterior(32.0, 8.0);
    assert PosteriorFromCounts(0, 0, A_FT, B_FT) == BetaPosterior(30.0, 10.0);
  }

  /** Home 8 of 10 and away 3 of 10 half-time overs: posteriors Beta(40, 10)
      and Beta(35, 15), means 0.8 and 0.7, and a match mean of 0.75. */
  lemma HalfTimeExample(ppf: Ppf)
    ensures var g := ComputeGameProbs(OverStats(8, 10, 0, 0), OverStats(3, 10, 0, 0), ppf);
            g.posteriors.aHt == BetaPosterior(40.0, 10.0) &&
            g.posteriors.bHt == BetaPosterior(35.0, 15.0) &&
            Mean(g.posteriors.aHt) == 0.8 && Mean(g.posteriors.bHt) == 0.7 &&
            g.over05Ht.pMean == 0.75
  {
  }
}
