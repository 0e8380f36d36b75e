/** The per-team record of over counts: the four-key dictionary that
    `compute_over_stats_from_fixtures` returns and `compute_game_probs` reads. */
module Stats {

  /** Successes and trials for the "over 0.5 at half-time" and
      "over 1.5 at full-time" markets. */
  datatype OverStats = OverStats(
    htSuccesses: int,  // over_05_ht_s
    htTrials: int,     // over_05_ht_n
    ftSuccesses: int,  // over_15_ft_s
    ftTrials: int      // over_15_ft_n
  )

  const Zero: OverStats := OverStats(0, 0, 0, 0)

  /** Componentwise sum of two records. */
  function Add(x: OverStats, y: OverStats): OverStats
  {
    OverStats(x.htSuccesses + y.htSuccesses, x.htTrials + y.htTrials,
              x.ftSuccesses + y.ftSuccesses, x.ftTrials + y.ftTrials)
  }

  /** The record a counter can produce: successes never exceed trials,
      and nothing is negative. */
  predicate Consistent(st: OverStats)
  {
    0 <= st.htSuccesses <= st.htTrials && 0 <= st.ftSuccesses <= st.ftTrials
  }

  /** `Zero` is the identity of `Add`. */
  lemma AddZero(x: OverStats)
    ensures Add(Zero, x) == x && Add(x, Zero) == x
  {
  }

  /** `Add` is associative, so counts can be regrouped. */
  lemma AddAssoc(x: OverStats, y: OverStats, z: OverStats)
    ensures Add(Add(x, y), z) == Add(x, Add(y, z))
  {
  }
}
