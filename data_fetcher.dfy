/** Turning a team's historical fixtures into over counts
    (`compute_over_stats_from_fixtures` in app/data_fetcher.py). */
module DataFetcher {
  import opened Wrappers
  import opened Stats

  /** A home/away goal pair; either side may be missing or null. */
  datatype ScorePair = ScorePair(home: Option<int>, away: Option<int>)

  /** The parts of a fixture record the counter reads. A missing `fixture`,
      `status` or `short` key all read as `statusShort == None`; a missing
      `score` or `halftime` object reads as a pair of `None`s. */
  datatype Fixture = Fixture(statusShort: Option<string>, halftime: ScorePair, goals: ScorePair)

  const FullTimeStatus: string := "FT"

  predicate Finished(fx: Fixture)
  {
    fx.statusShort == Some(FullTimeStatus)
  }

  predicate Present(p: ScorePair)
  {
    p.home.Some? && p.away.Some?
  }

  function Total(p: ScorePair): int
    requires Present(p)
  {
    p.home.value + p.away.value
  }

  /** 1 when `fx` counts as a trial for the score pair `p`: the game is
      finished and both scores of `p` are present. */
  function Trial(fx: Fixture, p: ScorePair): int
  {
    if Finished(fx) && Present(p) then 1 else 0
  }

  /** 1 when `fx` counts as a success for `p`: a trial in which at least
      `min` goals were scored. */
  function Success(fx: Fixture, p: ScorePair, min: int): int
  {
    if Finished(fx) && Present(p) && Total(p) >= min then 1 else 0
  }

  /** What one fixture adds to the four counters: half-time goals against
      the threshold 1, full-time goals against the threshold 2. */
  function Contribution(fx: Fixture): (r: OverStats)
    ensures Consistent(r) && r.htTrials <= 1 && r.ftTrials <= 1
    ensures !Finished(fx) ==> r == Zero
    ensures r.htTrials == 1 <==> Finished(fx) && Present(fx.halftime)
    ensures r.ftTrials == 1 <==> Finished(fx) && Present(fx.goals)
  {
    OverStats(Success(fx, fx.halftime, 1), Trial(fx, fx.halftime),
              Success(fx, fx.goals, 2), Trial(fx, fx.goals))
  }

  /** An unfinished fixture adds nothing; a trial is counted only when both
      scores are present, and a success only for a counted trial with at
      least 1 goal at half-time or at least 2 at full-time. */
  lemma ContributionCases(fx: Fixture)
    ensures !Finished(fx) ==> Contribution(fx) == Zero
    ensures Contribution(fx).htTrials == (if Finished(fx) && Present(fx.halftime) then 1 else 0)
    ensures Contribution(fx).htSuccesses ==
              (if Finished(fx) && Present(fx.halftime) && Total(fx.halftime) >= 1 then 1 else 0)
    ensures Contribution(fx).ftTrials == (if Finished(fx) && Present(fx.goals) then 1 else 0)
    ensures Contribution(fx).ftSuccesses ==
              (if Finished(fx) && Present(fx.goals) && Total(fx.goals) >= 2 then 1 else 0)
  {
  }

  /** The counts over a list of fixtures, accumulated in list order. Successes
      never exceed trials, and trials never exceed the number of fixtures. */
  function StatsOf(fxs: seq<Fixture>): (r: OverStats)
    ensures 0 <= r.htSuccesses <= r.htTrials <= |fxs|
    ensures 0 <= r.ftSuccesses <= r.ftTrials <= |fxs|
  {
    if |fxs| == 0 then Zero
    else Add(StatsOf(fxs[..|fxs| - 1]), Contribution(fxs[|fxs| - 1]))
  }

  /** Counting one more fixture adds its contribution. */
  lemma StatsOfStep(fxs: seq<Fixture>, i: nat)
    requires i < |fxs|
    ensures StatsOf(fxs[..i + 1]) == Add(StatsOf(fxs[..i]), Contribution(fxs[i]))
  {
    var p := fxs[..i + 1];
    assert p[..|p| - 1] == fxs[..i];
    assert p[|p| - 1] == fxs[i];
  }

  /** The body of the counting loop for one fixture: an unfinished game is
      skipped; otherwise each score pair with both sides present counts as a
      trial, and as a success when it reaches the market's threshold. */
  method CountFixture(fx: Fixture, htS0: int, htN0: int, ftS0: int, ftN0: int)
    returns (htS: int, htN: int, ftS: int, ftN: int)
    ensures OverStats(htS, htN, ftS, ftN) == Add(OverStats(htS0, htN0, ftS0, ftN0), Contribution(fx))
  {
    htS, htN, ftS, ftN := htS0, htN0, ftS0, ftN0;
    if fx.statusShort != Some(FullTimeStatus) {
      return;
    }

    // Half-time
    var htHome, htAway := fx.halftime.home, fx.halftime.away;
    if htHome.Some? && htAway.Some? {
      var totalHt := htHome.value + htAway.value;
      htN := htN + 1;
      if totalHt >= 1 {
        htS := htS + 1;
      }
    }

    // Full-time
    var ftHome, ftAway := fx.goals.home, fx.goals.away;
    if ftHome.Some? && ftAway.Some? {
      var totalFt := ftHome.value + ftAway.value;
      ftN := ftN + 1;
      if totalFt >= 2 {
        ftS := ftS + 1;
      }
    }
  }

  /** The counting loop: four counters start at 0 and each fixture updates
      them in place, in list order. */
  method ComputeOverStatsFromFixtures(fixtures: seq<Fixture>) returns (stats: OverStats)
    ensures stats == StatsOf(fixtures)
    ensures Consistent(stats)
    ensures stats.htTrials <= |fixtures| && stats.ftTrials <= |fixtures|
  {
    var htS, htN, ftS, ftN := 0, 0, 0, 0;
    for i := 0 to |fixtures|
      invariant OverStats(htS, htN, ftS, ftN) == StatsOf(fixtures[..i])
    {
      StatsOfStep(fixtures, i);
      htS, htN, ftS, ftN := CountFixture(fixtures[i], htS, htN, ftS, ftN);
    }
    assert fixtures[..|fixtures|] == fixtures;
    stats := OverStats(htS, htN, ftS, ftN);
  }

  /** No fixtures, no counts. */
  lemma NoFixturesNoCounts()
    ensures StatsOf([]) == Zero
  {
  }

  /** The counts are sums of per-fixture contributions: the counts over
      `xs + ys` are the counts over `xs` plus the counts over `ys`. */
  lemma {:induction false} StatsOfAppend(xs: seq<Fixture>, ys: seq<Fixture>)
    ensures StatsOf(xs + ys) == Add(StatsOf(xs), StatsOf(ys))
  {
    if |ys| == 0 {
      assert xs + ys == xs;
      AddZero(StatsOf(xs));
    } else {
      var init, last := ys[..|ys| - 1], ys[|ys| - 1];
      var zs := xs + ys;
      assert zs[..|zs| - 1] == xs + init;
      assert zs[|zs| - 1] == last;
      StatsOfAppend(xs, init);
      AddAssoc(StatsOf(xs), StatsOf(init), Contribution(last));
    }
  }

  /** The fixtures whose status is "FT", in their original order. */
  function FinishedOnly(fxs: seq<Fixture>): (r: seq<Fixture>)
    ensures |r| <= |fxs|
    ensures forall fx :: fx in r ==> fx in fxs && Finished(fx)
  {
    if |fxs| == 0 then []
    else if Finished(fxs[|fxs| - 1]) then FinishedOnly(fxs[..|fxs| - 1]) + [fxs[|fxs| - 1]]
    else FinishedOnly(fxs[..|fxs| - 1])
  }

  /** Unfinished fixtures contribute nothing: dropping them leaves every
      counter unchanged. */
  lemma {:induction false} UnfinishedIgnored(fxs: seq<Fixture>)
    ensures StatsOf(FinishedOnly(fxs)) == StatsOf(fxs)
  {
    if |fxs| > 0 {
      var init, last := fxs[..|fxs| - 1], fxs[|fxs| - 1];
      UnfinishedIgnored(init);
      if Finished(last) {
        var kept := FinishedOnly(init);
        assert (kept + [last])[..|kept|] == kept;
        assert StatsOf(kept + [last]) == Add(StatsOf(kept), Contribution(last));
      } else {
        AddZero(StatsOf(init));
      }
    }
  }

  /** With no finished fixture, the filter keeps nothing. */
  lemma {:induction false} NoneFinishedKeepsNone(fxs: seq<Fixture>)
    requires forall fx :: fx in fxs ==> !Finished(fx)
    ensures FinishedOnly(fxs) == []
  {
    if |fxs| > 0 {
      var init := fxs[..|fxs| - 1];
      assert forall fx :: fx in init ==> fx in fxs;
      NoneFinishedKeepsNone(init);
      assert fxs[|fxs| - 1] in fxs;
    }
  }

  /** A list with no finished fixture yields all four counts equal to 0. */
  lemma NothingFinishedNoCounts(fxs: seq<Fixture>)
    requires forall fx :: fx in fxs ==> !Finished(fx)
    ensures StatsOf(fxs) == Zero
  {
    NoneFinishedKeepsNone(fxs);
    UnfinishedIgnored(fxs);
  }
}
