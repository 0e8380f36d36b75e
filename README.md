# Over-goals model for Liga Portugal, in Dafny

This project models the deterministic core of a small prediction service.
The service estimates two betting markets for a football match: "over 0.5
goals at half-time" (HT) and "over 1.5 goals at full-time" (FT).

- **Counting** (`DataFetcher`, app/data_fetcher.py). A team's past
  fixtures become four counters: HT trials and successes, FT trials and
  successes. Only finished games (`status.short == "FT"`) with both scores
  present are counted. The loop is modelled as an imperative `method` over
  the four counters. It is proved equal to a left fold, `StatsOf`, and the
  fold's properties are proved as lemmas.
- **Estimation** (`Model`, model.py). Each team's counts update a Beta
  prior by conjugate updating: HT prior Beta(32, 8), FT prior Beta(30, 10).
  The two teams' posterior means are averaged into `p_mean`, and their
  lower 5% quantiles into `p_min`. All arithmetic is exact over `real`.
  The Beta inverse CDF is a parameter `ppf` of type `Ppf`. Only its
  wrapper is modelled: a non-finite result or an exception gives 0.0.
- **Odds and alerts** (`AppMain`, app/main.py).
  - `OddsToProbability` converts a decimal odd into an implied probability.
  - `ExtractOddsFromResponse` walks bookmakers, then bets, then values,
    with nested loops. A later match overwrites an earlier one. An
    exception ends the walk and keeps what was written before it.
  - `DecideAlerts` is the alert loop of the prediction endpoint, with the
    threshold as a parameter. A market alerts when its odd is truthy and
    `p_min - implied probability` reaches the threshold.

The extractor's nested loops are proved equal to the left fold
`ExtractionScan`. The alert loop is proved equal to the per-market rule
`AlertFor` applied to the half-time market and then the full-time market;
its loop invariant uses the fold `AlertsOver`. What these compute is then
stated without reference to the loops:
- for extraction, `AllQuotes` lists every odd quoted for a market, in
  bookmaker, bet and value order (`BetsQuotesAppend`,
  `BookmakersQuotesAppend`). `ExtractionLastWins` proves that a market ends
  at the last of them (`LastOr`) when nothing raises.
  `ExtractedOnlyFromItsMarket` traces every written odd back to a quote for
  its own market;
- for alerts, `AlertIffEdge` states when a market alerts in terms of its
  odd, its edge and the threshold alone.

Shared pieces:
- `Stats` holds the four-counter record that the counter produces and the
  estimator reads.
- `Wrappers` holds `Option`.

## Model

| member | source | states |
|---|---|---|
| Model.Mean | model.py:22-24 | with positive mass `a + b`, the result times `a + b` is `a`; otherwise the result is 0.0 |
| Model.MeanInUnitInterval | model.py:22-24 | with `a, b >= 0` and `a + b > 0`, the mean lies in [0, 1] |
| Model.QuantileLower | model.py:26-31 | the result is the ppf value when ppf returns a finite float; otherwise (non-finite, or raised) it is 0.0 |
| Model.PosteriorFromCounts | model.py:33-34 | `a = a0 + s`, `b = b0 + n - s`, and `a + b = a0 + b0 + n`, with no validation of the counts |
| Model.PosteriorIsProper | model.py:33-34 | with `0 <= s <= n` and positive prior parameters, both posterior parameters are positive and the mean lies in [0, 1] |
| Model.NoDataKeepsPrior | model.py:22-34 | with `s = n = 0` the posterior is the prior, and its mean is `a0 / (a0 + b0)` |
| Model.PriorMeans | model.py:8-13 | the HT prior (32, 8) has mean 0.80 and the FT prior (30, 10) has mean 0.75 |
| Model.MeanMonotoneInSuccesses | model.py:22-34 | for fixed `n` and prior, more successes never lower the posterior mean, and strictly more strictly raise it |
| Model.CombineTwoProbs | model.py:36-37 | the result is the midpoint of `p1` and `p2`, so it lies between their minimum and maximum |
| Model.CombineSymmetric | model.py:36-37 | combining is symmetric in its two arguments |
| Model.CombineIdempotent | model.py:36-37 | combining a probability with itself gives it back |
| Model.CombineZeroOne | model.py:36-37 | combining 0 and 1 gives 0.5 |
| Model.MarketFromPosteriors | model.py:54-58 | `p_mean` is the midpoint of the two posterior means and lies between them; `p_min` is the midpoint of the two lower quantiles, and is 0.0 when ppf gives a non-finite value for both |
| Model.ComputeGameProbs | model.py:39-95 | each team's HT counts update the HT prior (32, 8) and its FT counts the FT prior (30, 10); these four posteriors are the ones reported, and each market's `p_mean`/`p_min` is built from its two |
| Model.GameMeansAreProbabilities | model.py:39-95 | with consistent counts (`0 <= s <= n`), both match means lie in [0, 1] and all four posteriors are proper |
| Model.MarketsAreIndependent | model.py:41-78 | the HT market depends only on the HT counts, and the FT market only on the FT counts |
| Model.TeamOrderIrrelevant | model.py:39-78 | swapping the two teams leaves both markets unchanged |
| Model.NoHistoryGivesPriors | model.py:39-95 | with all counts 0, `p_mean` is 0.80 (HT) and 0.75 (FT), and `p_min` is the prior's own lower quantile |
| Model.HalfTimeExample | model.py:41-54 | HT 8/10 and 3/10 give posteriors (40, 10) and (35, 15), means 0.8 and 0.7, and `p_mean` 0.75 |
| DataFetcher.Contribution | app/data_fetcher.py:68-92 | one fixture adds at most one HT trial and one FT trial, never more successes than trials, nothing when unfinished, and a trial exactly when it is finished and that score pair is present |
| DataFetcher.ContributionCases | app/data_fetcher.py:68-92 | an unfinished fixture adds nothing; a trial counts only when both scores are present; a success is a counted trial with at least 1 HT goal or at least 2 FT goals |
| DataFetcher.StatsOf | app/data_fetcher.py:67-92 | over any fixture list, `0 <= successes <= trials <= number of fixtures`, for HT and for FT |
| DataFetcher.StatsOfStep | app/data_fetcher.py:67-92 | (loop-proof helper) processing one more fixture adds exactly that fixture's contribution |
| DataFetcher.CountFixture | app/data_fetcher.py:68-92 | the body of the counting loop adds exactly the fixture's contribution to the four counters |
| DataFetcher.ComputeOverStatsFromFixtures | app/data_fetcher.py:56-99 | the counting loop returns the fold `StatsOf` over all fixtures, with successes at most trials and trials at most the number of fixtures |
| DataFetcher.NoFixturesNoCounts | app/data_fetcher.py:62-65 | an empty fixture list yields all four counters 0 |
| DataFetcher.StatsOfAppend | app/data_fetcher.py:67-92 | the counts over `xs + ys` are the componentwise sum of the counts over `xs` and over `ys` |
| DataFetcher.FinishedOnly | app/data_fetcher.py:68-69 | the filtered list is no longer than the input, and every element is an input fixture with status "FT" |
| DataFetcher.UnfinishedIgnored | app/data_fetcher.py:68-69 | dropping every fixture whose status is not "FT" (missing included) leaves all four counters unchanged |
| DataFetcher.NoneFinishedKeepsNone | app/data_fetcher.py:68-69 | when no fixture is finished, the filter keeps nothing |
| DataFetcher.NothingFinishedNoCounts | app/data_fetcher.py:68-69 | when no fixture is finished, all four counters are 0 |
| AppMain.OddsToProbability | app/main.py:21-25 | an odd at most 1.0 gives 0.0; above 1.0 the result is the reciprocal of the odd and lies strictly inside (0, 1) |
| AppMain.ExtractedOdds.Set | app/main.py:43-49 | writing one market gives it the new odd and leaves the other market as it was |
| AppMain.ValuesStep | app/main.py:41-49 | (loop-proof helper) the fold over a bet's values takes one more value as the loop body does, unless it has already raised |
| AppMain.BetsStep | app/main.py:38-49 | (loop-proof helper) the fold over a bookmaker's bets takes one more bet as the loop body does, unless it has already raised |
| AppMain.BookmakersStep | app/main.py:37-49 | (loop-proof helper) the fold over the bookmakers takes one more bookmaker as the loop body does, unless it has already raised |
| AppMain.ValuesRaisedSticks | app/main.py:41-51 | once a value raises, the later values of that bet change nothing |
| AppMain.BetsRaisedSticks | app/main.py:38-49 | once a bet raises, the later bets change nothing |
| AppMain.BookmakersRaisedSticks | app/main.py:37-51 | once the walk raises, the later bookmakers change nothing, so what was written before the exception is the result |
| AppMain.ExtractionScan | app/main.py:32-49 | whatever the walk leaves in a market is one of the odds quoted for that market |
| AppMain.ScanValuesLoop | app/main.py:41-49 | the loop over a bet's values computes the fold `ScanValues`: it writes each matching odd in turn and stops at the first exception |
| AppMain.ExtractOddsFromResponse | app/main.py:27-52 | the nested loops return the odds of the fold `ExtractionScan`; early exits where the source raises keep the partial writes, and the method never fails |
| AppMain.ValueQuotesQuoted | app/main.py:41-49 | every odd listed for a market comes from a value carrying exactly that market's label and that odd |
| AppMain.BetsQuotesQuoted | app/main.py:38-49 | every odd listed for a market across a bookmaker's bets comes from a bet named for that market and a value labelled for it |
| AppMain.BookmakersQuotesQuoted | app/main.py:37-49 | the same, across all bookmakers |
| AppMain.BetsQuotesAppend | app/main.py:38-49 | the quotes of `xs + ys` are those of `xs` followed by those of `ys`: bet order is kept |
| AppMain.BookmakerQuotesSingle | app/main.py:37-38 | one bookmaker quotes exactly what its bets quote |
| AppMain.BookmakersQuotesAppend | app/main.py:37-49 | the quotes of `xs + ys` are those of `xs` followed by those of `ys`: bookmaker order is kept |
| AppMain.LastOrAppend | app/main.py:43-49 | the last element of `xs + ys` is the last of `ys`, or else the last of `xs` |
| AppMain.ValuesLastWins | app/main.py:41-49 | scanning values for one market leaves the other market untouched and, without an exception, leaves the last matching odd |
| AppMain.BetLastWins | app/main.py:40-49 | without an exception, one bet leaves each market at the last odd that bet quotes for it |
| AppMain.BetsLastWins | app/main.py:38-49 | without an exception, a bookmaker's bets leave each market at the last odd quoted for it |
| AppMain.BookmakersLastWins | app/main.py:37-49 | without an exception, all bookmakers leave each market at the last odd quoted for it |
| AppMain.ExtractionLastWins | app/main.py:32-49 | when nothing raises, each market holds the last odd quoted for it in bookmaker, bet, value order, and None when none was quoted |
| AppMain.ValuesProvenance | app/main.py:41-49 | what a value scan writes for a market is either the previous value or one of the odds labelled for it |
| AppMain.BetProvenance | app/main.py:40-49 | what a bet writes for a market is either the previous value or an odd that bet quotes for it |
| AppMain.BetsProvenance | app/main.py:38-49 | the same across a bookmaker's bets |
| AppMain.BookmakersProvenance | app/main.py:37-49 | the same across all bookmakers |
| AppMain.ExtractedOnlyFromItsMarket | app/main.py:40-49 | `over15_ft` only ever holds an "Over 1.5" odd of a "Goals Over/Under" bet, and `over05_ht` only an "Over 0.5" odd of a "Goals Over/Under First Half" bet, exception or not |
| AppMain.NothingToExtract | app/main.py:32-36 | a missing `response`, an empty `response` list (which raises) and a first item without bookmakers all leave both markets None |
| AppMain.Edge | app/main.py:94-96 | for an odd above 1.0 the edge is `p_min` minus the implied probability and lies strictly between `p_min - 1` and `p_min`; otherwise it is `p_min` |
| AppMain.Round4 | app/main.py:110 | the result is a multiple of 1/10000 within 0.00005 of the input, and an exact tie goes to the even multiple |
| AppMain.Round4Unique | app/main.py:110 | any multiple of 1/10000 within 0.00005 of `x` that takes the even multiple on an exact tie is `Round4(x)`: the three properties determine `round(x, 4)` |
| AppMain.AlertFor | app/main.py:93-110 | one market gives at most one entry; there is one exactly when its odd is truthy and its edge reaches the threshold, and it carries the market's name and the edge rounded to 4 decimals: a multiple of 1/10000 within 0.00005 of the edge, an exact tie going to the even multiple |
| AppMain.DecideAlerts | app/main.py:90-110 | the loop returns the half-time entry followed by the full-time entry, and nothing when alerts are off |
| AppMain.AlertIffEdge | app/main.py:92-98 | a market is alerted exactly when alerts are on, its odd is neither None nor 0.0, and its edge reaches the threshold; the recorded edge is within 0.00005 of the exact one |
| AppMain.AlertsInMarketOrder | app/main.py:92-110 | at most two alerts, and when both fire "Over 0.5 HT" comes before "Over 1.5 FT" |
| AppMain.UnusableOddAlertsOnPMin | app/main.py:93-98 | a truthy odd at most 1.0 has no implied probability, so the market alerts exactly when `p_min` alone reaches the threshold |
| AppMain.AlertExample | app/main.py:92-110 | `p_min` 0.70 against odd 2.0 with threshold 0.05 records the alert ("Over 0.5 HT", 0.2); a missing FT odd records nothing |

## Left out

- The Beta inverse CDF (`beta_dist.ppf`, model.py:28) is foreign floating-point code. It is the parameter `ppf`. So nothing is proved about its value: not that the quantile grows with `alpha`, and not that `p_min <= p_mean`.
- Floating point is modelled as exact `real` arithmetic. IEEE rounding of `/`, `+` and of `round(edge, 4)` is not modelled. `Round4` rounds halves to even on the exact value.
- `float(val["odd"])` string parsing is not modelled. An odd is an already-parsed `real`. A missing `odd` key and a text that does not parse are both `None`, and both raise at the point where the source parses.
- JSON `null` in place of an intermediate object is not modelled. Examples are `"score": null` in a fixture, or a bookmaker that is not a dictionary; in the source these raise `AttributeError`. Missing keys are modelled by the `Option` fields and the defaults the source uses.
- Non-integer goal values in a fixture are not modelled. Goals are `int` when present.
- The counts are not validated, and the code does not validate them either (model.py:33-34). `PosteriorFromCounts` accepts any integers. Properness is proved only under `0 <= s <= n`, which every count produced by `ComputeOverStatsFromFixtures` satisfies.
- AppMain.DecideAlerts: the `sent` field of an alert entry is not modelled. It is the result of the Telegram call (app/main.py:109-110), which is network I/O. The message text from `format_alert_message` is not modelled either.
- The rest of `predict` is not modelled: the FastAPI routing, `HTTPException` paths, the response dictionary and the request model (app/main.py:13-19, 54-88, 112-119). It only orchestrates calls that are modelled here or are network I/O.
- `MIN_EDGE_ALERT` is the parameter `minEdge` of `DecideAlerts`. It is imported by app/main.py:11, and app/config.py is not part of this model.
- The async HTTP fetchers in app/data_fetcher.py (team lookup, fixture pagination, odds and live fixtures) are network I/O. They are not modelled.
- app/telegram_notifier.py and the top-level main.py are not part of this model.
