/** Odds handling and the alert decision of the prediction endpoint
    (app/main.py): implied probability of a decimal odd, extraction of the
    two tracked markets from an odds response, and the edge test that
    decides which markets raise an alert. */
module AppMain {
  import opened Wrappers
  import Model

  // ---------------------------------------------------------------------
  // Implied probability

  /** Implied probability of a decimal odd; an odd at or below 1.0 is taken
      to carry no probability at all. */
  function OddsToProbability(odd: real): (r: real)
    ensures odd <= 1.0 ==> r == 0.0
    ensures odd > 1.0 ==> r * odd == 1.0 && 0.0 < r < 1.0
  {
    if odd <= 1.0 then 0.0 else 1.0 / odd
  }

  // ---------------------------------------------------------------------
  // Markets

  /** The two tracked markets, in the key order of the extracted-odds record. */
  datatype Market = OverHalfHt | OverOneHalfFt

  function Other(m: Market): Market
  {
    match m
    case OverHalfHt => OverOneHalfFt
    case OverOneHalfFt => OverHalfHt
  }

  /** Name of the bet that quotes the market. */
  function BetName(m: Market): string
  {
    match m
    case OverHalfHt => "Goals Over/Under First Half"
    case OverOneHalfFt => "Goals Over/Under"
  }

  /** Label of the quoted value inside that bet. */
  function Label(m: Market): string
  {
    match m
    case OverHalfHt => "Over 0.5"
    case OverOneHalfFt => "Over 1.5"
  }

  /** Human-readable market name recorded in an alert. */
  function MarketName(m: Market): string
  {
    match m
    case OverHalfHt => "Over 0.5 HT"
    case OverOneHalfFt => "Over 1.5 FT"
  }

  // ---------------------------------------------------------------------
  // The odds response

  /** One quoted value of a bet. `value` is None when the key is absent;
      `odd` is None when the key is absent or its text is not a number
      (both make the source raise when it reads them). */
  datatype OddValue = OddValue(value: Option<string>, odd: Option<real>)

  /** A bet; `name` and `values` are None when the key is absent. */
  datatype Bet = Bet(name: Option<string>, values: Option<seq<OddValue>>)

  /** A bookmaker; an absent `bets` key reads as the empty list. */
  datatype Bookmaker = Bookmaker(bets: seq<Bet>)

  /** An element of `response`; an absent `bookmakers` key reads as empty. */
  datatype ResponseItem = ResponseItem(bookmakers: seq<Bookmaker>)

  /** The odds payload; `response` is None when the key is absent. */
  datatype OddsData = OddsData(response: Option<seq<ResponseItem>>)

  /** The extracted dictionary: exactly the two market keys, each holding an
      odd or None. */
  datatype ExtractedOdds = ExtractedOdds(over05Ht: Option<real>, over15Ft: Option<real>)
  {
    function Get(m: Market): Option<real>
    {
      match m
      case OverHalfHt => over05Ht
      case OverOneHalfFt => over15Ft
    }

    /** Overwrites one market and leaves the other as it was. */
    function Set(m: Market, x: real): (r: ExtractedOdds)
      ensures r.Get(m) == Some(x)
      ensures r.Get(Other(m)) == Get(Other(m))
    {
      match m
      case OverHalfHt => this.(over05Ht := Some(x))
      case OverOneHalfFt => this.(over15Ft := Some(x))
    }
  }

  const NoOdds: ExtractedOdds := ExtractedOdds(None, None)

  /** The state of the extraction after a prefix of the traversal: what has
      been written so far, and whether an exception has been raised. */
  datatype Scan = Scan(odds: ExtractedOdds, raised: bool)

  // ---------------------------------------------------------------------
  // Extraction, as left folds over the traversal

  /** One quoted value inside the bet of market m: reading a missing `value`
      raises; a matching label writes the odd, or raises if the odd cannot be
      read. */
  function ValueStep(acc: ExtractedOdds, v: OddValue, m: Market): Scan
  {
    if v.value.None? then Scan(acc, true)
    else if v.value.value != Label(m) then Scan(acc, false)
    else if v.odd.None? then Scan(acc, true)
    else Scan(acc.Set(m, v.odd.value), false)
  }

  function ScanValues(acc: ExtractedOdds, vals: seq<OddValue>, m: Market): Scan
  {
    if |vals| == 0 then Scan(acc, false)
    else
      var s := ScanValues(acc, vals[..|vals| - 1], m);
      if s.raised then s else ValueStep(s.odds, vals[|vals| - 1], m)
  }

  /** The block of one market inside a bet: when the bet's name is the
      market's, its `values` are scanned (a missing `values` raises). */
  function MarketBlock(acc: ExtractedOdds, bet: Bet, m: Market): Scan
    requires bet.name.Some?
  {
    if bet.name.value != BetName(m) then Scan(acc, false)
    else if bet.values.None? then Scan(acc, true)
    else ScanValues(acc, bet.values.value, m)
  }

  /** One bet: reading a missing name raises; then the full-time block runs,
      and then the first-half block. */
  function BetStep(acc: ExtractedOdds, bet: Bet): Scan
  {
    if bet.name.None? then Scan(acc, true)
    else
      var s := MarketBlock(acc, bet, OverOneHalfFt);
      if s.raised then s else MarketBlock(s.odds, bet, OverHalfHt)
  }

  function ScanBets(acc: ExtractedOdds, bets: seq<Bet>): Scan
  {
    if |bets| == 0 then Scan(acc, false)
    else
      var s := ScanBets(acc, bets[..|bets| - 1]);
      if s.raised then s else BetStep(s.odds, bets[|bets| - 1])
  }

  function ScanBookmakers(acc: ExtractedOdds, bms: seq<Bookmaker>): Scan
  {
    if |bms| == 0 then Scan(acc, false)
    else
      var s := ScanBookmakers(acc, bms[..|bms| - 1]);
      if s.raised then s else ScanBets(s.odds, bms[|bms| - 1].bets)
  }

  /** The whole extraction. A missing `response` stands for a list holding one
      empty item (no bookmakers); an empty `response` list raises at once.
      Whatever ends up in a market is one of the odds quoted for it. */
  function ExtractionScan(data: OddsData): (r: Scan)
    ensures r.odds.Get(OverHalfHt).Some? ==> r.odds.Get(OverHalfHt).value in AllQuotes(data, OverHalfHt)
    ensures r.odds.Get(OverOneHalfFt).Some? ==> r.odds.Get(OverOneHalfFt).value in AllQuotes(data, OverOneHalfFt)
  {
    match data.response
    case None => Scan(NoOdds, false)
    case Some(items) =>
      if |items| == 0 then Scan(NoOdds, true)
      else
        BookmakersProvenance(NoOdds, items[0].bookmakers, OverHalfHt);
        BookmakersProvenance(NoOdds, items[0].bookmakers, OverOneHalfFt);
        ScanBookmakers(NoOdds, items[0].bookmakers)
  }

  // Each fold takes one more element as its definition says.

  lemma ValuesStep(acc: ExtractedOdds, vals: seq<OddValue>, k: nat, m: Market)
    requires k < |vals|
    ensures ScanValues(acc, vals[..k + 1], m) ==
              var s := ScanValues(acc, vals[..k], m);
              if s.raised then s else ValueStep(s.odds, vals[k], m)
  {
    var p := vals[..k + 1];
    assert p[..|p| - 1] == vals[..k];
  }

  lemma BetsStep(acc: ExtractedOdds, bets: seq<Bet>, j: nat)
    requires j < |bets|
    ensures ScanBets(acc, bets[..j + 1]) ==
              var s := ScanBets(acc, bets[..j]);
              if s.raised then s else BetStep(s.odds, bets[j])
  {
    var p := bets[..j + 1];
    assert p[..|p| - 1] == bets[..j];
  }

  lemma BookmakersStep(acc: ExtractedOdds, bms: seq<Bookmaker>, i: nat)
    requires i < |bms|
    ensures ScanBookmakers(acc, bms[..i + 1]) ==
              var s := ScanBookmakers(acc, bms[..i]);
              if s.raised then s else ScanBets(s.odds, bms[i].bets)
  {
    var p := bms[..i + 1];
    assert p[..|p| - 1] == bms[..i];
  }

  // Once raised, the rest of the traversal is skipped: what was written
  // before the exception is the result.

  lemma {:induction false} ValuesRaisedSticks(acc: ExtractedOdds, vals: seq<OddValue>, k: nat, m: Market)
    requires k <= |vals| && ScanValues(acc, vals[..k], m).raised
    ensures ScanValues(acc, vals, m) == ScanValues(acc, vals[..k], m)
  {
    if k < |vals| {
      var init := vals[..|vals| - 1];
      assert init[..k] == vals[..k];
      ValuesRaisedSticks(acc, init, k, m);
    } else {
      assert vals[..k] == vals;
    }
  }

  lemma {:induction false} BetsRaisedSticks(acc: ExtractedOdds, bets: seq<Bet>, j: nat)
    requires j <= |bets| && ScanBets(acc, bets[..j]).raised
    ensures ScanBets(acc, bets) == ScanBets(acc, bets[..j])
  {
    if j < |bets| {
      var init := bets[..|bets| - 1];
      assert init[..j] == bets[..j];
      BetsRaisedSticks(acc, init, j);
    } else {
      assert bets[..j] == bets;
    }
  }

  /** An exception part-way through the bookmakers ends the extraction with
      the values written before it: later bookmakers change nothing. */
  lemma {:induction false} BookmakersRaisedSticks(acc: ExtractedOdds, bms: seq<Bookmaker>, i: nat)
    requires i <= |bms| && ScanBookmakers(acc, bms[..i]).raised
    ensures ScanBookmakers(acc, bms) == ScanBookmakers(acc, bms[..i])
  {
    if i < |bms| {
      var init := bms[..|bms| - 1];
      assert init[..i] == bms[..i];
      BookmakersRaisedSticks(acc, init, i);
    } else {
      assert bms[..i] == bms;
    }
  }

  /** The loop over the quoted values of one bet, for market m; `raised`
      reports the exception that ends the whole extraction. */
  method ScanValuesLoop(start: ExtractedOdds, values: seq<OddValue>, m: Market) returns (s: Scan)
    ensures s == ScanValues(start, values, m)
  {
    var extracted := start;
    for k := 0 to |values|
      invariant ScanValues(start, values[..k], m) == Scan(extracted, false)
    {
      ValuesStep(start, values, k, m);
      var val := values[k];
      if val.value.None? {
        ValuesRaisedSticks(start, values, k + 1, m);
        return Scan(extracted, true);
      }
      if val.value.value == Label(m) {
        if val.odd.None? {
          ValuesRaisedSticks(start, values, k + 1, m);
          return Scan(extracted, true);
        }
        extracted := extracted.Set(m, val.odd.value);
      }
    }
    assert values[..|values|] == values;
    s := Scan(extracted, false);
  }

  /** The extractor: walks bookmakers, then bets, then values; a later match
      overwrites an earlier one, and an exception ends the walk, keeping what
      was written before it. It never fails. */
  method ExtractOddsFromResponse(data: OddsData) returns (extracted: ExtractedOdds)
    ensures extracted == ExtractionScan(data).odds
  {
    extracted := NoOdds;
    var bookmakers: seq<Bookmaker> := [];
    if data.response.Some? {
      var items := data.response.value;
      if |items| == 0 {
        return;  // indexing the empty list raises
      }
      bookmakers := items[0].bookmakers;
    }
    for i := 0 to |bookmakers|
      invariant ScanBookmakers(NoOdds, bookmakers[..i]) == Scan(extracted, false)
    {
      BookmakersStep(NoOdds, bookmakers, i);
      var bets := bookmakers[i].bets;
      ghost var atBookmaker := extracted;
      for j := 0 to |bets|
        invariant ScanBets(atBookmaker, bets[..j]) == Scan(extracted, false)
      {
        BetsStep(atBookmaker, bets, j);
        var bet := bets[j];
        if bet.name.None? {
          BetsRaisedSticks(atBookmaker, bets, j + 1);
          BookmakersRaisedSticks(NoOdds, bookmakers, i + 1);
          return;
        }
        ghost var atBet := extracted;
        // Over/Under full time
        if bet.name.value == BetName(OverOneHalfFt) {
          if bet.values.None? {
            BetsRaisedSticks(atBookmaker, bets, j + 1);
            BookmakersRaisedSticks(NoOdds, bookmakers, i + 1);
            return;
          }
          var s := ScanValuesLoop(extracted, bet.values.value, OverOneHalfFt);
          extracted := s.odds;
          if s.raised {
            BetsRaisedSticks(atBookmaker, bets, j + 1);
            BookmakersRaisedSticks(NoOdds, bookmakers, i + 1);
            return;
          }
        }
        assert MarketBlock(atBet, bet, OverOneHalfFt) == Scan(extracted, false);
        ghost var atHalf := extracted;
        // Over/Under first half
        if bet.name.value == BetName(OverHalfHt) {
          if bet.values.None? {
            BetsRaisedSticks(atBookmaker, bets, j + 1);
            BookmakersRaisedSticks(NoOdds, bookmakers, i + 1);
            return;
          }
          var s := ScanValuesLoop(extracted, bet.values.value, OverHalfHt);
          extracted := s.odds;
          if s.raised {
            BetsRaisedSticks(atBookmaker, bets, j + 1);
            BookmakersRaisedSticks(NoOdds, bookmakers, i + 1);
            return;
          }
        }
        assert MarketBlock(atHalf, bet, OverHalfHt) == Scan(extracted, false);
      }
      assert bets[..|bets|] == bets;
    }
    assert bookmakers[..|bookmakers|] == bookmakers;
  }

  // ---------------------------------------------------------------------
  // Reference definition: the odds quoted for a market, in traversal order

  /** The odds of the values labelled for market m, in order. */
  function ValueQuotes(vals: seq<OddValue>, m: Market): seq<real>
  {
    if |vals| == 0 then []
    else
      var v := vals[|vals| - 1];
      var init := ValueQuotes(vals[..|vals| - 1], m);
      if v.value == Some(Label(m)) && v.odd.Some? then init + [v.odd.value] else init
  }

  /** Each odd listed for market m comes from a value carrying exactly that
      market's label and that odd. */
  lemma {:induction false} ValueQuotesQuoted(vals: seq<OddValue>, m: Market)
    ensures forall x :: x in ValueQuotes(vals, m) ==>
              exists k :: 0 <= k < |vals| && vals[k] == OddValue(Some(Label(m)), Some(x))
  {
    if |vals| > 0 {
      var init := vals[..|vals| - 1];
      ValueQuotesQuoted(init, m);
      assert forall k :: 0 <= k < |init| ==> init[k] == vals[k];
    }
  }

  /** What one bet quotes for market m: its values, when the bet carries the
      market's name. */
  function BetQuotes(bet: Bet, m: Market): seq<real>
  {
    if bet.name == Some(BetName(m)) && bet.values.Some? then ValueQuotes(bet.values.value, m) else []
  }

  ghost predicate QuotedInBets(bets: seq<Bet>, m: Market, x: real)
  {
    exists j, k :: 0 <= j < |bets| && bets[j].name == Some(BetName(m)) && bets[j].values.Some? &&
                   0 <= k < |bets[j].values.value| &&
                   bets[j].values.value[k] == OddValue(Some(Label(m)), Some(x))
  }

  ghost predicate QuotedInBookmakers(bms: seq<Bookmaker>, m: Market, x: real)
  {
    exists i, j, k :: 0 <= i < |bms| && 0 <= j < |bms[i].bets| &&
                      bms[i].bets[j].name == Some(BetName(m)) && bms[i].bets[j].values.Some? &&
                      0 <= k < |bms[i].bets[j].values.value| &&
                      bms[i].bets[j].values.value[k] == OddValue(Some(Label(m)), Some(x))
  }

  /** The odds quoted for market m across a bookmaker's bets, in bet order. */
  function BetsQuotes(bets: seq<Bet>, m: Market): seq<real>
  {
    if |bets| == 0 then [] else BetsQuotes(bets[..|bets| - 1], m) + BetQuotes(bets[|bets| - 1], m)
  }

  /** The odds quoted for market m across the bookmakers, in bookmaker order. */
  function BookmakersQuotes(bms: seq<Bookmaker>, m: Market): seq<real>
  {
    if |bms| == 0 then [] else BookmakersQuotes(bms[..|bms| - 1], m) + BetsQuotes(bms[|bms| - 1].bets, m)
  }

  /** Every odd a bookmaker's bets quote for market m comes from a bet named
      for m and a value labelled for m. */
  lemma {:induction false} BetsQuotesQuoted(bets: seq<Bet>, m: Market)
    ensures forall x :: x in BetsQuotes(bets, m) ==> QuotedInBets(bets, m, x)
  {
    if |bets| > 0 {
      var init := bets[..|bets| - 1];
      BetsQuotesQuoted(init, m);
      forall x | x in BetsQuotes(init, m) ensures QuotedInBets(bets, m, x) {
        var j, k :| 0 <= j < |init| && init[j].name == Some(BetName(m)) && init[j].values.Some? &&
                    0 <= k < |init[j].values.value| &&
                    init[j].values.value[k] == OddValue(Some(Label(m)), Some(x));
        assert bets[j] == init[j];
      }
      if bets[|bets| - 1].values.Some? {
        ValueQuotesQuoted(bets[|bets| - 1].values.value, m);
      }
      forall x | x in BetQuotes(bets[|bets| - 1], m) ensures QuotedInBets(bets, m, x) {
        var vals := bets[|bets| - 1].values.value;
        var k :| 0 <= k < |vals| && vals[k] == OddValue(Some(Label(m)), Some(x));
        assert bets[|bets| - 1].values.value[k] == OddValue(Some(Label(m)), Some(x));
      }
    }
  }

  /** The same across the bookmakers. */
  lemma {:induction false} BookmakersQuotesQuoted(bms: seq<Bookmaker>, m: Market)
    ensures forall x :: x in BookmakersQuotes(bms, m) ==> QuotedInBookmakers(bms, m, x)
  {
    if |bms| > 0 {
      var init := bms[..|bms| - 1];
      var last := bms[|bms| - 1];
      BookmakersQuotesQuoted(init, m);
      BetsQuotesQuoted(last.bets, m);
      forall x | x in BookmakersQuotes(init, m) ensures QuotedInBookmakers(bms, m, x) {
        var i, j, k :| 0 <= i < |init| && 0 <= j < |init[i].bets| &&
                       init[i].bets[j].name == Some(BetName(m)) && init[i].bets[j].values.Some? &&
                       0 <= k < |init[i].bets[j].values.value| &&
                       init[i].bets[j].values.value[k] == OddValue(Some(Label(m)), Some(x));
        assert bms[i] == init[i];
      }
      forall x | x in BetsQuotes(last.bets, m) ensures QuotedInBookmakers(bms, m, x) {
        var j, k :| 0 <= j < |last.bets| && last.bets[j].name == Some(BetName(m)) &&
                    last.bets[j].values.Some? && 0 <= k < |last.bets[j].values.value| &&
                    last.bets[j].values.value[k] == OddValue(Some(Label(m)), Some(x));
        assert bms[|bms| - 1].bets[j].values.value[k] == OddValue(Some(Label(m)), Some(x));
      }
    }
  }

  /** The quotes of a list of bets are those of its first part followed by
      those of its second part: bet order is kept. */
  lemma {:induction false} BetsQuotesAppend(xs: seq<Bet>, ys: seq<Bet>, m: Market)
    ensures BetsQuotes(xs + ys, m) == BetsQuotes(xs, m) + BetsQuotes(ys, m)
  {
    if |ys| == 0 {
      assert xs + ys == xs;
      assert BetsQuotes(xs, m) + [] == BetsQuotes(xs, m);
    } else {
      var init := ys[..|ys| - 1];
      var zs := xs + ys;
      var last := BetQuotes(ys[|ys| - 1], m);
      assert zs[..|zs| - 1] == xs + init && zs[|zs| - 1] == ys[|ys| - 1];
      assert BetsQuotes(zs, m) == BetsQuotes(xs + init, m) + last;
      assert BetsQuotes(ys, m) == BetsQuotes(init, m) + last;
      BetsQuotesAppend(xs, init, m);
      Regroup(BetsQuotes(xs, m), BetsQuotes(init, m), last);
    }
  }

  /** A single bookmaker quotes what its bets quote. */
  lemma BookmakerQuotesSingle(bm: Bookmaker, m: Market)
    ensures BookmakersQuotes([bm], m) == BetsQuotes(bm.bets, m)
  {
    assert [bm][..0] == [];
  }

  /** The quotes across bookmakers are those of the earlier bookmakers
      followed by those of the later ones: with `BookmakerQuotesSingle`, the
      list is in bookmaker, then bet, then value order. */
  lemma {:induction false} BookmakersQuotesAppend(xs: seq<Bookmaker>, ys: seq<Bookmaker>, m: Market)
    ensures BookmakersQuotes(xs + ys, m) == BookmakersQuotes(xs, m) + BookmakersQuotes(ys, m)
  {
    if |ys| == 0 {
      assert xs + ys == xs;
      assert BookmakersQuotes(xs, m) + [] == BookmakersQuotes(xs, m);
    } else {
      var init := ys[..|ys| - 1];
      var zs := xs + ys;
      var last := BetsQuotes(ys[|ys| - 1].bets, m);
      assert zs[..|zs| - 1] == xs + init && zs[|zs| - 1] == ys[|ys| - 1];
      assert BookmakersQuotes(zs, m) == BookmakersQuotes(xs + init, m) + last;
      assert BookmakersQuotes(ys, m) == BookmakersQuotes(init, m) + last;
      BookmakersQuotesAppend(xs, init, m);
      Regroup(BookmakersQuotes(xs, m), BookmakersQuotes(init, m), last);
    }
  }

  /** Concatenation of quote lists is associative. */
  lemma Regroup(a: seq<real>, b: seq<real>, c: seq<real>)
    ensures (a + b) + c == a + (b + c)
  {
  }

  /** Every odd quoted for market m in the payload's first response item. */
  function AllQuotes(data: OddsData, m: Market): seq<real>
  {
    match data.response
    case None => []
    case Some(items) => if |items| == 0 then [] else BookmakersQuotes(items[0].bookmakers, m)
  }

  /** The last element of xs, or d when xs is empty. */
  function LastOr(d: Option<real>, xs: seq<real>): Option<real>
  {
    if |xs| == 0 then d else Some(xs[|xs| - 1])
  }

  lemma LastOrAppend(d: Option<real>, xs: seq<real>, ys: seq<real>)
    ensures LastOr(d, xs + ys) == LastOr(LastOr(d, xs), ys)
  {
    if |ys| > 0 {
      assert (xs + ys)[|xs + ys| - 1] == ys[|ys| - 1];
    } else {
      assert xs + ys == xs;
    }
  }

  // Last match wins, level by level.

  lemma {:induction false} ValuesLastWins(acc: ExtractedOdds, vals: seq<OddValue>, m: Market)
    ensures ScanValues(acc, vals, m).odds.Get(Other(m)) == acc.Get(Other(m))
    ensures !ScanValues(acc, vals, m).raised ==>
              ScanValues(acc, vals, m).odds.Get(m) == LastOr(acc.Get(m), ValueQuotes(vals, m))
  {
    if |vals| > 0 {
      var init, v := vals[..|vals| - 1], vals[|vals| - 1];
      ValuesLastWins(acc, init, m);
      var s := ScanValues(acc, init, m);
      if !s.raised && v.value == Some(Label(m)) && v.odd.Some? {
        LastOrAppend(acc.Get(m), ValueQuotes(init, m), [v.odd.value]);
      }
    }
  }

  lemma BetLastWins(acc: ExtractedOdds, bet: Bet, m: Market)
    ensures !BetStep(acc, bet).raised ==>
              BetStep(acc, bet).odds.Get(m) == LastOr(acc.Get(m), BetQuotes(bet, m))
  {
    if bet.name.Some? && bet.values.Some? {
      var vals := bet.values.value;
      if bet.name.value == BetName(OverOneHalfFt) {
        ValuesLastWins(acc, vals, OverOneHalfFt);
      } else if bet.name.value == BetName(OverHalfHt) {
        ValuesLastWins(acc, vals, OverHalfHt);
      }
    }
  }

  lemma {:induction false} BetsLastWins(acc: ExtractedOdds, bets: seq<Bet>, m: Market)
    ensures !ScanBets(acc, bets).raised ==>
              ScanBets(acc, bets).odds.Get(m) == LastOr(acc.Get(m), BetsQuotes(bets, m))
  {
    if |bets| > 0 {
      var init, bet := bets[..|bets| - 1], bets[|bets| - 1];
      BetsLastWins(acc, init, m);
      var s := ScanBets(acc, init);
      if !s.raised {
        BetLastWins(s.odds, bet, m);
        LastOrAppend(acc.Get(m), BetsQuotes(init, m), BetQuotes(bet, m));
      }
    }
  }

  lemma {:induction false} BookmakersLastWins(acc: ExtractedOdds, bms: seq<Bookmaker>, m: Market)
    ensures !ScanBookmakers(acc, bms).raised ==>
              ScanBookmakers(acc, bms).odds.Get(m) == LastOr(acc.Get(m), BookmakersQuotes(bms, m))
  {
    if |bms| > 0 {
      var init, bm := bms[..|bms| - 1], bms[|bms| - 1];
      BookmakersLastWins(acc, init, m);
      var s := ScanBookmakers(acc, init);
      if !s.raised {
        BetsLastWins(s.odds, bm.bets, m);
        LastOrAppend(acc.Get(m), BookmakersQuotes(init, m), BetsQuotes(bm.bets, m));
      }
    }
  }

  /** When nothing raises, each market holds the last odd quoted for it in
      bookmaker, then bet, then value order, and None if none was quoted. */
  lemma ExtractionLastWins(data: OddsData, m: Market)
    ensures !ExtractionScan(data).raised ==>
              ExtractionScan(data).odds.Get(m) == LastOr(None, AllQuotes(data, m))
  {
    if data.response.Some? && |data.response.value| > 0 {
      BookmakersLastWins(NoOdds, data.response.value[0].bookmakers, m);
    }
  }

  // Whatever is written comes from a quote for that market, exception or not.

  lemma {:induction false} ValuesProvenance(acc: ExtractedOdds, vals: seq<OddValue>, m: Market)
    ensures var r := ScanValues(acc, vals, m).odds.Get(m);
            r == acc.Get(m) || (r.Some? && r.value in ValueQuotes(vals, m))
  {
    if |vals| > 0 {
      ValuesProvenance(acc, vals[..|vals| - 1], m);
    }
  }

  lemma BetProvenance(acc: ExtractedOdds, bet: Bet, m: Market)
    ensures var r := BetStep(acc, bet).odds.Get(m);
            r == acc.Get(m) || (r.Some? && r.value in BetQuotes(bet, m))
  {
    if bet.name.Some? && bet.values.Some? {
      var vals := bet.values.value;
      if bet.name.value == BetName(OverOneHalfFt) {
        ValuesProvenance(acc, vals, OverOneHalfFt);
        ValuesLastWins(acc, vals, OverOneHalfFt);
      } else if bet.name.value == BetName(OverHalfHt) {
        ValuesProvenance(acc, vals, OverHalfHt);
        ValuesLastWins(acc, vals, OverHalfHt);
      }
    }
  }

  lemma {:induction false} BetsProvenance(acc: ExtractedOdds, bets: seq<Bet>, m: Market)
    ensures var r := ScanBets(acc, bets).odds.Get(m);
            r == acc.Get(m) || (r.Some? && r.value in BetsQuotes(bets, m))
  {
    if |bets| > 0 {
      var init := bets[..|bets| - 1];
      BetsProvenance(acc, init, m);
      var s := ScanBets(acc, init);
      if !s.raised {
        BetProvenance(s.odds, bets[|bets| - 1], m);
      }
    }
  }

  lemma {:induction false} BookmakersProvenance(acc: ExtractedOdds, bms: seq<Bookmaker>, m: Market)
    ensures var r := ScanBookmakers(acc, bms).odds.Get(m);
            r == acc.Get(m) || (r.Some? && r.value in BookmakersQuotes(bms, m))
  {
    if |bms| > 0 {
      var init := bms[..|bms| - 1];
      BookmakersProvenance(acc, init, m);
      var s := ScanBookmakers(acc, init);
      if !s.raised {
        BetsProvenance(s.odds, bms[|bms| - 1].bets, m);
      }
    }
  }

  /** The full-time odd is only ever taken from a "Goals Over/Under" bet's
      "Over 1.5" value, and the first-half odd only from a "Goals Over/Under
      First Half" bet's "Over 0.5" value, whether or not an exception cut the
      walk short. */
  lemma ExtractedOnlyFromItsMarket(data: OddsData, m: Market)
    ensures ExtractionScan(data).odds.Get(m).Some? ==>
              data.response.Some? && |data.response.value| > 0 &&
              QuotedInBookmakers(data.response.value[0].bookmakers, m, ExtractionScan(data).odds.Get(m).value)
  {
    if data.response.Some? && |data.response.value| > 0 {
      BookmakersProvenance(NoOdds, data.response.value[0].bookmakers, m);
      BookmakersQuotesQuoted(data.response.value[0].bookmakers, m);
    }
  }

  /** No payload, an empty `response` list, or a response without bookmakers
      all yield both markets None. */
  lemma NothingToExtract(data: OddsData)
    ensures data.response.None? ==> ExtractionScan(data).odds == NoOdds
    ensures data.response == Some([]) ==> ExtractionScan(data) == Scan(NoOdds, true)
    ensures (data.response.Some? && |data.response.value| > 0 &&
             data.response.value[0].bookmakers == []) ==> ExtractionScan(data) == Scan(NoOdds, false)
  {
  }

  // ---------------------------------------------------------------------
  // The alert decision

  /** An alert entry: the market's name and the edge rounded to 4 decimals
      (whether the message was delivered is not modelled). */
  datatype Alert = Alert(market: string, edge: real)

  /** The markets in the key order of the extracted-odds record. */
  const AlertMarkets: seq<Market> := [OverHalfHt, OverOneHalfFt]

  /** Python truthiness of an optional odd: None and 0.0 are false. */
  predicate Truthy(odd: Option<real>)
  {
    odd.Some? && odd.value != 0.0
  }

  function PMin(probs: Model.GameProbs, m: Market): real
  {
    match m
    case OverHalfHt => probs.over05Ht.pMin
    case OverOneHalfFt => probs.over15Ft.pMin
  }

  /** The model's conservative probability minus the market's implied one. */
  function Edge(pMin: real, odd: real): (e: real)
    ensures odd > 1.0 ==> e + OddsToProbability(odd) == pMin && e > pMin - 1.0 && e < pMin
    ensures odd <= 1.0 ==> e == pMin
  {
    pMin - OddsToProbability(odd)
  }

  /** Rounds to 4 decimal places, halves to even, as Python's `round(x, 4)`
      does on an exactly representable value. The result is a multiple of
      1/10000 within half a unit of the input. */
  function Round4(x: real): (r: real)
    ensures -0.00005 <= r - x <= 0.00005
    ensures (r * 10000.0).Floor as real == r * 10000.0
    ensures r - x == 0.00005 || x - r == 0.00005 ==> (r * 10000.0).Floor % 2 == 0
  {
    var y := x * 10000.0;
    var f := y.Floor;
    var n := if y - f as real < 0.5 then f
             else if y - f as real > 0.5 then f + 1
             else if f % 2 == 0 then f else f + 1;
    assert -0.5 <= n as real - y <= 0.5;
    Scale4(n, x);
    n as real / 10000.0
  }

  /** Dividing an integer n within half a unit of 10000 * x by 10000 lands
      within half of the fourth decimal of x, on an exact multiple. */
  lemma Scale4(n: int, x: real)
    requires -0.5 <= n as real - x * 10000.0 <= 0.5
    ensures -0.00005 <= n as real / 10000.0 - x <= 0.00005
    ensures ((n as real / 10000.0) * 10000.0).Floor as real == (n as real / 10000.0) * 10000.0
  {
    var r := n as real / 10000.0;
    assert r * 10000.0 == n as real;
    assert (r - x) * 10000.0 == n as real - x * 10000.0;
  }

  /** The three properties of Round4 pin its result down: any multiple of
      1/10000 within half a unit of x, taking the even multiple on a tie, is
      Round4(x). */
  lemma Round4Unique(x: real, y: real)
    requires (y * 10000.0).Floor as real == y * 10000.0
    requires -0.00005 <= y - x <= 0.00005
    requires y - x == 0.00005 || x - y == 0.00005 ==> (y * 10000.0).Floor % 2 == 0
    ensures y == Round4(x)
  {
    var r := Round4(x);
    var n := (y * 10000.0).Floor;
    var k := (r * 10000.0).Floor;
    assert -0.5 <= n as real - x * 10000.0 <= 0.5;
    assert -0.5 <= k as real - x * 10000.0 <= 0.5;
    assert n == k;
    assert y == n as real / 10000.0 && r == k as real / 10000.0;
  }

  /** The entry one market contributes: nothing when its odd is falsy, and an
      alert exactly when the edge reaches the threshold. The recorded edge is
      the edge rounded to 4 decimals: a multiple of 1/10000 within half a unit,
      ties going to the even multiple. */
  function AlertFor(probs: Model.GameProbs, odds: ExtractedOdds, minEdge: real, m: Market): (r: seq<Alert>)
    ensures |r| <= 1
    ensures |r| == 1 <==> Truthy(odds.Get(m)) && Edge(PMin(probs, m), odds.Get(m).value) >= minEdge
    ensures |r| == 1 ==> r[0].market == MarketName(m) &&
                         -0.00005 <= r[0].edge - Edge(PMin(probs, m), odds.Get(m).value) <= 0.00005
    ensures |r| == 1 ==> (r[0].edge * 10000.0).Floor as real == r[0].edge * 10000.0
    ensures |r| == 1 ==> var e := Edge(PMin(probs, m), odds.Get(m).value);
                         (r[0].edge - e == 0.00005 || e - r[0].edge == 0.00005) ==>
                           (r[0].edge * 10000.0).Floor % 2 == 0
  {
    var odd := odds.Get(m);
    if !Truthy(odd) then []
    else
      var edge := Edge(PMin(probs, m), odd.value);
      if edge >= minEdge then [Alert(MarketName(m), Round4(edge))] else []
  }

  /** The entries of the markets ms, in order. */
  function AlertsOver(probs: Model.GameProbs, odds: ExtractedOdds, minEdge: real, ms: seq<Market>): seq<Alert>
  {
    if |ms| == 0 then []
    else AlertsOver(probs, odds, minEdge, ms[..|ms| - 1]) + AlertFor(probs, odds, minEdge, ms[|ms| - 1])
  }

  /** The alert loop of the prediction endpoint, with the threshold as a
      parameter: half-time first, then full-time, and nothing when alerts
      are switched off. */
  method DecideAlerts(probs: Model.GameProbs, realOdds: ExtractedOdds, minEdge: real, sendAlert: bool)
    returns (alerts: seq<Alert>)
    ensures alerts == if sendAlert then AlertFor(probs, realOdds, minEdge, OverHalfHt) +
                                        AlertFor(probs, realOdds, minEdge, OverOneHalfFt)
                      else []
  {
    alerts := [];
    if sendAlert {
      for i := 0 to |AlertMarkets|
        invariant alerts == AlertsOver(probs, realOdds, minEdge, AlertMarkets[..i])
      {
        var marketKey := AlertMarkets[i];
        assert AlertMarkets[..i + 1][..i] == AlertMarkets[..i];
        var odd := realOdds.Get(marketKey);
        if odd.Some? && odd.value != 0.0 {
          var pMarket := OddsToProbability(odd.value);
          var pMin := PMin(probs, marketKey);
          var edge := pMin - pMarket;
          if edge >= minEdge {
            alerts := alerts + [Alert(MarketName(marketKey), Round4(edge))];
          }
        }
      }
      assert AlertMarkets[..2] == AlertMarkets;
      assert AlertMarkets[..1] == [OverHalfHt];
      assert AlertMarkets[..0] == [];
    }
  }

  /** A market appears among the alerts exactly when alerts are on, its odd
      is truthy, and its edge reaches the threshold; each alert records the
      edge to within half of the fourth decimal. */
  lemma AlertIffEdge(probs: Model.GameProbs, odds: ExtractedOdds, minEdge: real, sendAlert: bool, m: Market)
    ensures var alerts := if sendAlert then AlertFor(probs, odds, minEdge, OverHalfHt) +
                                            AlertFor(probs, odds, minEdge, OverOneHalfFt)
                          else [];
            (exists a :: a in alerts && a.market == MarketName(m)) <==>
              sendAlert && Truthy(odds.Get(m)) && Edge(PMin(probs, m), odds.Get(m).value) >= minEdge
    ensures var alerts := if sendAlert then AlertFor(probs, odds, minEdge, OverHalfHt) +
                                            AlertFor(probs, odds, minEdge, OverOneHalfFt)
                          else [];
            forall a :: a in alerts && a.market == MarketName(m) ==>
              -0.00005 <= a.edge - Edge(PMin(probs, m), odds.Get(m).value) <= 0.00005
  {
    var ht := AlertFor(probs, odds, minEdge, OverHalfHt);
    var ft := AlertFor(probs, odds, minEdge, OverOneHalfFt);
    assert MarketName(OverHalfHt) != MarketName(OverOneHalfFt);
    if sendAlert && Truthy(odds.Get(m)) && Edge(PMin(probs, m), odds.Get(m).value) >= minEdge {
      var a := Alert(MarketName(m), Round4(Edge(PMin(probs, m), odds.Get(m).value)));
      assert a in ht + ft;
    }
  }

  /** At most two alerts, and when both markets fire the half-time one comes
      first. */
  lemma AlertsInMarketOrder(probs: Model.GameProbs, odds: ExtractedOdds, minEdge: real)
    ensures var alerts := AlertFor(probs, odds, minEdge, OverHalfHt) +
                          AlertFor(probs, odds, minEdge, OverOneHalfFt);
            |alerts| <= 2 &&
            (|alerts| == 2 ==> alerts[0].market == "Over 0.5 HT" && alerts[1].market == "Over 1.5 FT")
  {
  }

  /** An odd that is present, non-zero and at most 1.0 carries no implied
      probability, so the edge is the whole of p_min and the market alerts
      whenever p_min alone reaches the threshold. */
  lemma UnusableOddAlertsOnPMin(probs: Model.GameProbs, odds: ExtractedOdds, minEdge: real, m: Market)
    requires Truthy(odds.Get(m)) && odds.Get(m).value <= 1.0
    ensures |AlertFor(probs, odds, minEdge, m)| == 1 <==> PMin(probs, m) >= minEdge
  {
  }

  /** p_min 0.70 against an odd of 2.0 (implied 0.5) with threshold 0.05:
      edge 0.20, and the half-time alert fires. */
  lemma AlertExample(probs: Model.GameProbs)
    requires probs.over05Ht.pMin == 0.7
    ensures AlertFor(probs, ExtractedOdds(Some(2.0), None), 0.05, OverHalfHt) == [Alert("Over 0.5 HT", 0.2)]
    ensures AlertFor(probs, ExtractedOdds(Some(2.0), None), 0.05, OverOneHalfFt) == []
  {
    assert OddsToProbability(2.0) == 0.5;
    assert Edge(0.7, 2.0) == 0.2;
    assert (0.2 * 10000.0).Floor == 2000;
  }
}
