/** Worked examples of the statistics: a January with one losing wager of
    Real Madrid against Barcelona in La Liga, then a second, winning wager
    of the same competition, and the zero-profit tie-break. */
module Scenarios {
  import opened Wagers
  import opened Aggregation

  /** 5 January 2024 as a day number (proleptic Gregorian ordinal). */
  const FifthOfJanuary: Date := 738890

  const FirstWager := NewWager(FifthOfJanuary, "La Liga", "Real Madrid", "Barcelona",
                               "Value Bet", "Normal", 10.0, -10.0)
  const SecondWager := NewWager(FifthOfJanuary, "La Liga", "Sevilla", "Valencia",
                                "Value Bet", "Normal", 5.0, 5.0)

  /** A ledger whose only non-empty month is January. */
  function JanuaryOnly(ws: seq<Wager>): (ms: seq<seq<Wager>>)
    ensures |ms| == MonthCount && ms[0] == ws
    ensures forall k :: 1 <= k < |ms| ==> ms[k] == []
  {
    [ws] + seq(MonthCount - 1, k => [])
  }

  /** When every month after the first is empty, the matching wagers are
      those of the first month. */
  lemma {:induction false} MatchingOnlyFirst(ms: seq<seq<Wager>>, f: Filter)
    requires |ms| >= 1 && forall k :: 1 <= k < |ms| ==> ms[k] == []
    ensures Matching(ms, f) == Select(ms[0], f)
  {
    if |ms| > 1 {
      var init := ms[..|ms| - 1];
      MatchingOnlyFirst(init, f);
      assert Select(ms[|ms| - 1], f) == [];
    } else {
      assert ms[..0] == [];
    }
  }

  lemma FirstWagerFacts()
    ensures FirstWager.stakePercent == -100.0
    ensures SecondWager.stakePercent == 100.0
  {
  }

  /** One losing wager: one market, no green, one red, the stake and the
      loss, and an ROI of -100 %. */
  lemma OneLossTeamStats()
    ensures StatsOf(JanuaryOnly([FirstWager]), Filter(ByTeam, "Real Madrid"))
         == Stats(1, 0, 1, 10.0, -10.0, -100.0)
  {
    var f := Filter(ByTeam, "Real Madrid");
    var ws := [FirstWager];
    MatchingOnlyFirst(JanuaryOnly(ws), f);
    assert Select(ws, f) == ws;
    assert ws[1..] == [];
    assert FirstWager.stake == 10.0 && FirstWager.profitLoss == -10.0;
    assert StakeSum(ws) == FirstWager.stake + StakeSum(ws[1..]);
    assert ProfitSum(ws) == FirstWager.profitLoss + ProfitSum(ws[1..]);
    assert RoiIfPositive(-10.0, 10.0) == -100.0;
  }

  /** With a second, winning wager of the same competition: two games, one
      green, one red, stake 15, profit -5, and an ROI of -100/3 %. */
  lemma TwoGamesChampionshipStats()
    ensures StatsOf(JanuaryOnly([FirstWager, SecondWager]), Filter(ByChampionship, "La Liga"))
         == Stats(2, 1, 1, 15.0, -5.0, -100.0 / 3.0)
  {
    var f := Filter(ByChampionship, "La Liga");
    var ws := [FirstWager, SecondWager];
    MatchingOnlyFirst(JanuaryOnly(ws), f);
    assert Select(ws, f) == ws by {
      assert ws[1..] == [SecondWager];
    }
    var tail := ws[1..];
    assert tail == [SecondWager] && tail[1..] == [];
    assert FirstWager.stake == 10.0 && FirstWager.profitLoss == -10.0;
    assert SecondWager.stake == 5.0 && SecondWager.profitLoss == 5.0;
    assert StakeSum(tail) == 5.0 + StakeSum(tail[1..]);
    assert ProfitSum(tail) == 5.0 + ProfitSum(tail[1..]);
    assert GreenCount(tail) == 1 + GreenCount(tail[1..]);
    assert RedCount(tail) == RedCount(tail[1..]);
    assert StakeSum(ws) == 10.0 + StakeSum(tail);
    assert ProfitSum(ws) == -10.0 + ProfitSum(tail);
    assert GreenCount(ws) == GreenCount(tail);
    assert RedCount(ws) == 1 + RedCount(tail);
    assert RoiIfPositive(-5.0, 15.0) == -100.0 / 3.0;
  }

  /** A wager that breaks even counts as green. */
  lemma BreakEvenIsGreen(w: Wager, f: Filter)
    requires Selects(f, w) && w.profitLoss == 0.0
    ensures StatsOf(JanuaryOnly([w]), f).greens == 1
    ensures StatsOf(JanuaryOnly([w]), f).reds == 0
  {
    MatchingOnlyFirst(JanuaryOnly([w]), f);
    assert Select([w], f) == [w];
    assert [w][1..] == [];
  }
}
