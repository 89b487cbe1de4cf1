/** The statistics engine: side-effect-free scans of the twelve month
    tables that count and sum the wagers matching a team, a championship,
    a strategy or a tag. */
module Aggregation {
  import opened Wagers
  import opened Seqs

  /** What a statistic slices the ledger by. */
  datatype Dimension = ByTeam | ByChampionship | ByStrategy | ByTag

  /** A slice: a dimension and the name that selects wagers in it. */
  datatype Filter = Filter(dim: Dimension, name: string)

  /** The row mask of each slice: a team matches as home or away side, the
      other names match their own column exactly. */
  predicate Selects(f: Filter, w: Wager) {
    match f.dim
    case ByTeam => w.home == f.name || w.away == f.name
    case ByChampionship => w.competition == f.name
    case ByStrategy => w.strategy == f.name
    case ByTag => w.tag == f.name
  }

  /** A green wager made no loss; a zero result is green, not a push. */
  predicate IsGreen(w: Wager) {
    w.profitLoss >= 0.0
  }

  /** The rows of one month table that the mask keeps, in table order. */
  function Select(ws: seq<Wager>, f: Filter): (r: seq<Wager>)
    ensures |r| <= |ws|
    ensures forall i :: 0 <= i < |r| ==> Selects(f, r[i]) && r[i] in ws
    ensures forall i :: 0 <= i < |ws| && Selects(f, ws[i]) ==> ws[i] in r
  {
    if ws == [] then []
    else (if Selects(f, ws[0]) then [ws[0]] else []) + Select(ws[1..], f)
  }

  /** Column sums and mask counts of a set of rows. */
  /** The Stake column summed. */
  function StakeSum(ws: seq<Wager>): real {
    if ws == [] then 0.0 else ws[0].stake + StakeSum(ws[1..])
  }

  /** The Profit/Loss column summed. */
  function ProfitSum(ws: seq<Wager>): real {
    if ws == [] then 0.0 else ws[0].profitLoss + ProfitSum(ws[1..])
  }

  /** The green rows: at most all of them. */
  function GreenCount(ws: seq<Wager>): (r: nat)
    ensures r <= |ws|
  {
    if ws == [] then 0 else (if IsGreen(ws[0]) then 1 else 0) + GreenCount(ws[1..])
  }

  /** The red rows: at most all of them. */
  function RedCount(ws: seq<Wager>): (r: nat)
    ensures r <= |ws|
  {
    if ws == [] then 0 else (if ws[0].profitLoss < 0.0 then 1 else 0) + RedCount(ws[1..])
  }

  /** Stakes that are never negative sum to a total that is not. */
  lemma {:induction false} StakeSumNonNegative(ws: seq<Wager>)
    requires forall i :: 0 <= i < |ws| ==> ws[i].stake >= 0.0
    ensures StakeSum(ws) >= 0.0
  {
    if ws != [] {
      assert forall i :: 0 <= i < |ws| - 1 ==> ws[1..][i] == ws[i + 1];
      StakeSumNonNegative(ws[1..]);
    }
  }

  /** Rows that are all green show no loss; rows that are all red, and at
      least one, show a loss. */
  lemma {:induction false} ProfitSumSign(ws: seq<Wager>)
    ensures GreenCount(ws) == |ws| ==> ProfitSum(ws) >= 0.0
    ensures ws != [] && RedCount(ws) == |ws| ==> ProfitSum(ws) < 0.0
  {
    if ws != [] {
      ProfitSumSign(ws[1..]);
    }
  }

  /** Greens (profit >= 0) and reds (profit < 0) partition any rows. */
  lemma {:induction false} GreensRedsPartition(ws: seq<Wager>)
    ensures GreenCount(ws) + RedCount(ws) == |ws|
  {
    if ws != [] {
      GreensRedsPartition(ws[1..]);
    }
  }

  /** Sums and counts of two tables stacked together are the sums of
      each. */
  lemma {:induction false} SumsOfConcat(a: seq<Wager>, b: seq<Wager>)
    ensures StakeSum(a + b) == StakeSum(a) + StakeSum(b)
    ensures ProfitSum(a + b) == ProfitSum(a) + ProfitSum(b)
    ensures GreenCount(a + b) == GreenCount(a) + GreenCount(b)
    ensures RedCount(a + b) == RedCount(a) + RedCount(b)
  {
    if a != [] {
      assert (a + b)[1..] == a[1..] + b;
      SumsOfConcat(a[1..], b);
    } else {
      assert a + b == b;
    }
  }

  /** A wager in the middle of a table adds its stake and profit to the
      sums of the rows around it. */
  lemma SumsAround(front: seq<Wager>, w: Wager, back: seq<Wager>)
    ensures StakeSum(front + [w] + back) == StakeSum(front + back) + w.stake
    ensures ProfitSum(front + [w] + back) == ProfitSum(front + back) + w.profitLoss
  {
    SumsOfConcat(front + [w], back);
    SumsOfConcat(front, [w]);
    SumsOfConcat(front, back);
    assert [w][1..] == [];
  }

  /** Deleting a wager takes its stake and profit out of the table's
      sums. */
  lemma RemovedSums(ws: seq<Wager>, i: nat)
    requires i < |ws|
    ensures StakeSum(RemoveAt(ws, i)) == StakeSum(ws) - ws[i].stake
    ensures ProfitSum(RemoveAt(ws, i)) == ProfitSum(ws) - ws[i].profitLoss
  {
    var front, back := ws[..i], ws[i + 1..];
    assert RemoveAt(ws, i) == front + back;
    assert StakeSum(ws) == StakeSum(front + back) + ws[i].stake
        && ProfitSum(ws) == ProfitSum(front + back) + ws[i].profitLoss by {
      assert ws == front + [ws[i]] + back;
      SumsAround(front, ws[i], back);
    }
  }

  /** Editing a wager swaps its stake and profit in the table's sums for
      the new ones. */
  lemma ReplacedSums(ws: seq<Wager>, i: nat, w: Wager)
    requires i < |ws|
    ensures StakeSum(ws[i := w]) == StakeSum(ws) - ws[i].stake + w.stake
    ensures ProfitSum(ws[i := w]) == ProfitSum(ws) - ws[i].profitLoss + w.profitLoss
  {
    var front, back := ws[..i], ws[i + 1..];
    assert ws == front + [ws[i]] + back;
    assert ws[i := w] == front + [w] + back;
    SumsAround(front, ws[i], back);
    SumsAround(front, w, back);
  }

  /** Filtering two stacked tables is stacking their filtered rows. */
  lemma {:induction false} SelectOfConcat(a: seq<Wager>, b: seq<Wager>, f: Filter)
    ensures Select(a + b, f) == Select(a, f) + Select(b, f)
  {
    if a != [] {
      assert (a + b)[1..] == a[1..] + b;
      SelectOfConcat(a[1..], b, f);
    } else {
      assert a + b == b;
    }
  }

  /** All wagers of the ledger matching `f`, month after month. */
  function Matching(ms: seq<seq<Wager>>, f: Filter): (r: seq<Wager>)
    ensures forall i :: 0 <= i < |r| ==> Selects(f, r[i])
  {
    if ms == [] then [] else Matching(ms[..|ms| - 1], f) + Select(ms[|ms| - 1], f)
  }

  /** The mask keeps every matching row of a table as often as it occurs
      there, and no other row. */
  lemma {:induction false} SelectCounts(ws: seq<Wager>, f: Filter)
    ensures forall x :: multiset(Select(ws, f))[x] == if Selects(f, x) then multiset(ws)[x] else 0
  {
    if ws != [] {
      SelectCounts(ws[1..], f);
      assert ws == [ws[0]] + ws[1..];
    }
  }

  /** Collecting month by month is masking all wagers of the ledger at
      once. */
  lemma {:induction false} MatchingIsSelectOfAll(ms: seq<seq<Wager>>, f: Filter)
    ensures Matching(ms, f) == Select(Flatten(ms), f)
  {
    if ms != [] {
      var init := ms[..|ms| - 1];
      MatchingIsSelectOfAll(init, f);
      SelectOfConcat(Flatten(init), ms[|ms| - 1], f);
    }
  }

  /** A slice collects every matching wager of the ledger as often as it
      occurs there, and no other wager; so its market count is the number
      of matching wagers. */
  lemma MatchingCounts(ms: seq<seq<Wager>>, f: Filter)
    ensures forall x :: multiset(Matching(ms, f))[x]
                     == if Selects(f, x) then multiset(Flatten(ms))[x] else 0
  {
    MatchingIsSelectOfAll(ms, f);
    SelectCounts(Flatten(ms), f);
  }

  /** The ROI guard of each slice: team and championship figures divide
      only by a positive stake total, strategy and tag figures by any
      non-zero one. */
  function Roi(dim: Dimension, profit: real, stake: real): (r: real)
    ensures (dim == ByTeam || dim == ByChampionship) && stake <= 0.0 ==> r == 0.0
    ensures (dim == ByStrategy || dim == ByTag) && stake == 0.0 ==> r == 0.0
  {
    if dim == ByTeam || dim == ByChampionship then RoiIfPositive(profit, stake)
    else PercentOf(profit, stake)
  }

  /** When the slice's guard lets the stake total divide, ROI times the
      stake is a hundred times the profit. */
  lemma RoiScales(dim: Dimension, profit: real, stake: real)
    requires DividesBy(dim, stake)
    ensures Roi(dim, profit, stake) * stake == profit * 100.0
  {
    if dim == ByTeam || dim == ByChampionship {
      RoiIfPositiveScales(profit, stake);
    } else {
      PercentOfScales(profit, stake);
    }
  }

  /** Whether the ROI guard of the slice lets the stake total divide. */
  predicate DividesBy(dim: Dimension, stake: real) {
    if dim == ByTeam || dim == ByChampionship then stake > 0.0 else stake != 0.0
  }

  /** The figures reported for one slice: markets (matching wagers),
      greens, reds, stake total, profit total and ROI in percent. */
  datatype Stats = Stats(markets: nat, greens: nat, reds: nat,
                         stake: real, profit: real, roi: real)

  /** The statistics of a slice are the figures of its matching wagers.
      Greens and reds always add up to the markets, and a zero stake total
      never divides. */
  function StatsOf(ms: seq<seq<Wager>>, f: Filter): (s: Stats)
    ensures s.greens + s.reds == s.markets
    ensures !DividesBy(f.dim, s.stake) ==> s.roi == 0.0
  {
    var m := Matching(ms, f);
    GreensRedsPartition(m);
    Stats(|m|, GreenCount(m), RedCount(m), StakeSum(m), ProfitSum(m),
          Roi(f.dim, ProfitSum(m), StakeSum(m)))
  }

  /** When the slice's guard lets its stake total divide, the reported ROI
      times the stake total is a hundred times the profit total. */
  lemma StatsOfRoi(ms: seq<seq<Wager>>, f: Filter)
    requires DividesBy(f.dim, StatsOf(ms, f).stake)
    ensures StatsOf(ms, f).roi * StatsOf(ms, f).stake == StatsOf(ms, f).profit * 100.0
  {
    var m := Matching(ms, f);
    RoiScales(f.dim, ProfitSum(m), StakeSum(m));
  }

  /** The empty figures of a slice no wager matches. */
  const NoStats := Stats(0, 0, 0, 0.0, 0.0, 0.0)

  /** Scans the months one by one, adding the figures of the matching
      wagers of every month where some wager matches, then applies the
      slice's ROI guard. */
  method CollectStats(months: seq<seq<Wager>>, f: Filter) returns (s: Stats)
    ensures s == StatsOf(months, f)
  {
    var markets: nat, greens: nat, reds: nat := 0, 0, 0;
    var stake, profit := 0.0, 0.0;
    for k := 0 to |months|
      invariant markets == |Matching(months[..k], f)|
      invariant greens == GreenCount(Matching(months[..k], f))
      invariant reds == RedCount(Matching(months[..k], f))
      invariant stake == StakeSum(Matching(months[..k], f))
      invariant profit == ProfitSum(Matching(months[..k], f))
    {
      var picked := Select(months[k], f);
      ghost var seen := Matching(months[..k], f);
      assert months[..k + 1][..k] == months[..k];
      assert Matching(months[..k + 1], f) == seen + picked;
      SumsOfConcat(seen, picked);
      if picked != [] {
        markets := markets + |picked|;
        stake := stake + StakeSum(picked);
        profit := profit + ProfitSum(picked);
        greens := greens + GreenCount(picked);
        reds := reds + RedCount(picked);
      } else {
        assert seen + picked == seen;
      }
    }
    assert months[..|months|] == months;
    s := Stats(markets, greens, reds, stake, profit, Roi(f.dim, profit, stake));
  }

  /** One row of a statistics table: the name and its figures. */
  datatype NamedStats = NamedStats(name: string, stats: Stats)

  /** The name column of a statistics table. */
  function RowNames(rows: seq<NamedStats>): seq<string> {
    seq(|rows|, i requires 0 <= i < |rows| => rows[i].name)
  }

  /** The statistics of every name of a list, in list order. */
  method StatsTable(months: seq<seq<Wager>>, dim: Dimension, names: seq<string>)
    returns (rows: seq<NamedStats>)
    ensures |rows| == |names|
    ensures forall i :: 0 <= i < |names| ==>
              rows[i] == NamedStats(names[i], StatsOf(months, Filter(dim, names[i])))
  {
    rows := [];
    for i := 0 to |names|
      invariant |rows| == i
      invariant forall j :: 0 <= j < i ==>
                  rows[j] == NamedStats(names[j], StatsOf(months, Filter(dim, names[j])))
    {
      var s := CollectStats(months, Filter(dim, names[i]));
      rows := rows + [NamedStats(names[i], s)];
    }
  }

  /** The strategy table: one row per distinct strategy name, in order of
      first appearance in the registry (the registry may hold a name twice
      after a rename). */
  method StrategyTable(months: seq<seq<Wager>>, strategies: seq<Strategy>)
    returns (rows: seq<NamedStats>)
    ensures NoDup(RowNames(rows))
    ensures forall i :: 0 <= i < |strategies| ==>
              NamedStats(strategies[i].name, StatsOf(months, Filter(ByStrategy, strategies[i].name))) in rows
    ensures forall i :: 0 <= i < |rows| ==>
              rows[i].name in StrategyNames(strategies)
              && rows[i].stats == StatsOf(months, Filter(ByStrategy, rows[i].name))
    ensures forall i, j :: 0 <= i < j < |rows| ==>
              FirstIndex(StrategyNames(strategies), rows[i].name)
              < FirstIndex(StrategyNames(strategies), rows[j].name)
  {
    var all := StrategyNames(strategies);
    var names := Distinct(all);
    rows := StatsTable(months, ByStrategy, names);
    forall i | 0 <= i < |strategies|
      ensures NamedStats(strategies[i].name, StatsOf(months, Filter(ByStrategy, strategies[i].name))) in rows
    {
      assert all[i] in names;
      var j :| 0 <= j < |names| && names[j] == all[i];
      assert rows[j] == NamedStats(strategies[i].name, StatsOf(months, Filter(ByStrategy, strategies[i].name)));
    }
    assert RowNames(rows) == names;
    DistinctInFirstOrder(all);
    assert forall i :: 0 <= i < |rows| ==> rows[i].name == names[i];
  }

  /** The tag table: one row per entry of the tag list, in list order. */
  method TagTable(months: seq<seq<Wager>>, tags: seq<string>)
    returns (rows: seq<NamedStats>)
    ensures |rows| == |tags|
    ensures forall i :: 0 <= i < |tags| ==>
              rows[i].name == tags[i] && rows[i].stats == StatsOf(months, Filter(ByTag, tags[i]))
  {
    rows := StatsTable(months, ByTag, tags);
  }

  /** Every month's wagers have positive stakes, as the entry forms
      enforce. */
  predicate PositiveStakes(ms: seq<seq<Wager>>) {
    forall k, i :: 0 <= k < |ms| && 0 <= i < |ms[k]| ==> ms[k][i].stake > 0.0
  }

  lemma {:induction false} MatchingPositive(ms: seq<seq<Wager>>, f: Filter)
    requires PositiveStakes(ms)
    ensures forall i :: 0 <= i < |Matching(ms, f)| ==> Matching(ms, f)[i].stake > 0.0
  {
    if ms != [] {
      var init := ms[..|ms| - 1];
      assert PositiveStakes(init);
      MatchingPositive(init, f);
      var picked := Select(ms[|ms| - 1], f);
      assert forall i :: 0 <= i < |picked| ==> picked[i].stake > 0.0;
    }
  }

  lemma {:induction false} StakeSumPositive(ws: seq<Wager>)
    requires forall i :: 0 <= i < |ws| ==> ws[i].stake > 0.0
    ensures ws != [] <==> StakeSum(ws) > 0.0
    ensures ws == [] ==> StakeSum(ws) == 0.0
  {
    if ws != [] {
      StakeSumPositive(ws[1..]);
    }
  }

  /** With positive stakes the two ROI guards cannot be told apart: the
      stake total of a slice is positive exactly when some wager matches,
      and zero otherwise, so `> 0` and `!= 0` pick the same branch. */
  lemma GuardsAgreeOnPositiveStakes(ms: seq<seq<Wager>>, f: Filter)
    requires PositiveStakes(ms)
    ensures StatsOf(ms, f).stake > 0.0 <==> StatsOf(ms, f).markets > 0
    ensures RoiIfPositive(StatsOf(ms, f).profit, StatsOf(ms, f).stake)
         == PercentOf(StatsOf(ms, f).profit, StatsOf(ms, f).stake)
  {
    MatchingPositive(ms, f);
    StakeSumPositive(Matching(ms, f));
  }
}
