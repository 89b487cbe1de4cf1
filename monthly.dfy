/** The monthly performance table of the main panel: one row per non-empty
    month, in calendar order, followed by a synthetic TOTAL row. */
module Monthly {
  import opened Wagers
  import opened Aggregation

  /** One row of the table: Mês, Stake Total, Profit Total and ROI (%). */
  datatype PerfRow = PerfRow(month: string, stake: real, profit: real, roi: real)

  /** The row of one month: its sums, with the ROI guarded by a non-zero
      stake. */
  function MonthRow(name: string, ws: seq<Wager>): (r: PerfRow)
    ensures r.month == name
    ensures r.stake == 0.0 ==> r.roi == 0.0
    ensures r.stake != 0.0 ==> r.roi * r.stake == r.profit * 100.0
  {
    assert StakeSum(ws) != 0.0 ==> PercentOf(ProfitSum(ws), StakeSum(ws)) * StakeSum(ws) == ProfitSum(ws) * 100.0 by {
      if StakeSum(ws) != 0.0 { PercentOfScales(ProfitSum(ws), StakeSum(ws)); }
    }
    PerfRow(name, StakeSum(ws), ProfitSum(ws), PercentOf(ProfitSum(ws), StakeSum(ws)))
  }

  /** The rows of the non-empty months among the first `|ms|`. */
  function MonthRows(ms: seq<seq<Wager>>): (r: seq<PerfRow>)
    requires |ms| <= MonthCount
    ensures |r| <= |ms|
  {
    if ms == [] then []
    else
      var n := |ms| - 1;
      MonthRows(ms[..n]) + (if ms[n] != [] then [MonthRow(MonthNames[n], ms[n])] else [])
  }

  /** The TOTAL row: the sums over every wager, same ROI guard. */
  function TotalRow(ms: seq<seq<Wager>>): (r: PerfRow)
    ensures r.month == TotalLabel
    ensures r.stake == 0.0 ==> r.roi == 0.0
    ensures r.stake != 0.0 ==> r.roi * r.stake == r.profit * 100.0
  {
    var all := Flatten(ms);
    assert StakeSum(all) != 0.0 ==> PercentOf(ProfitSum(all), StakeSum(all)) * StakeSum(all) == ProfitSum(all) * 100.0 by {
      if StakeSum(all) != 0.0 { PercentOfScales(ProfitSum(all), StakeSum(all)); }
    }
    PerfRow(TotalLabel, StakeSum(all), ProfitSum(all), PercentOf(ProfitSum(all), StakeSum(all)))
  }

  /** The performance table: a row per month worked, then TOTAL. */
  function PerformanceTable(ms: seq<seq<Wager>>): (r: seq<PerfRow>)
    requires |ms| <= MonthCount
    ensures 1 <= |r| <= |ms| + 1
    ensures r[|r| - 1].month == TotalLabel
  {
    MonthRows(ms) + [TotalRow(ms)]
  }

  /** Stake and profit columns summed over some rows. */
  function RowStakes(rows: seq<PerfRow>): real {
    if rows == [] then 0.0 else RowStakes(rows[..|rows| - 1]) + rows[|rows| - 1].stake
  }

  function RowProfits(rows: seq<PerfRow>): real {
    if rows == [] then 0.0 else RowProfits(rows[..|rows| - 1]) + rows[|rows| - 1].profit
  }

  /** The months that have at least one wager. */
  function NonEmptyMonths(ms: seq<seq<Wager>>): set<nat> {
    set k: nat | k < |ms| && ms[k] != []
  }

  /** `row` is the row of some non-empty month of `ms`, under its name. */
  predicate IsMonthRow(ms: seq<seq<Wager>>, row: PerfRow)
    requires |ms| <= MonthCount
  {
    exists k :: 0 <= k < |ms| && ms[k] != [] && row == MonthRow(MonthNames[k], ms[k])
  }

  /** There is one month row per non-empty month. */
  lemma {:induction false} MonthRowsCount(ms: seq<seq<Wager>>)
    requires |ms| <= MonthCount
    ensures |MonthRows(ms)| == |NonEmptyMonths(ms)|
  {
    if ms != [] {
      var n := |ms| - 1;
      var init := ms[..n];
      MonthRowsCount(init);
      NonEmptyMonthsSnoc(ms);
    }
  }

  /** The non-empty months of `ms` are those of all but its last month,
      plus the last one when it is non-empty. */
  lemma NonEmptyMonthsSnoc(ms: seq<seq<Wager>>)
    requires ms != []
    ensures var n := |ms| - 1;
      && n !in NonEmptyMonths(ms[..n])
      && NonEmptyMonths(ms) == NonEmptyMonths(ms[..n]) + (if ms[n] != [] then {n} else {})
  {
    var n := |ms| - 1;
    var init := ms[..n];
    forall k: nat
      ensures k in NonEmptyMonths(ms) <==> k in NonEmptyMonths(init) + (if ms[n] != [] then {n} else {})
    {
      if k < n {
        assert init[k] == ms[k];
      }
    }
  }

  /** The row of a non-empty month comes right after the rows of the
      non-empty months before it; with the count this fixes the table: one
      row per non-empty month, in calendar order. */
  lemma {:induction false} MonthRowAt(ms: seq<seq<Wager>>, k: nat)
    requires |ms| <= MonthCount && k < |ms| && ms[k] != []
    ensures |NonEmptyMonths(ms[..k])| < |MonthRows(ms)|
    ensures MonthRows(ms)[|NonEmptyMonths(ms[..k])|] == MonthRow(MonthNames[k], ms[k])
  {
    var n := |ms| - 1;
    var init := ms[..n];
    if k == n {
      assert ms[..k] == init;
      MonthRowsCount(init);
    } else {
      assert init[..k] == ms[..k];
      MonthRowAt(init, k);
    }
  }

  /** Every month row is the row of a non-empty month, under that
      month's name. */
  lemma {:induction false} MonthRowsAreMonths(ms: seq<seq<Wager>>)
    requires |ms| <= MonthCount
    ensures forall i :: 0 <= i < |MonthRows(ms)| ==>
              IsMonthRow(ms, MonthRows(ms)[i])
  {
    if ms != [] {
      var n := |ms| - 1;
      var init := ms[..n];
      MonthRowsAreMonths(init);
      var rows := MonthRows(init);
      forall i | 0 <= i < |rows|
        ensures IsMonthRow(ms, rows[i])
      {
        var k :| 0 <= k < |init| && init[k] != [] && rows[i] == MonthRow(MonthNames[k], init[k]);
        assert ms[k] == init[k];
        assert IsMonthRow(ms, rows[i]);
      }
      var all := MonthRows(ms);
      forall i | 0 <= i < |all|
        ensures IsMonthRow(ms, all[i])
      {
        if i < |rows| {
          assert all[i] == rows[i];
        } else {
          assert ms[n] != [] && all[i] == MonthRow(MonthNames[n], ms[n]);
          assert IsMonthRow(ms, all[i]);
        }
      }
    }
  }

  /** The stakes and profits of the month rows add up to the sums over
      the whole ledger. */
  lemma {:induction false} MonthRowsSums(ms: seq<seq<Wager>>)
    requires |ms| <= MonthCount
    ensures RowStakes(MonthRows(ms)) == StakeSum(Flatten(ms))
    ensures RowProfits(MonthRows(ms)) == ProfitSum(Flatten(ms))
  {
    if ms != [] {
      var n := |ms| - 1;
      var init := ms[..n];
      MonthRowsSums(init);
      SumsOfConcat(Flatten(init), ms[n]);
      var rows := MonthRows(init);
      if ms[n] != [] {
        var row := MonthRow(MonthNames[n], ms[n]);
        assert (rows + [row])[..|rows|] == rows;
      } else {
        assert rows + [] == rows;
      }
    }
  }

  /** No month is called TOTAL, so the synthetic row cannot be mistaken
      for a month. */
  lemma NoMonthIsTotal()
    ensures forall k :: 0 <= k < |MonthNames| ==> MonthNames[k] != TotalLabel
  {
  }

  /** The TOTAL row is present even for an empty ledger, comes last and
      only last, and its stake and profit are the sums of the stake and
      profit of the rows before it. */
  lemma TotalRowFacts(ms: seq<seq<Wager>>)
    requires |ms| <= MonthCount
    ensures var t := PerformanceTable(ms);
      && |t| == |NonEmptyMonths(ms)| + 1
      && t[|t| - 1].month == TotalLabel
      && (forall i :: 0 <= i < |t| - 1 ==> t[i].month != TotalLabel)
      && t[|t| - 1].stake == RowStakes(t[..|t| - 1])
      && t[|t| - 1].profit == RowProfits(t[..|t| - 1])
      && t[|t| - 1].roi == PercentOf(RowProfits(t[..|t| - 1]), RowStakes(t[..|t| - 1]))
  {
    MonthRowsCount(ms);
    MonthRowsAreMonths(ms);
    MonthRowsSums(ms);
    NoMonthIsTotal();
    var t := PerformanceTable(ms);
    assert t[..|t| - 1] == MonthRows(ms);
    forall i | 0 <= i < |t| - 1 ensures t[i].month != TotalLabel {
      assert IsMonthRow(ms, MonthRows(ms)[i]);
      var k :| 0 <= k < |ms| && ms[k] != [] && MonthRows(ms)[i] == MonthRow(MonthNames[k], ms[k]);
    }
  }

  /** One more month adds its row, when it has wagers, and its sums. */
  lemma MonthStep(ms: seq<seq<Wager>>, k: nat)
    requires k < |ms| <= MonthCount
    ensures MonthRows(ms[..k + 1])
         == MonthRows(ms[..k]) + (if ms[k] != [] then [MonthRow(MonthNames[k], ms[k])] else [])
    ensures StakeSum(Flatten(ms[..k + 1])) == StakeSum(Flatten(ms[..k])) + StakeSum(ms[k])
    ensures ProfitSum(Flatten(ms[..k + 1])) == ProfitSum(Flatten(ms[..k])) + ProfitSum(ms[k])
  {
    var seen, upTo := ms[..k], ms[..k + 1];
    assert upTo[..k] == seen && upTo[k] == ms[k];
    SumsOfConcat(Flatten(seen), ms[k]);
  }

  /** Builds the table as the panel does: walks the months in order,
      appends a row for each non-empty one while accumulating the totals,
      then appends the TOTAL row. */
  method MonthlyPerformance(months: seq<seq<Wager>>) returns (performance: seq<PerfRow>)
    requires |months| <= MonthCount
    ensures performance == PerformanceTable(months)
  {
    performance := [];
    var totalStake, totalProfit := 0.0, 0.0;
    for k := 0 to |months|
      invariant performance == MonthRows(months[..k])
      invariant totalStake == StakeSum(Flatten(months[..k]))
      invariant totalProfit == ProfitSum(Flatten(months[..k]))
    {
      MonthStep(months, k);
      if months[k] != [] {
        var stake := StakeSum(months[k]);
        var profit := ProfitSum(months[k]);
        var roi := PercentOf(profit, stake);
        performance := performance + [PerfRow(MonthNames[k], stake, profit, roi)];
        totalStake := totalStake + stake;
        totalProfit := totalProfit + profit;
      }
    }
    assert months[..|months|] == months;
    var totalRoi := PercentOf(totalProfit, totalStake);
    performance := performance + [PerfRow(TotalLabel, totalStake, totalProfit, totalRoi)];
  }

  /** Dates never increase along the sequence. */
  predicate NewestFirst(ws: seq<Wager>) {
    forall i, j :: 0 <= i < j < |ws| ==> ws[i].date >= ws[j].date
  }

  /** A wager no older than any of a newest-first sequence can go in
      front of it. */
  lemma NewestFirstCons(x: Wager, ws: seq<Wager>)
    requires NewestFirst(ws)
    requires forall i :: 0 <= i < |ws| ==> ws[i].date <= x.date
    ensures NewestFirst([x] + ws)
  {
    var r := [x] + ws;
    forall i, j | 0 <= i < j < |r| ensures r[i].date >= r[j].date {
      assert r[j] == ws[j - 1];
      if i > 0 {
        assert r[i] == ws[i - 1];
      }
    }
  }

  /** Puts a wager into a newest-first sequence, ahead of every wager of
      the same date. */
  function InsertByDate(w: Wager, ws: seq<Wager>): (r: seq<Wager>)
    ensures multiset(r) == multiset(ws) + multiset{w}
    ensures NewestFirst(ws) ==> NewestFirst(r)
  {
    if ws == [] || w.date >= ws[0].date then
      if NewestFirst(ws) then
        NewestFirstCons(w, ws);
        [w] + ws
      else [w] + ws
    else
      var rest := InsertByDate(w, ws[1..]);
      assert ws == [ws[0]] + ws[1..];
      if NewestFirst(ws) then
        NoNewerThanHead(w, ws, rest);
        NewestFirstCons(ws[0], rest);
        [ws[0]] + rest
      else [ws[0]] + rest
  }

  /** Inserting an older wager into the tail of a newest-first sequence
      keeps everything no newer than its head. */
  lemma NoNewerThanHead(w: Wager, ws: seq<Wager>, rest: seq<Wager>)
    requires ws != [] && NewestFirst(ws) && w.date < ws[0].date
    requires multiset(rest) == multiset(ws[1..]) + multiset{w}
    ensures forall i :: 0 <= i < |rest| ==> rest[i].date <= ws[0].date
  {
    forall i | 0 <= i < |rest| ensures rest[i].date <= ws[0].date {
      assert rest[i] in multiset(rest);
      if rest[i] != w {
        assert rest[i] in ws[1..];
        var j :| 0 <= j < |ws[1..]| && ws[1..][j] == rest[i];
        assert ws[j + 1] == rest[i];
      }
    }
  }

  /** The wagers ordered by date, newest first (the sort of the panel; it
      keeps ledger order among equal dates). */
  function SortByDate(ws: seq<Wager>): (r: seq<Wager>)
    ensures multiset(r) == multiset(ws) && NewestFirst(r)
  {
    if ws == [] then []
    else
      assert ws == [ws[0]] + ws[1..];
      InsertByDate(ws[0], SortByDate(ws[1..]))
  }

  /** The "latest games" list of the panel: the five newest wagers. */
  function RecentGames(ms: seq<seq<Wager>>): (r: seq<Wager>)
    ensures |r| == (if |Flatten(ms)| <= 5 then |Flatten(ms)| else 5)
  {
    var sorted := SortByDate(Flatten(ms));
    assert |sorted| == |multiset(sorted)| == |Flatten(ms)|;
    if |sorted| <= 5 then sorted else sorted[..5]
  }

  /** The list holds five wagers, or all of them when there are fewer, all
      from the ledger, newest first, and no wager left out is newer than
      one shown. None of this depends on how equal dates are ordered. */
  lemma RecentGamesFacts(ms: seq<seq<Wager>>)
    ensures var r, all := RecentGames(ms), Flatten(ms);
      && |r| == (if |all| <= 5 then |all| else 5)
      && NewestFirst(r)
      && multiset(r) <= multiset(all)
      && forall w: Wager :: w in multiset(all) - multiset(r) ==>
           forall i :: 0 <= i < |r| ==> w.date <= r[i].date
  {
    var sorted := SortByDate(Flatten(ms));
    var n := if |sorted| <= 5 then |sorted| else 5;
    assert RecentGames(ms) == sorted[..n];
    NewestFirstPrefix(sorted, n);
  }

  /** The first `n` wagers of a newest-first sequence are newest first, and
      every wager after them is no newer than any of them. */
  lemma NewestFirstPrefix(sorted: seq<Wager>, n: nat)
    requires NewestFirst(sorted) && n <= |sorted|
    ensures NewestFirst(sorted[..n])
    ensures multiset(sorted[..n]) <= multiset(sorted)
    ensures forall w: Wager :: w in multiset(sorted) - multiset(sorted[..n]) ==>
              forall i :: 0 <= i < |sorted[..n]| ==> w.date <= sorted[..n][i].date
  {
    var r, rest := sorted[..n], sorted[n..];
    assert sorted == r + rest;
    assert multiset(sorted) == multiset(r) + multiset(rest);
    forall w: Wager | w in multiset(sorted) - multiset(r)
      ensures forall i :: 0 <= i < |r| ==> w.date <= r[i].date
    {
      assert w in rest;
      NoNewerAfter(sorted, n, w);
    }
  }

  /** A wager after the first `n` of a newest-first sequence is no newer
      than any of them. */
  lemma NoNewerAfter(sorted: seq<Wager>, n: nat, w: Wager)
    requires NewestFirst(sorted) && n <= |sorted| && w in sorted[n..]
    ensures forall i :: 0 <= i < n ==> w.date <= sorted[i].date
  {
    var rest := sorted[n..];
    var j :| 0 <= j < |rest| && rest[j] == w;
    assert sorted[n + j] == w;
  }
}
