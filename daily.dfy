/** The performance figures of one month page: days worked, green and red
    days (by the day's summed profit), green and red markets, and the
    month's stake, profit and ROI. */
module Daily {
  import opened Wagers
  import opened Seqs
  import opened Aggregation

  datatype Rollup = Rollup(
    daysWorked: nat, daysGreen: nat, daysRed: int,
    markets: nat, marketsGreen: nat, marketsRed: int,
    stake: real, profit: real, roi: real)

  /** The Data column. */
  function DatesOf(ws: seq<Wager>): seq<Date> {
    seq(|ws|, i requires 0 <= i < |ws| => ws[i].date)
  }

  /** The wagers of one day. */
  function OnDate(ws: seq<Wager>, d: Date): seq<Wager> {
    if ws == [] then []
    else (if ws[0].date == d then [ws[0]] else []) + OnDate(ws[1..], d)
  }

  /** The summed Profit/Loss of one day (the group-by sum). */
  function DaySum(ws: seq<Wager>, d: Date): real {
    ProfitSum(OnDate(ws, d))
  }

  /** The days of `ds` whose summed profit is not negative. */
  function GreenDays(ds: seq<Date>, ws: seq<Wager>): seq<Date> {
    if ds == [] then []
    else (if DaySum(ws, ds[0]) >= 0.0 then [ds[0]] else []) + GreenDays(ds[1..], ws)
  }

  /** The days of `ds` whose summed profit is negative. */
  function RedDays(ds: seq<Date>, ws: seq<Wager>): seq<Date> {
    if ds == [] then []
    else (if DaySum(ws, ds[0]) < 0.0 then [ds[0]] else []) + RedDays(ds[1..], ws)
  }

  /** The figures as the month page computes them: red days and red markets
      are what remains after the green ones. */
  function DailyRollup(ws: seq<Wager>): (r: Rollup)
    ensures r.stake == 0.0 ==> r.roi == 0.0
    ensures r.stake != 0.0 ==> r.roi * r.stake == r.profit * 100.0
  {
    var stake, profit := StakeSum(ws), ProfitSum(ws);
    var roi := PercentOf(profit, stake);
    assert stake != 0.0 ==> roi * stake == profit * 100.0 by {
      if stake != 0.0 { PercentOfScales(profit, stake); }
    }
    var days := Distinct(DatesOf(ws));
    var daysGreen := |GreenDays(days, ws)|;
    var marketsGreen := GreenCount(ws);
    Rollup(|days|, daysGreen, |days| - daysGreen,
           |ws|, marketsGreen, |ws| - marketsGreen,
           stake, profit, roi)
  }

  /** The distinct dates of the month. */
  function DateSet(ws: seq<Wager>): set<Date> {
    set i | 0 <= i < |ws| :: ws[i].date
  }

  /** The dates whose summed profit is not negative, and those whose sum
      is negative. */
  function GreenDateSet(ws: seq<Wager>): set<Date> {
    set d | d in DateSet(ws) && DaySum(ws, d) >= 0.0
  }

  function RedDateSet(ws: seq<Wager>): set<Date> {
    set d | d in DateSet(ws) && DaySum(ws, d) < 0.0
  }

  /** Splitting days by the sign of their sum keeps each day on exactly one
      side and keeps the order free of repeats. */
  lemma {:induction false} DaysSplit(ds: seq<Date>, ws: seq<Wager>)
    requires NoDup(ds)
    ensures |GreenDays(ds, ws)| + |RedDays(ds, ws)| == |ds|
    ensures NoDup(GreenDays(ds, ws)) && NoDup(RedDays(ds, ws))
    ensures forall d :: d in GreenDays(ds, ws) <==> d in ds && DaySum(ws, d) >= 0.0
    ensures forall d :: d in RedDays(ds, ws) <==> d in ds && DaySum(ws, d) < 0.0
  {
    if ds != [] {
      var rest := ds[1..];
      assert NoDup(rest);
      DaysSplit(rest, ws);
      assert ds[0] !in rest;
      assert forall d :: d in ds <==> d == ds[0] || d in rest by {
        assert ds == [ds[0]] + rest;
      }
    }
  }

  lemma DistinctDates(ws: seq<Wager>)
    ensures forall d :: d in Distinct(DatesOf(ws)) <==> d in DateSet(ws)
    ensures |Distinct(DatesOf(ws))| == |DateSet(ws)|
  {
    var days := Distinct(DatesOf(ws));
    forall d | d in days ensures d in DateSet(ws) {
      var j :| 0 <= j < |days| && days[j] == d;
      var i :| 0 <= i < |ws| && DatesOf(ws)[i] == d;
    }
    forall d | d in DateSet(ws) ensures d in days {
      var i :| 0 <= i < |ws| && ws[i].date == d;
      assert DatesOf(ws)[i] == d;
    }
    assert (set x | x in days) == DateSet(ws);
    NoDupCard(days);
  }

  /** A repeat-free listing of a set has the set's size. */
  lemma ListingCard(s: seq<Date>, e: set<Date>)
    requires NoDup(s)
    requires forall d :: d in s <==> d in e
    ensures |s| == |e|
  {
    var listed := set x | x in s;
    forall x | x in e ensures x in listed {
      assert x in s;
    }
    forall x | x in listed ensures x in e {
      assert x in s;
    }
    assert listed == e;
    NoDupCard(s);
  }

  /** The green and red days of the rollup are the dates whose sum is
      not negative and negative respectively. */
  lemma DaySetsCount(ws: seq<Wager>)
    ensures |GreenDays(Distinct(DatesOf(ws)), ws)| == |GreenDateSet(ws)|
    ensures |RedDays(Distinct(DatesOf(ws)), ws)| == |RedDateSet(ws)|
    ensures |GreenDays(Distinct(DatesOf(ws)), ws)| + |RedDays(Distinct(DatesOf(ws)), ws)|
         == |Distinct(DatesOf(ws))|
  {
    var days := Distinct(DatesOf(ws));
    DistinctDates(ws);
    DaysSplit(days, ws);
    ListingCard(GreenDays(days, ws), GreenDateSet(ws));
    ListingCard(RedDays(days, ws), RedDateSet(ws));
  }

  /** Days worked counts the distinct dates; a day is green exactly when
      its summed profit is not negative and red exactly when it is
      negative, so green and red days partition the days worked; green and
      red markets partition the month's wagers, the red ones being the
      losing ones. */
  lemma DailyRollupFacts(ws: seq<Wager>)
    ensures DailyRollup(ws).daysWorked == |DateSet(ws)|
    ensures DailyRollup(ws).daysGreen == |GreenDateSet(ws)|
    ensures DailyRollup(ws).daysRed == |RedDateSet(ws)|
    ensures DailyRollup(ws).daysGreen + DailyRollup(ws).daysRed == DailyRollup(ws).daysWorked
    ensures DailyRollup(ws).markets == |ws|
    ensures DailyRollup(ws).marketsGreen + DailyRollup(ws).marketsRed == DailyRollup(ws).markets
    ensures DailyRollup(ws).marketsRed == RedCount(ws)
    ensures DailyRollup(ws).daysWorked == 0 <==> ws == []
  {
    DistinctDates(ws);
    DaySetsCount(ws);
    GreensRedsPartition(ws);
    if ws != [] {
      assert ws[0].date in DateSet(ws);
    }
  }
}
