/** The ledger's records: wagers, championships, strategies, the twelve
    month tables, the outcome of a registry operation, and the two ratios
    the ledger derives (`% Stake` per wager and ROI per aggregate). */
module Wagers {

  datatype Option<T> = None | Some(value: T)

  /** A calendar date as a day number; the ledger only compares dates for
      equality (grouping by day) and order. */
  type Date = int

  /** One row of a month table: Data, Competição, Casa, Visitante,
      Estrategia, Tag, Stake, Profit/Loss and % Stake. */
  datatype Wager = Wager(
    date: Date,
    competition: string,
    home: string,
    away: string,
    strategy: string,
    tag: string,
    stake: real,
    profitLoss: real,
    stakePercent: real)

  /** A row of the championship registry: Nome, Temporada and the cached
      game count Jogos. */
  datatype Championship = Championship(name: string, season: string, games: nat)

  /** A row of the strategy registry: Nome and Descrição. */
  datatype Strategy = Strategy(name: string, description: string)

  /** The Nome column of the championship and strategy registries. */
  function ChampionshipNames(cs: seq<Championship>): seq<string> {
    seq(|cs|, i requires 0 <= i < |cs| => cs[i].name)
  }

  function StrategyNames(ss: seq<Strategy>): seq<string> {
    seq(|ss|, i requires 0 <= i < |ss| => ss[i].name)
  }

  /** How a registry or ledger operation ends: applied, refused because a
      required text is empty, refused because the name is already taken,
      or refused because the entity is referenced by a wager. */
  datatype Outcome = Done | MissingField | NameTaken | InUse

  /** The ledger has one table per calendar month. */
  const MonthCount: nat := 12

  const MonthNames: seq<string> := [
    "Janeiro", "Fevereiro", "Mar\U{E7}o", "Abril", "Maio", "Junho",
    "Julho", "Agosto", "Setembro", "Outubro", "Novembro", "Dezembro"]

  /** Label of the synthetic last row of the monthly performance table. */
  const TotalLabel: string := "TOTAL"

  /** `part` as a percentage of `whole`, 0 for a zero whole: the `% Stake`
      of a wager (profit against stake) and the ROI of the month, TOTAL,
      strategy and tag figures (profit total against stake total). */
  function PercentOf(part: real, whole: real): (r: real)
    ensures whole == 0.0 ==> r == 0.0
  {
    if whole != 0.0 then part / whole * 100.0 else 0.0
  }

  /** For a non-zero whole, the percentage times the whole is a hundred
      times the part. */
  lemma PercentOfScales(part: real, whole: real)
    requires whole != 0.0
    ensures PercentOf(part, whole) * whole == part * 100.0
  {
    var q := part / whole;
    assert q * whole == part;
  }

  /** With a positive stake, a wager cannot show less than -100 % unless it
      lost more than its stake. */
  lemma PercentStakeLossBound(profitLoss: real, stake: real)
    requires stake > 0.0 && profitLoss >= -stake
    ensures PercentOf(profitLoss, stake) >= -100.0
  {
    var r := PercentOf(profitLoss, stake);
    PercentOfScales(profitLoss, stake);
    assert (r + 100.0) * stake == (profitLoss + stake) * 100.0;
  }

  /** ROI of the team and championship statistics: guarded by a positive
      stake total, so a zero or negative total gives 0. */
  function RoiIfPositive(profit: real, stake: real): (r: real)
    ensures stake <= 0.0 ==> r == 0.0
  {
    if stake > 0.0 then profit / stake * 100.0 else 0.0
  }

  /** With a positive stake total, ROI times the stake is a hundred times
      the profit, and ROI is non-negative exactly when the profit is. */
  lemma RoiIfPositiveScales(profit: real, stake: real)
    requires stake > 0.0
    ensures RoiIfPositive(profit, stake) * stake == profit * 100.0
    ensures RoiIfPositive(profit, stake) >= 0.0 <==> profit >= 0.0
  {
    var q := profit / stake;
    assert q * stake == profit;
  }

  /** A wager whose `% Stake` agrees with its stake and profit, as every
      insertion and edit computes it. */
  predicate Consistent(w: Wager) {
    w.stakePercent == PercentOf(w.profitLoss, w.stake)
  }

  /** Every wager of every month is consistent. */
  predicate LedgerConsistent(ms: seq<seq<Wager>>) {
    forall k, i :: 0 <= k < |ms| && 0 <= i < |ms[k]| ==> Consistent(ms[k][i])
  }

  /** Every wager of the ledger, month after month. */
  function Flatten(ms: seq<seq<Wager>>): seq<Wager> {
    if ms == [] then [] else Flatten(ms[..|ms| - 1]) + ms[|ms| - 1]
  }

  /** The record one form row produces: the given fields, with `% Stake`
      derived from stake and profit. */
  function NewWager(date: Date, competition: string, home: string, away: string,
                    strategy: string, tag: string, stake: real, profitLoss: real): (w: Wager)
    ensures Consistent(w)
    ensures w.date == date && w.competition == competition
    ensures w.home == home && w.away == away
    ensures w.strategy == strategy && w.tag == tag
    ensures w.stake == stake && w.profitLoss == profitLoss
  {
    Wager(date, competition, home, away, strategy, tag, stake, profitLoss,
          PercentOf(profitLoss, stake))
  }
}
