/** The day-entry form of a month page, as values: the wagers a submitted
    form adds to the month and the team registry after the automatic adds. */
module Entry {
  import opened Wagers
  import opened Seqs
  import opened Registry

  /** One game line of the form: Casa, Visitante, Stake and Profit/Loss. */
  datatype GameRow = GameRow(home: string, away: string, stake: real, profitLoss: real)

  /** A line is saved only when both team fields are filled in. */
  predicate Kept(row: GameRow) {
    row.home != "" && row.away != ""
  }

  /** The wager a kept line becomes, with the form's date, competition,
      strategy and tag. */
  function WagerOf(date: Date, competition: string, strategy: string, tag: string, row: GameRow)
    : (w: Wager)
    ensures Consistent(w)
  {
    NewWager(date, competition, row.home, row.away, strategy, tag, row.stake, row.profitLoss)
  }

  /** The wagers appended to the month, in line order; every one has both
      teams, the form's shared fields and a consistent `% Stake`. */
  function DayWagers(date: Date, competition: string, strategy: string, tag: string,
                     rows: seq<GameRow>): (r: seq<Wager>)
    ensures |r| <= |rows|
    ensures forall j :: 0 <= j < |r| ==>
              && Consistent(r[j]) && r[j].home != "" && r[j].away != ""
              && r[j].date == date && r[j].competition == competition
              && r[j].strategy == strategy && r[j].tag == tag
  {
    if rows == [] then []
    else
      var n := |rows| - 1;
      DayWagers(date, competition, strategy, tag, rows[..n])
        + (if Kept(rows[n]) then [WagerOf(date, competition, strategy, tag, rows[n])] else [])
  }

  /** One more line adds its wager when it is kept. */
  lemma DayWagersStep(date: Date, competition: string, strategy: string, tag: string,
                      rows: seq<GameRow>, i: nat)
    requires i < |rows|
    ensures DayWagers(date, competition, strategy, tag, rows[..i + 1])
         == DayWagers(date, competition, strategy, tag, rows[..i])
            + (if Kept(rows[i]) then [WagerOf(date, competition, strategy, tag, rows[i])] else [])
  {
    assert rows[..i + 1][..i] == rows[..i];
  }

  /** The positions of the lines that are saved. */
  function KeptLines(rows: seq<GameRow>): set<nat> {
    set i: nat | i < |rows| && Kept(rows[i])
  }

  /** The kept positions of a list of lines are those of all but its last
      line, plus the last position when that line is kept. */
  lemma KeptLinesSnoc(rows: seq<GameRow>)
    requires rows != []
    ensures var n := |rows| - 1;
      && n !in KeptLines(rows[..n])
      && KeptLines(rows) == KeptLines(rows[..n]) + (if Kept(rows[n]) then {n} else {})
  {
    var n := |rows| - 1;
    var front := rows[..n];
    forall i: nat
      ensures i in KeptLines(rows) <==> i in KeptLines(front) + (if Kept(rows[n]) then {n} else {})
    {
      if i < n {
        assert front[i] == rows[i];
      }
    }
  }

  /** One wager per kept line: lines with a missing team are skipped. */
  lemma {:induction false} DayWagersCount(date: Date, competition: string, strategy: string,
                                          tag: string, rows: seq<GameRow>)
    ensures |DayWagers(date, competition, strategy, tag, rows)| == |KeptLines(rows)|
  {
    if rows != [] {
      var n := |rows| - 1;
      DayWagersCount(date, competition, strategy, tag, rows[..n]);
      KeptLinesSnoc(rows);
    }
  }

  /** The wager of a kept line comes right after the wagers of the kept
      lines before it; with the count this fixes the whole sequence: the
      wagers of exactly the kept lines, in line order. */
  lemma {:induction false} DayWagersAt(date: Date, competition: string, strategy: string,
                                       tag: string, rows: seq<GameRow>, i: nat)
    requires i < |rows| && Kept(rows[i])
    ensures |KeptLines(rows[..i])| < |DayWagers(date, competition, strategy, tag, rows)|
    ensures DayWagers(date, competition, strategy, tag, rows)[|KeptLines(rows[..i])|]
         == WagerOf(date, competition, strategy, tag, rows[i])
  {
    var n := |rows| - 1;
    var front := rows[..n];
    var d := DayWagers(date, competition, strategy, tag, front);
    assert DayWagers(date, competition, strategy, tag, rows)
        == d + [WagerOf(date, competition, strategy, tag, rows[n])]
        || (i < n && DayWagers(date, competition, strategy, tag, rows) == d);
    if i == n {
      assert rows[..i] == front;
      DayWagersCount(date, competition, strategy, tag, front);
    } else {
      assert front[..i] == rows[..i];
      DayWagersAt(date, competition, strategy, tag, front, i);
    }
  }

  /** When every line is complete, the month receives exactly one wager
      per line, in line order, carrying that line's teams, stake and
      profit. */
  lemma {:induction false} DayWagersComplete(date: Date, competition: string, strategy: string,
                                             tag: string, rows: seq<GameRow>)
    requires forall i :: 0 <= i < |rows| ==> Kept(rows[i])
    ensures |DayWagers(date, competition, strategy, tag, rows)| == |rows|
    ensures forall i :: 0 <= i < |rows| ==>
              DayWagers(date, competition, strategy, tag, rows)[i]
              == WagerOf(date, competition, strategy, tag, rows[i])
  {
    if rows != [] {
      var n := |rows| - 1;
      DayWagersComplete(date, competition, strategy, tag, rows[..n]);
    }
  }

  /** The team registry after the automatic adds of the kept lines, home
      side before away side, line after line. */
  function RowTeams(teams: seq<string>, rows: seq<GameRow>): (r: seq<string>)
    ensures |teams| <= |r| && r[..|teams|] == teams
    ensures NoDup(teams) ==> NoDup(r)
    ensures "" !in teams ==> "" !in r
  {
    if rows == [] then teams
    else
      var n := |rows| - 1;
      var before := RowTeams(teams, rows[..n]);
      if Kept(rows[n]) then
        var withHome := AutoAdd(before, rows[n].home);
        assert withHome[..|teams|] == teams by {
          assert withHome[..|before|][..|teams|] == withHome[..|teams|];
        }
        var withAway := AutoAdd(withHome, rows[n].away);
        assert withAway[..|withHome|][..|teams|] == withAway[..|teams|];
        withAway
      else before
  }

  /** One more kept line registers its home team, then its away team. */
  lemma RowTeamsStep(teams: seq<string>, rows: seq<GameRow>, i: nat)
    requires i < |rows|
    ensures RowTeams(teams, rows[..i + 1])
         == if Kept(rows[i]) then AutoAdd(AutoAdd(RowTeams(teams, rows[..i]), rows[i].home), rows[i].away)
            else RowTeams(teams, rows[..i])
  {
    assert rows[..i + 1][..i] == rows[..i];
  }

  /** After the automatic adds every team of a kept line is registered,
      and every registered team was registered before or comes from a kept
      line. */
  lemma {:induction false} RowTeamsFacts(teams: seq<string>, rows: seq<GameRow>)
    ensures forall i :: 0 <= i < |rows| && Kept(rows[i]) ==>
              rows[i].home in RowTeams(teams, rows) && rows[i].away in RowTeams(teams, rows)
    ensures forall x :: x in RowTeams(teams, rows) ==>
              x in teams || exists i :: 0 <= i < |rows| && Kept(rows[i]) && (x == rows[i].home || x == rows[i].away)
  {
    if rows != [] {
      var n := |rows| - 1;
      var init := rows[..n];
      RowTeamsFacts(teams, init);
      var before := RowTeams(teams, init);
      var r := RowTeams(teams, rows);
      assert forall x :: x in before ==> x in r by {
        if Kept(rows[n]) {
          var withHome := AutoAdd(before, rows[n].home);
          assert withHome[..|before|] == before;
          assert r[..|withHome|] == withHome;
        }
      }
      forall i | 0 <= i < |rows| && Kept(rows[i])
        ensures rows[i].home in r && rows[i].away in r
      {
        if i < n {
          assert init[i] == rows[i];
        } else {
          var withHome := AutoAdd(before, rows[n].home);
          assert r[..|withHome|] == withHome;
        }
      }
      forall x | x in r
        ensures x in teams || exists i :: 0 <= i < |rows| && Kept(rows[i]) && (x == rows[i].home || x == rows[i].away)
      {
        if x in before {
          if x !in teams {
            var i :| 0 <= i < |init| && Kept(init[i]) && (x == init[i].home || x == init[i].away);
            assert rows[i] == init[i];
          }
        } else {
          assert Kept(rows[n]) && (x == rows[n].home || x == rows[n].away);
        }
      }
    }
  }
}
