/** The application state: the registries of teams, championships,
    strategies and tags and the twelve month tables, changed in place by
    the forms of the pages. */
module Store {
  import opened Wagers
  import opened Seqs
  import opened Text
  import opened Aggregation
  import opened Integrity
  import opened Registry
  import opened Tags
  import opened Entry

  class Ledger {
    var teams: seq<string>
    var championships: seq<Championship>
    var strategies: seq<Strategy>
    var tags: seq<string>
    var months: seq<seq<Wager>>

    /** Twelve months; team, championship and tag names are non-empty and
        never repeated; strategy names are non-empty (a strategy rename
        can repeat one); every wager's `% Stake` agrees with its stake and
        profit. */
    ghost predicate Valid()
      reads this
    {
      && |months| == MonthCount
      && NoDup(teams) && "" !in teams
      && NoDup(ChampionshipNames(championships)) && "" !in ChampionshipNames(championships)
      && "" !in StrategyNames(strategies)
      && NoDup(tags) && "" !in tags
      && LedgerConsistent(months)
    }

    /** The state of a first start: empty registries, the four default
        tags and twelve empty months. */
    constructor ()
      ensures Valid()
      ensures teams == [] && championships == [] && strategies == []
      ensures tags == DefaultTags
      ensures |months| == MonthCount && forall k :: 0 <= k < MonthCount ==> months[k] == []
    {
      teams := [];
      championships := [];
      strategies := [];
      tags := DefaultTags;
      months := seq(MonthCount, k => []);
      DefaultTagsWellFormed();
    }

    /** Add form of the teams page: the typed name is stripped, then
        checked. */
    method AddTeam(input: string) returns (r: Outcome)
      requires Valid()
      modifies this
      ensures Valid()
      ensures r == AddCheck(old(teams), Strip(input))
      ensures teams == (if r == Done then old(teams) + [Strip(input)] else old(teams))
      ensures championships == old(championships) && strategies == old(strategies)
      ensures tags == old(tags) && months == old(months)
    {
      var name := Strip(input);
      if name == "" {
        r := MissingField;
      } else if name in teams {
        r := NameTaken;
      } else {
        teams := teams + [name];
        r := Done;
      }
    }

    /** Registers a team named by a wager unless it is empty or known. */
    method AutoAddTeam(name: string)
      requires Valid()
      modifies this
      ensures Valid()
      ensures teams == AutoAdd(old(teams), name)
      ensures championships == old(championships) && strategies == old(strategies)
      ensures tags == old(tags) && months == old(months)
    {
      if name != "" && name !in teams {
        teams := teams + [name];
      }
    }

    /** Rewrites every month table with the rename of `from` to `to`, one
        month after the other. */
    method RenameInMonths(dim: Dimension, from: string, to: string)
      requires Valid() && Cascades(dim)
      modifies this
      ensures Valid()
      ensures months == RenameInLedger(old(months), dim, from, to)
      ensures teams == old(teams) && championships == old(championships)
      ensures strategies == old(strategies) && tags == old(tags)
    {
      for k := 0 to |months|
        invariant |months| == |old(months)|
        invariant forall j :: 0 <= j < |months| ==>
                    months[j] == if j < k then RenameIn(old(months)[j], dim, from, to) else old(months)[j]
        invariant teams == old(teams) && championships == old(championships)
        invariant strategies == old(strategies) && tags == old(tags)
      {
        months := months[k := RenameIn(months[k], dim, from, to)];
      }
      assert months == RenameInLedger(old(months), dim, from, to);
      RenameConsistent(old(months), dim, from, to);
    }

    /** Edit form of the teams page: the selected team takes the new name
        and every wager that had it as home or away side follows. */
    method RenameTeam(selected: string, newName: string) returns (r: Outcome)
      requires Valid() && selected in teams
      modifies this
      ensures Valid()
      ensures r == RenameCheck(old(teams), selected, newName)
      ensures r == Done ==>
                && teams == old(teams)[FirstIndex(old(teams), selected) := newName]
                && months == RenameInLedger(old(months), ByTeam, selected, newName)
      ensures r != Done ==> teams == old(teams) && months == old(months)
      ensures championships == old(championships) && strategies == old(strategies)
      ensures tags == old(tags)
    {
      if newName == "" {
        r := MissingField;
      } else if newName != selected && newName in teams {
        r := NameTaken;
      } else {
        RenameKeepsNoDup(teams, selected, newName);
        teams := teams[FirstIndex(teams, selected) := newName];
        RenameInMonths(ByTeam, selected, newName);
        r := Done;
      }
    }

    /** Delete button of the teams page: refused while some wager names the
        team. */
    method DeleteTeam(selected: string) returns (r: Outcome)
      requires Valid() && selected in teams
      modifies this
      ensures Valid()
      ensures r == (if Referenced(old(months), Filter(ByTeam, selected)) then InUse else Done)
      ensures teams == (if r == Done then RemoveAt(old(teams), FirstIndex(old(teams), selected))
                        else old(teams))
      ensures championships == old(championships) && strategies == old(strategies)
      ensures tags == old(tags) && months == old(months)
    {
      var inUse := FindInUse(months, Filter(ByTeam, selected));
      if inUse {
        r := InUse;
      } else {
        RemoveAtNoDup(teams, FirstIndex(teams, selected));
        teams := RemoveAt(teams, FirstIndex(teams, selected));
        r := Done;
      }
    }

    /** Add form of the championships page: name and season are stripped;
        without both nothing is saved. */
    method AddChampionship(nameInput: string, seasonInput: string) returns (r: Outcome)
      requires Valid()
      modifies this
      ensures Valid()
      ensures r == (if Strip(seasonInput) == "" then MissingField
                    else AddCheck(ChampionshipNames(old(championships)), Strip(nameInput)))
      ensures championships == (if r == Done
                                then old(championships) + [Championship(Strip(nameInput), Strip(seasonInput), 0)]
                                else old(championships))
      ensures teams == old(teams) && strategies == old(strategies)
      ensures tags == old(tags) && months == old(months)
    {
      var name := Strip(nameInput);
      var season := Strip(seasonInput);
      if name == "" || season == "" {
        r := MissingField;
      } else if name in ChampionshipNames(championships) {
        r := NameTaken;
      } else {
        var added := championships + [Championship(name, season, 0)];
        ChampionshipNamesAppend(championships, Championship(name, season, 0));
        championships := added;
        r := Done;
      }
    }

    /** Registers a championship named on a month page unless it is empty
        or known; `season` is the current year. */
    method AutoAddChampionship(name: string, season: string)
      requires Valid()
      modifies this
      ensures Valid()
      ensures championships == WithChampionship(old(championships), name, season)
      ensures teams == old(teams) && strategies == old(strategies)
      ensures tags == old(tags) && months == old(months)
    {
      if name != "" && name !in ChampionshipNames(championships) {
        var added := championships + [Championship(name, season, 0)];
        ChampionshipNamesAppend(championships, Championship(name, season, 0));
        championships := added;
      }
    }

    /** Edit form of the championships page: the selected championship
        takes the new name and season, keeps its game count, and every
        wager of that competition follows. */
    method RenameChampionship(selected: string, newName: string, newSeason: string)
      returns (r: Outcome)
      requires Valid() && selected in ChampionshipNames(championships)
      modifies this
      ensures Valid()
      ensures r == RenameCheck(ChampionshipNames(old(championships)), selected, newName)
      ensures r == Done ==>
                var k := FirstIndex(ChampionshipNames(old(championships)), selected);
                && championships == old(championships)[k := Championship(newName, newSeason, old(championships)[k].games)]
                && months == RenameInLedger(old(months), ByChampionship, selected, newName)
      ensures r != Done ==> championships == old(championships) && months == old(months)
      ensures teams == old(teams) && strategies == old(strategies) && tags == old(tags)
    {
      var names := ChampionshipNames(championships);
      if newName == "" {
        r := MissingField;
      } else if newName != selected && newName in names {
        r := NameTaken;
      } else {
        var k := FirstIndex(names, selected);
        RenameKeepsNoDup(names, selected, newName);
        var renamed := championships[k := Championship(newName, newSeason, championships[k].games)];
        ChampionshipNamesUpdate(championships, k, Championship(newName, newSeason, championships[k].games));
        championships := renamed;
        RenameInMonths(ByChampionship, selected, newName);
        r := Done;
      }
    }

    /** Delete button of the championships page: refused while some wager
        is of that competition. */
    method DeleteChampionship(selected: string) returns (r: Outcome)
      requires Valid() && selected in ChampionshipNames(championships)
      modifies this
      ensures Valid()
      ensures r == (if Referenced(old(months), Filter(ByChampionship, selected)) then InUse else Done)
      ensures championships == (if r == Done
                                then RemoveAt(old(championships), FirstIndex(ChampionshipNames(old(championships)), selected))
                                else old(championships))
      ensures teams == old(teams) && strategies == old(strategies)
      ensures tags == old(tags) && months == old(months)
    {
      var inUse := FindInUse(months, Filter(ByChampionship, selected));
      if inUse {
        r := InUse;
      } else {
        var names := ChampionshipNames(championships);
        var k := FirstIndex(names, selected);
        RemoveAtNoDup(names, k);
        var removed := RemoveAt(championships, k);
        ChampionshipNamesRemove(championships, k);
        championships := removed;
        r := Done;
      }
    }

    /** Recomputes every championship's game count from the month tables,
        one championship after the other. */
    method RefreshGameCounts()
      requires Valid()
      modifies this
      ensures Valid()
      ensures championships == Refreshed(old(championships), months)
      ensures teams == old(teams) && strategies == old(strategies)
      ensures tags == old(tags) && months == old(months)
    {
      var listed := championships;
      for i := 0 to |listed|
        invariant |championships| == |listed|
        invariant forall j :: 0 <= j < |listed| ==>
                    championships[j] == if j < i then Refreshed(listed, months)[j] else listed[j]
        invariant teams == old(teams) && strategies == old(strategies)
        invariant tags == old(tags) && months == old(months)
      {
        var s := CollectStats(months, Filter(ByChampionship, listed[i].name));
        championships := championships[i := championships[i].(games := s.markets)];
      }
      assert ChampionshipNames(championships) == ChampionshipNames(listed);
    }

    /** Add form of the strategies page: the name is checked as typed. */
    method AddStrategy(name: string, description: string) returns (r: Outcome)
      requires Valid()
      modifies this
      ensures Valid()
      ensures r == AddCheck(StrategyNames(old(strategies)), name)
      ensures strategies == (if r == Done then old(strategies) + [Strategy(name, description)]
                             else old(strategies))
      ensures teams == old(teams) && championships == old(championships)
      ensures tags == old(tags) && months == old(months)
    {
      if name == "" {
        r := MissingField;
      } else if name in StrategyNames(strategies) {
        r := NameTaken;
      } else {
        var added := strategies + [Strategy(name, description)];
        StrategyNamesAppend(strategies, Strategy(name, description));
        strategies := added;
        r := Done;
      }
    }

    /** Edit form of the strategies page: only an empty name is refused;
        the wagers keep the old strategy name. */
    method RenameStrategy(selected: string, newName: string, newDescription: string)
      returns (r: Outcome)
      requires Valid() && selected in StrategyNames(strategies)
      modifies this
      ensures Valid()
      ensures r == (if newName == "" then MissingField else Done)
      ensures strategies == (if r == Done
                             then old(strategies)[FirstIndex(StrategyNames(old(strategies)), selected)
                                                  := Strategy(newName, newDescription)]
                             else old(strategies))
      ensures teams == old(teams) && championships == old(championships)
      ensures tags == old(tags) && months == old(months)
    {
      if newName == "" {
        r := MissingField;
      } else {
        var names := StrategyNames(strategies);
        var k := FirstIndex(names, selected);
        var renamed := strategies[k := Strategy(newName, newDescription)];
        StrategyNamesUpdate(strategies, k, Strategy(newName, newDescription));
        strategies := renamed;
        r := Done;
      }
    }

    /** Delete button of the strategies page: removes the first strategy of
        that name, whatever the wagers say. */
    method DeleteStrategy(selected: string)
      requires Valid() && selected in StrategyNames(strategies)
      modifies this
      ensures Valid()
      ensures strategies == RemoveAt(old(strategies), FirstIndex(StrategyNames(old(strategies)), selected))
      ensures teams == old(teams) && championships == old(championships)
      ensures tags == old(tags) && months == old(months)
    {
      var names := StrategyNames(strategies);
      var k := FirstIndex(names, selected);
      var removed := RemoveAt(strategies, k);
      assert StrategyNames(removed) == RemoveAt(names, k);
      strategies := removed;
    }

    /** Tag forms, with the checks made on the stripped text. */
    method AddTag(input: string) returns (r: Outcome)
      requires Valid()
      modifies this
      ensures Valid()
      ensures TagUpdate(r, tags) == Tags.AddTag(old(tags), input)
      ensures teams == old(teams) && championships == old(championships)
      ensures strategies == old(strategies) && months == old(months)
    {
      var u := Tags.AddTag(tags, input);
      tags := u.tags;
      r := u.outcome;
    }

    method RenameTag(selected: string, input: string) returns (r: Outcome)
      requires Valid() && selected in tags
      modifies this
      ensures Valid()
      ensures TagUpdate(r, tags) == Tags.RenameTag(old(tags), selected, input)
      ensures teams == old(teams) && championships == old(championships)
      ensures strategies == old(strategies) && months == old(months)
    {
      var u := Tags.RenameTag(tags, selected, input);
      tags := u.tags;
      r := u.outcome;
    }

    method RemoveTag(selected: string)
      requires Valid() && selected in tags
      modifies this
      ensures Valid()
      ensures tags == Tags.RemoveTag(old(tags), selected)
      ensures teams == old(teams) && championships == old(championships)
      ensures strategies == old(strategies) && months == old(months)
    {
      tags := Tags.RemoveTag(tags, selected);
    }

    /** Save button of the day-entry form of month `m`: without a
        competition nothing happens; otherwise each line with both teams
        registers its teams and is appended to the month, and the game
        counts are refreshed. */
    method AddDayWagers(m: nat, date: Date, competition: string, strategy: string, tag: string,
                        rows: seq<GameRow>) returns (r: Outcome)
      requires Valid() && m < MonthCount
      modifies this
      ensures Valid()
      ensures r == (if competition == "" then MissingField else Done)
      ensures r == Done ==>
                && months == old(months)[m := old(months)[m] + DayWagers(date, competition, strategy, tag, rows)]
                && teams == RowTeams(old(teams), rows)
                && championships == Refreshed(old(championships), months)
      ensures r != Done ==>
                teams == old(teams) && championships == old(championships) && months == old(months)
      ensures strategies == old(strategies) && tags == old(tags)
    {
      if competition == "" {
        r := MissingField;
        return;
      }
      SaveDayLines(m, date, competition, strategy, tag, rows);
      RefreshGameCounts();
      r := Done;
    }

    /** The loop of the save button: each line with both teams registers
        its teams and is appended to month `m`. */
    method SaveDayLines(m: nat, date: Date, competition: string, strategy: string, tag: string,
                        rows: seq<GameRow>)
      requires Valid() && m < MonthCount
      modifies this
      ensures Valid()
      ensures months == old(months)[m := old(months)[m] + DayWagers(date, competition, strategy, tag, rows)]
      ensures teams == RowTeams(old(teams), rows)
      ensures championships == old(championships)
      ensures strategies == old(strategies) && tags == old(tags)
    {
      assert DayWagers(date, competition, strategy, tag, rows[..0]) == [];
      assert old(months)[m] + [] == old(months)[m];
      for i := 0 to |rows|
        invariant Valid()
        invariant months == old(months)[m := old(months)[m] + DayWagers(date, competition, strategy, tag, rows[..i])]
        invariant teams == RowTeams(old(teams), rows[..i])
        invariant championships == old(championships)
        invariant strategies == old(strategies) && tags == old(tags)
      {
        DayWagersStep(date, competition, strategy, tag, rows, i);
        RowTeamsStep(old(teams), rows, i);
        ghost var before := DayWagers(date, competition, strategy, tag, rows[..i]);
        ghost var added := if Kept(rows[i]) then [WagerOf(date, competition, strategy, tag, rows[i])] else [];
        UpdateAppend(old(months), m, old(months)[m], before, added);
        AddDayLine(m, date, competition, strategy, tag, rows[i]);
      }
      assert rows[..|rows|] == rows;
    }

    /** One line of the save loop: a line with both teams registers its
        teams and becomes a wager at the end of month `m`; any other line
        changes nothing. */
    method AddDayLine(m: nat, date: Date, competition: string, strategy: string, tag: string,
                      row: GameRow)
      requires Valid() && m < MonthCount
      modifies this
      ensures Valid()
      ensures months == old(months)[m := old(months)[m]
                + (if Kept(row) then [WagerOf(date, competition, strategy, tag, row)] else [])]
      ensures teams == if Kept(row) then AutoAdd(AutoAdd(old(teams), row.home), row.away) else old(teams)
      ensures championships == old(championships)
      ensures strategies == old(strategies) && tags == old(tags)
    {
      if row.home != "" && row.away != "" {
        AutoAddTeam(row.home);
        AutoAddTeam(row.away);
        var w := WagerOf(date, competition, strategy, tag, row);
        AppendConsistent(months, m, w);
        months := months[m := months[m] + [w]];
      } else {
        assert old(months)[m] + [] == old(months)[m];
      }
    }

    /** Update button of the game editor: competition and teams are
        stripped and `% Stake` is recomputed; nothing is checked, no team
        is registered and no game count is refreshed. */
    method EditWager(m: nat, index: nat, date: Date, competition: string, home: string, away: string,
                     strategy: string, tag: string, stake: real, profitLoss: real)
      requires Valid() && m < MonthCount && index < |months[m]|
      modifies this
      ensures Valid()
      ensures months == old(months)[m := old(months)[m][index :=
                NewWager(date, Strip(competition), Strip(home), Strip(away), strategy, tag, stake, profitLoss)]]
      ensures teams == old(teams) && championships == old(championships)
      ensures strategies == old(strategies) && tags == old(tags)
    {
      var w := NewWager(date, Strip(competition), Strip(home), Strip(away), strategy, tag, stake, profitLoss);
      ReplaceConsistent(months, m, index, w);
      months := months[m := months[m][index := w]];
    }

    /** Remove button of the game editor. */
    method DeleteWager(m: nat, index: nat)
      requires Valid() && m < MonthCount && index < |months[m]|
      modifies this
      ensures Valid()
      ensures months == old(months)[m := RemoveAt(old(months)[m], index)]
      ensures teams == old(teams) && championships == old(championships)
      ensures strategies == old(strategies) && tags == old(tags)
    {
      RemoveConsistent(months, m, index);
      months := months[m := RemoveAt(months[m], index)];
    }
  }

  /** Appending, overwriting with or removing a wager keeps the ledger
      consistent when the new wager is. */
  lemma AppendConsistent(ms: seq<seq<Wager>>, m: nat, w: Wager)
    requires LedgerConsistent(ms) && m < |ms| && Consistent(w)
    ensures LedgerConsistent(ms[m := ms[m] + [w]])
  {
    var r := ms[m := ms[m] + [w]];
    forall k, i | 0 <= k < |r| && 0 <= i < |r[k]| ensures Consistent(r[k][i]) {
      if k == m && i == |ms[m]| {
        assert r[k][i] == w;
      } else {
        assert r[k][i] == ms[k][i];
      }
    }
  }

  lemma ReplaceConsistent(ms: seq<seq<Wager>>, m: nat, index: nat, w: Wager)
    requires LedgerConsistent(ms) && m < |ms| && index < |ms[m]| && Consistent(w)
    ensures LedgerConsistent(ms[m := ms[m][index := w]])
  {
    var r := ms[m := ms[m][index := w]];
    forall k, i | 0 <= k < |r| && 0 <= i < |r[k]| ensures Consistent(r[k][i]) {
      if k == m && i == index {
        assert r[k][i] == w;
      } else {
        assert r[k][i] == ms[k][i];
      }
    }
  }

  lemma RemoveConsistent(ms: seq<seq<Wager>>, m: nat, index: nat)
    requires LedgerConsistent(ms) && m < |ms| && index < |ms[m]|
    ensures LedgerConsistent(ms[m := RemoveAt(ms[m], index)])
  {
    var r := ms[m := RemoveAt(ms[m], index)];
    forall k, i | 0 <= k < |r| && 0 <= i < |r[k]| ensures Consistent(r[k][i]) {
      if k == m && i >= index {
        assert r[k][i] == ms[k][i + 1];
      } else {
        assert r[k][i] == ms[k][i];
      }
    }
  }

  /** The rename cascade keeps every wager consistent. */
  lemma RenameConsistent(ms: seq<seq<Wager>>, dim: Dimension, from: string, to: string)
    requires LedgerConsistent(ms) && Cascades(dim)
    ensures LedgerConsistent(RenameInLedger(ms, dim, from, to))
  {
    var r := RenameInLedger(ms, dim, from, to);
    forall k, i | 0 <= k < |r| && 0 <= i < |r[k]| ensures Consistent(r[k][i]) {
      assert Consistent(ms[k][i]);
    }
  }

  /** The game editor as written preselects the wager's strategy and tag
      by their positions in the strategy registry and the tag list, and
      fails when either is missing; its update and remove buttons come
      after that lookup, so neither is reached then. */
  predicate EditorOpens(w: Wager, strategies: seq<Strategy>, tags: seq<string>) {
    w.strategy in StrategyNames(strategies) && w.tag in tags
  }

  /** The update button as written: the game is replaced only when the
      editor opens on it. */
  function EditWagerAsWritten(ms: seq<seq<Wager>>, m: nat, index: nat, w: Wager,
                              strategies: seq<Strategy>, tags: seq<string>): (r: seq<seq<Wager>>)
    requires m < |ms| && index < |ms[m]|
    ensures EditorOpens(ms[m][index], strategies, tags) ==> r == ms[m := ms[m][index := w]]
    ensures !EditorOpens(ms[m][index], strategies, tags) ==> r == ms
  {
    if EditorOpens(ms[m][index], strategies, tags) then ms[m := ms[m][index := w]] else ms
  }

  /** The remove button as written: the game goes only when the editor
      opens on it. */
  function DeleteWagerAsWritten(ms: seq<seq<Wager>>, m: nat, index: nat,
                                strategies: seq<Strategy>, tags: seq<string>): (r: seq<seq<Wager>>)
    requires m < |ms| && index < |ms[m]|
    ensures EditorOpens(ms[m][index], strategies, tags) ==> r == ms[m := RemoveAt(ms[m], index)]
    ensures !EditorOpens(ms[m][index], strategies, tags) ==> r == ms
  {
    if EditorOpens(ms[m][index], strategies, tags) then ms[m := RemoveAt(ms[m], index)] else ms
  }

  /** Renaming the strategy of a wager (the rename does not rewrite the
      wagers) locks that wager: the editor no longer opens on it, so it can
      be neither updated nor removed. */
  lemma RenamedStrategyLocksWager(ms: seq<seq<Wager>>, m: nat, index: nat, w: Wager,
                                  strategies: seq<Strategy>, tags: seq<string>,
                                  k: nat, newName: string, newDescription: string)
    requires m < |ms| && index < |ms[m]| && k < |strategies|
    requires NoDup(StrategyNames(strategies)) && ms[m][index].strategy == strategies[k].name
    requires newName != strategies[k].name
    ensures var renamed := strategies[k := Strategy(newName, newDescription)];
      && !EditorOpens(ms[m][index], renamed, tags)
      && EditWagerAsWritten(ms, m, index, w, renamed, tags) == ms
      && DeleteWagerAsWritten(ms, m, index, renamed, tags) == ms
  {
    var names := StrategyNames(strategies);
    var renamed := strategies[k := Strategy(newName, newDescription)];
    forall j | 0 <= j < |renamed| ensures renamed[j].name != strategies[k].name {
      if j != k {
        assert names[j] != names[k];
      }
    }
  }

  /** Removing the tag of a wager locks that wager in the same way. */
  lemma RemovedTagLocksWager(ms: seq<seq<Wager>>, m: nat, index: nat, w: Wager,
                             strategies: seq<Strategy>, tags: seq<string>)
    requires m < |ms| && index < |ms[m]|
    requires NoDup(tags) && ms[m][index].tag in tags
    ensures var removed := RemoveTag(tags, ms[m][index].tag);
      && !EditorOpens(ms[m][index], strategies, removed)
      && EditWagerAsWritten(ms, m, index, w, strategies, removed) == ms
      && DeleteWagerAsWritten(ms, m, index, strategies, removed) == ms
  {
  }
}
