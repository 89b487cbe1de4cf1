/** The registries of teams, championships and strategies, as values: the
    checks that decide whether an add or a rename goes ahead, the automatic
    add used when a wager names an unknown team or championship, and the
    game-count refresh of the championship registry. */
module Registry {
  import opened Wagers
  import opened Seqs
  import opened Aggregation

  /** The add check: an empty name is refused, a name already present is
      refused, anything else may be added. */
  function AddCheck(names: seq<string>, name: string): (r: Outcome)
    ensures r == Done <==> name != "" && name !in names
    ensures r == MissingField <==> name == ""
    ensures r == NameTaken <==> name != "" && name in names
  {
    if name == "" then MissingField
    else if name in names then NameTaken
    else Done
  }

  /** The rename check of teams and championships: an empty new name is
      refused, and so is a new name that differs from the selected one and
      is already present; keeping the same name is allowed. */
  function RenameCheck(names: seq<string>, selected: string, newName: string): (r: Outcome)
    ensures r == Done <==> newName != "" && (newName == selected || newName !in names)
    ensures r == MissingField <==> newName == ""
    ensures r == NameTaken <==> newName != "" && newName != selected && newName in names
  {
    if newName == "" then MissingField
    else if newName != selected && newName in names then NameTaken
    else Done
  }

  /** A rename the check lets through keeps the registry free of repeats:
      the selected entry is the only one holding the new name. */
  lemma RenameKeepsNoDup(names: seq<string>, selected: string, newName: string)
    requires NoDup(names) && "" !in names && selected in names
    requires RenameCheck(names, selected, newName) == Done
    ensures NoDup(names[FirstIndex(names, selected) := newName])
    ensures "" !in names[FirstIndex(names, selected) := newName]
    ensures newName in names[FirstIndex(names, selected) := newName]
    ensures newName != selected ==> selected !in names[FirstIndex(names, selected) := newName]
  {
    var k := FirstIndex(names, selected);
    ReplaceNoDup(names, k, newName);
    var r := names[k := newName];
    assert r[k] == newName;
    if newName != selected {
      forall j | 0 <= j < |r| ensures r[j] != selected {
        if j != k {
          assert names[j] != names[k];
        }
      }
    }
  }

  /** The automatic add: a non-empty name that is not yet present is
      appended; an empty or known name leaves the registry as it is. */
  function AutoAdd(names: seq<string>, name: string): (r: seq<string>)
    ensures name == "" || name in names ==> r == names
    ensures name != "" ==> name in r
    ensures |names| <= |r| <= |names| + 1 && r[..|names|] == names
    ensures forall i :: 0 <= i < |r| ==> r[i] in names || r[i] == name
    ensures NoDup(names) ==> NoDup(r)
  {
    if name != "" && name !in names then names + [name] else names
  }

  /** Adding the same name twice is adding it once. */
  lemma AutoAddIdempotent(names: seq<string>, name: string)
    ensures AutoAdd(AutoAdd(names, name), name) == AutoAdd(names, name)
  {
  }

  /** How the name columns follow an append, an overwrite and a removal
      of a registry row. */
  lemma ChampionshipNamesAppend(cs: seq<Championship>, c: Championship)
    ensures ChampionshipNames(cs + [c]) == ChampionshipNames(cs) + [c.name]
  {
  }

  lemma ChampionshipNamesUpdate(cs: seq<Championship>, k: nat, c: Championship)
    requires k < |cs|
    ensures ChampionshipNames(cs[k := c]) == ChampionshipNames(cs)[k := c.name]
  {
  }

  lemma ChampionshipNamesRemove(cs: seq<Championship>, k: nat)
    requires k < |cs|
    ensures ChampionshipNames(RemoveAt(cs, k)) == RemoveAt(ChampionshipNames(cs), k)
  {
  }

  lemma StrategyNamesAppend(ss: seq<Strategy>, s: Strategy)
    ensures StrategyNames(ss + [s]) == StrategyNames(ss) + [s.name]
  {
  }

  lemma StrategyNamesUpdate(ss: seq<Strategy>, k: nat, s: Strategy)
    requires k < |ss|
    ensures StrategyNames(ss[k := s]) == StrategyNames(ss)[k := s.name]
  {
  }

  /** The automatic add of a championship: a new name gets a row with the
      given season and zero games; an empty or known name leaves the
      registry as it is. */
  function WithChampionship(cs: seq<Championship>, name: string, season: string)
    : (r: seq<Championship>)
    ensures ChampionshipNames(r) == AutoAdd(ChampionshipNames(cs), name)
    ensures r[..|cs|] == cs
    ensures |r| == |cs| + 1 ==> r[|cs|] == Championship(name, season, 0)
  {
    if name != "" && name !in ChampionshipNames(cs) then
      var r := cs + [Championship(name, season, 0)];
      assert ChampionshipNames(r) == ChampionshipNames(cs) + [name];
      r
    else cs
  }

  /** The number of wagers whose competition is the championship, across
      all months. */
  function GameCount(ms: seq<seq<Wager>>, name: string): (r: nat)
    ensures r == |Select(Flatten(ms), Filter(ByChampionship, name))|
  {
    MatchingIsSelectOfAll(ms, Filter(ByChampionship, name));
    StatsOf(ms, Filter(ByChampionship, name)).markets
  }

  /** The registry with every cached game count recomputed from the
      ledger; names, seasons and order are kept. */
  function Refreshed(cs: seq<Championship>, ms: seq<seq<Wager>>): (r: seq<Championship>)
    ensures |r| == |cs| && ChampionshipNames(r) == ChampionshipNames(cs)
    ensures forall i :: 0 <= i < |cs| ==>
              r[i].name == cs[i].name && r[i].season == cs[i].season
              && r[i].games == |Matching(ms, Filter(ByChampionship, cs[i].name))|
  {
    seq(|cs|, i requires 0 <= i < |cs| => cs[i].(games := GameCount(ms, cs[i].name)))
  }

  /** Every cached game count agrees with the ledger. */
  predicate CountsCurrent(cs: seq<Championship>, ms: seq<seq<Wager>>) {
    forall i :: 0 <= i < |cs| ==> cs[i].games == GameCount(ms, cs[i].name)
  }

  /** After a refresh the counts are current, a second refresh changes
      nothing, and a championship has a non-zero count exactly when some
      wager references it (so exactly when its delete is refused). */
  lemma RefreshFacts(cs: seq<Championship>, ms: seq<seq<Wager>>)
    ensures CountsCurrent(Refreshed(cs, ms), ms)
    ensures Refreshed(Refreshed(cs, ms), ms) == Refreshed(cs, ms)
    ensures forall i :: 0 <= i < |cs| ==>
              (Refreshed(cs, ms)[i].games > 0 <==>
               exists k, j :: 0 <= k < |ms| && 0 <= j < |ms[k]| && ms[k][j].competition == cs[i].name)
  {
    var r := Refreshed(cs, ms);
    forall i | 0 <= i < |cs|
      ensures r[i].games > 0 <==>
              exists k, j :: 0 <= k < |ms| && 0 <= j < |ms[k]| && ms[k][j].competition == cs[i].name
    {
      var f := Filter(ByChampionship, cs[i].name);
      MatchingNonEmpty(ms, f);
    }
  }

  /** Some wager matches the slice exactly when the slice's wager list is
      not empty. */
  lemma {:induction false} MatchingNonEmpty(ms: seq<seq<Wager>>, f: Filter)
    ensures Matching(ms, f) != [] <==>
            exists k, j :: 0 <= k < |ms| && 0 <= j < |ms[k]| && Selects(f, ms[k][j])
  {
    if ms != [] {
      MatchingNonEmpty(ms[..|ms| - 1], f);
      SomeMatchStep(ms, f);
    }
  }

  /** A wager of the ledger matches when one of the earlier months holds a
      match or the last month's mask keeps a row. */
  lemma SomeMatchStep(ms: seq<seq<Wager>>, f: Filter)
    requires ms != []
    ensures var init, last := ms[..|ms| - 1], ms[|ms| - 1];
      (exists k, j :: 0 <= k < |ms| && 0 <= j < |ms[k]| && Selects(f, ms[k][j])) <==>
      (exists k, j :: 0 <= k < |init| && 0 <= j < |init[k]| && Selects(f, init[k][j])) || Select(last, f) != []
  {
    var init, last := ms[..|ms| - 1], ms[|ms| - 1];
    var picked := Select(last, f);
    if picked != [] {
      var j :| 0 <= j < |last| && last[j] == picked[0];
      assert ms[|ms| - 1][j] == last[j];
    }
    if exists k, j :: 0 <= k < |ms| && 0 <= j < |ms[k]| && Selects(f, ms[k][j]) {
      var k, j :| 0 <= k < |ms| && 0 <= j < |ms[k]| && Selects(f, ms[k][j]);
      if k < |init| {
        assert init[k][j] == ms[k][j];
      } else {
        assert last[j] in picked;
      }
    }
    if exists k, j :: 0 <= k < |init| && 0 <= j < |init[k]| && Selects(f, init[k][j]) {
      var k, j :| 0 <= k < |init| && 0 <= j < |init[k]| && Selects(f, init[k][j]);
      assert ms[k][j] == init[k][j];
    }
  }
}
