/** Referential integrity between the registries and the month tables:
    the rename cascade of teams (into Casa and Visitante) and championships
    (into Competição), and the in-use test that guards their deletion.
    Strategy and tag renames do not cascade, so only the first two
    dimensions have a cascade here. */
module Integrity {
  import opened Wagers
  import opened Aggregation

  /** The dimensions whose renames rewrite the wagers. */
  predicate Cascades(dim: Dimension) {
    dim == ByTeam || dim == ByChampionship
  }

  /** One wager after renaming `from` to `to`: a team rename rewrites Casa
      and Visitante independently, a championship rename rewrites
      Competição. */
  function RenameInWager(w: Wager, dim: Dimension, from: string, to: string): (r: Wager)
    requires Cascades(dim)
    ensures !Selects(Filter(dim, from), w) ==> r == w
    ensures Selects(Filter(dim, from), w) ==> Selects(Filter(dim, to), r)
    ensures r.date == w.date && r.stake == w.stake && r.profitLoss == w.profitLoss
    ensures r.strategy == w.strategy && r.tag == w.tag
  {
    if dim == ByTeam then
      w.(home := if w.home == from then to else w.home,
         away := if w.away == from then to else w.away)
    else
      w.(competition := if w.competition == from then to else w.competition)
  }

  /** One month table after the rename (the masked column assignment). */
  function RenameIn(ws: seq<Wager>, dim: Dimension, from: string, to: string): (r: seq<Wager>)
    requires Cascades(dim)
    ensures |r| == |ws|
    ensures forall i :: 0 <= i < |r| && !Selects(Filter(dim, from), ws[i]) ==> r[i] == ws[i]
    ensures forall i :: 0 <= i < |r| && Selects(Filter(dim, from), ws[i]) ==> Selects(Filter(dim, to), r[i])
  {
    seq(|ws|, i requires 0 <= i < |ws| => RenameInWager(ws[i], dim, from, to))
  }

  /** The whole ledger after the rename: every cell of the renamed column
      (Casa and Visitante for a team, Competição for a championship) that
      held the old name holds the new one, every other cell is unchanged;
      so every wager that referenced the old name references the new one
      and every other wager is unchanged. */
  function RenameInLedger(ms: seq<seq<Wager>>, dim: Dimension, from: string, to: string)
    : (r: seq<seq<Wager>>)
    requires Cascades(dim)
    ensures |r| == |ms|
    ensures forall k :: 0 <= k < |ms| ==> |r[k]| == |ms[k]|
    ensures forall k, i :: 0 <= k < |ms| && 0 <= i < |ms[k]| ==>
              var w, v := ms[k][i], r[k][i];
              && (Selects(Filter(dim, from), w) ==> Selects(Filter(dim, to), v))
              && (!Selects(Filter(dim, from), w) ==> v == w)
              && v.competition == (if dim == ByChampionship && w.competition == from then to else w.competition)
              && v.home == (if dim == ByTeam && w.home == from then to else w.home)
              && v.away == (if dim == ByTeam && w.away == from then to else w.away)
              && v.date == w.date && v.strategy == w.strategy && v.tag == w.tag
              && v.stake == w.stake && v.profitLoss == w.profitLoss
              && v.stakePercent == w.stakePercent
    ensures forall k, i :: 0 <= k < |ms| && 0 <= i < |ms[k]| && from != to ==>
              !Selects(Filter(dim, from), r[k][i])
  {
    seq(|ms|, k requires 0 <= k < |ms| => RenameIn(ms[k], dim, from, to))
  }

  /** Some row of one month table references the name (the `in .values`
      test on the month's columns). */
  predicate MonthReferences(ws: seq<Wager>, f: Filter) {
    exists i :: 0 <= i < |ws| && Selects(f, ws[i])
  }

  /** Some wager of some month references the name. */
  predicate Referenced(ms: seq<seq<Wager>>, f: Filter) {
    exists k :: 0 <= k < |ms| && MonthReferences(ms[k], f)
  }

  /** The in-use test of the delete buttons: scans the months and stops at
      the first one that references the name. */
  method FindInUse(months: seq<seq<Wager>>, f: Filter) returns (inUse: bool)
    ensures inUse <==> Referenced(months, f)
  {
    inUse := false;
    var k := 0;
    while k < |months|
      invariant 0 <= k <= |months|
      invariant forall j :: 0 <= j < k ==> !MonthReferences(months[j], f)
    {
      if MonthReferences(months[k], f) {
        inUse := true;
        break;
      }
      k := k + 1;
    }
  }

  /** A name is in use exactly when its statistics count some market, so
      the delete guard refuses exactly the names with a non-empty
      history. */
  lemma InUseIffCounted(ms: seq<seq<Wager>>, f: Filter)
    ensures Referenced(ms, f) <==> StatsOf(ms, f).markets > 0
  {
    ReferencedIffMatching(ms, f);
  }

  /** A name is referenced exactly when some wager matches it. */
  lemma {:induction false} ReferencedIffMatching(ms: seq<seq<Wager>>, f: Filter)
    ensures Referenced(ms, f) <==> Matching(ms, f) != []
  {
    if ms != [] {
      var init, last := ms[..|ms| - 1], ms[|ms| - 1];
      ReferencedIffMatching(init, f);
      MonthReferencesIffSelect(last, f);
      ReferencedSnoc(ms, f);
      assert Matching(ms, f) == Matching(init, f) + Select(last, f);
    }
  }

  /** A month references a name exactly when the name selects some of its
      rows. */
  lemma MonthReferencesIffSelect(ws: seq<Wager>, f: Filter)
    ensures MonthReferences(ws, f) <==> Select(ws, f) != []
  {
    if MonthReferences(ws, f) {
      var i :| 0 <= i < |ws| && Selects(f, ws[i]);
      assert ws[i] in Select(ws, f);
    }
    if Select(ws, f) != [] {
      var w := Select(ws, f)[0];
      var i :| 0 <= i < |ws| && ws[i] == w;
      assert Selects(f, ws[i]);
    }
  }

  /** The ledger references a name exactly when its earlier months or its
      last month do. */
  lemma ReferencedSnoc(ms: seq<seq<Wager>>, f: Filter)
    requires ms != []
    ensures Referenced(ms, f) <==> Referenced(ms[..|ms| - 1], f) || MonthReferences(ms[|ms| - 1], f)
  {
    var init := ms[..|ms| - 1];
    if Referenced(init, f) {
      var k :| 0 <= k < |init| && MonthReferences(init[k], f);
      assert ms[k] == init[k];
    }
    if Referenced(ms, f) && !MonthReferences(ms[|ms| - 1], f) {
      var k :| 0 <= k < |ms| && MonthReferences(ms[k], f);
      assert k < |init| && init[k] == ms[k];
    }
  }

  lemma RenameInConcat(a: seq<Wager>, b: seq<Wager>, dim: Dimension, from: string, to: string)
    requires Cascades(dim)
    ensures RenameIn(a + b, dim, from, to) == RenameIn(a, dim, from, to) + RenameIn(b, dim, from, to)
  {
  }

  /** A wager that did not reference the new name references it after the
      rename exactly when it referenced the old one. */
  lemma RenamedWagerSelects(w: Wager, dim: Dimension, from: string, to: string)
    requires Cascades(dim) && !Selects(Filter(dim, to), w)
    ensures Selects(Filter(dim, to), RenameInWager(w, dim, from, to)) <==> Selects(Filter(dim, from), w)
  {
  }

  /** In one month, the rows the new name selects after the rename are the
      renamed rows the old name selected before, provided no row already
      referenced the new name. */
  lemma {:induction false} SelectRenamed(ws: seq<Wager>, dim: Dimension, from: string, to: string)
    requires Cascades(dim)
    requires !MonthReferences(ws, Filter(dim, to))
    ensures Select(RenameIn(ws, dim, from, to), Filter(dim, to))
         == RenameIn(Select(ws, Filter(dim, from)), dim, from, to)
  {
    if ws != [] {
      var rest := ws[1..];
      assert !MonthReferences(rest, Filter(dim, to)) by {
        forall i | 0 <= i < |rest| ensures !Selects(Filter(dim, to), rest[i]) {
          assert rest[i] == ws[i + 1];
        }
      }
      SelectRenamed(rest, dim, from, to);
      var renamed := RenameIn(ws, dim, from, to);
      assert renamed[1..] == RenameIn(rest, dim, from, to);
      assert !Selects(Filter(dim, to), ws[0]);
      RenamedWagerSelects(ws[0], dim, from, to);
      var head := if Selects(Filter(dim, from), ws[0]) then [ws[0]] else [];
      assert renamed[0] == RenameInWager(ws[0], dim, from, to);
      var renamedHead := if Selects(Filter(dim, to), renamed[0]) then [renamed[0]] else [];
      assert renamedHead == RenameIn(head, dim, from, to);
      assert Select(renamed, Filter(dim, to)) == renamedHead + Select(renamed[1..], Filter(dim, to));
      assert Select(ws, Filter(dim, from)) == head + Select(rest, Filter(dim, from));
      RenameInConcat(head, Select(rest, Filter(dim, from)), dim, from, to);
    }
  }

  /** After a rename, no row of the month selects the old name (when it
      differs from the new one). */
  lemma {:induction false} SelectRenamedAway(ws: seq<Wager>, dim: Dimension, from: string, to: string)
    requires Cascades(dim) && from != to
    ensures Select(RenameIn(ws, dim, from, to), Filter(dim, from)) == []
  {
    if ws != [] {
      var renamed := RenameIn(ws, dim, from, to);
      assert renamed[1..] == RenameIn(ws[1..], dim, from, to);
      SelectRenamedAway(ws[1..], dim, from, to);
    }
  }

  /** Renaming keeps every stake and profit, so it keeps every sum. */
  lemma {:induction false} RenamedSums(ws: seq<Wager>, dim: Dimension, from: string, to: string)
    requires Cascades(dim)
    ensures var r := RenameIn(ws, dim, from, to);
      |r| == |ws| && StakeSum(r) == StakeSum(ws) && ProfitSum(r) == ProfitSum(ws)
      && GreenCount(r) == GreenCount(ws) && RedCount(r) == RedCount(ws)
  {
    if ws != [] {
      assert RenameIn(ws, dim, from, to)[1..] == RenameIn(ws[1..], dim, from, to);
      RenamedSums(ws[1..], dim, from, to);
    }
  }

  lemma {:induction false} MatchingRenamed(ms: seq<seq<Wager>>, dim: Dimension, from: string, to: string)
    requires Cascades(dim)
    requires !Referenced(ms, Filter(dim, to))
    ensures Matching(RenameInLedger(ms, dim, from, to), Filter(dim, to))
         == RenameIn(Matching(ms, Filter(dim, from)), dim, from, to)
    ensures from != to ==> Matching(RenameInLedger(ms, dim, from, to), Filter(dim, from)) == []
  {
    if ms != [] {
      var init, last := ms[..|ms| - 1], ms[|ms| - 1];
      var r := RenameInLedger(ms, dim, from, to);
      assert r[..|r| - 1] == RenameInLedger(init, dim, from, to);
      assert !Referenced(init, Filter(dim, to)) by {
        forall k | 0 <= k < |init| ensures !MonthReferences(init[k], Filter(dim, to)) {
          assert init[k] == ms[k];
        }
      }
      assert !MonthReferences(last, Filter(dim, to));
      MatchingRenamed(init, dim, from, to);
      SelectRenamed(last, dim, from, to);
      RenameInConcat(Matching(init, Filter(dim, from)), Select(last, Filter(dim, from)), dim, from, to);
      if from != to {
        SelectRenamedAway(last, dim, from, to);
      }
    }
  }

  /** A rename moves the whole history of the old name to the new one: the
      new name's statistics afterwards are the old name's statistics
      before, and the old name is left with none, provided the new name had
      no history of its own. */
  lemma RenameRedirectsStats(ms: seq<seq<Wager>>, dim: Dimension, from: string, to: string)
    requires Cascades(dim)
    requires !Referenced(ms, Filter(dim, to))
    ensures StatsOf(RenameInLedger(ms, dim, from, to), Filter(dim, to)) == StatsOf(ms, Filter(dim, from))
    ensures from != to ==> StatsOf(RenameInLedger(ms, dim, from, to), Filter(dim, from)) == NoStats
  {
    MatchingRenamed(ms, dim, from, to);
    RenamedSums(Matching(ms, Filter(dim, from)), dim, from, to);
  }
}
