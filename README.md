# Betting ledger (PlanilhaTrading) in Dafny

This project models the core of a personal betting ledger. The ledger
holds four registries: teams (Equipas), championships (Campeonatos, with a
season and a cached game count), strategies (Estratégias) and tags. It
also holds twelve month tables of wagers. A wager records a date, a
competition, a home and an away team, a strategy, a tag, a stake, a
profit/loss and a `% Stake`.

The model has two parts.

- **Statistics engine.** These are side-effect-free scans of the month
  tables:
  - team, championship, strategy and tag statistics: markets, greens, reds,
    stake, profit and ROI;
  - the monthly performance table with its TOTAL row;
  - the daily rollup of one month page;
  - the "latest games" list of the panel.
- **State changes.** These are the page forms, written as methods of the
  class `Store.Ledger`:
  - add, rename and delete of teams, championships and strategies;
  - the rename cascades and the in-use guards;
  - the automatic registration of teams and championships;
  - the game-count refresh;
  - the tag list operations;
  - the day-entry form, and wager edit and delete.

Module layout:

- `Seqs` holds sequence helpers: no repeats, first index, removal,
  order-keeping distinct.
- `Text` is Python's `str.strip()`.
- `Wagers` holds the records, the month names, the percentage behind
  `% Stake` and the `!= 0`-guarded ROI, and the `> 0`-guarded ROI.
- `Aggregation` is the statistics engine.
- `Integrity` holds the rename cascades and the in-use test.
- `Monthly` holds the panel: the monthly table and the latest games.
- `Daily` is the month page's rollup.
- `Registry` holds the add and rename checks, the automatic adds and the
  game-count refresh, as values.
- `Entry` is the day-entry form, as values.
- `Tags` holds the tag list operations.
- `Labels` models the data-frame index labels behind the game editor.
- `Scenarios` holds worked examples.
- `Store` holds the `Ledger` class.

Money is `real`. A date is a day number. Counts are unbounded naturals.

## Model

| member | source | states |
|---|---|---|
| Seqs.FirstIndex | app.py:776 | the position found holds the element and no earlier position does (`list.index`) |
| Seqs.Distinct | app.py:818 | the names of `.unique()`: no repeats, nothing new, nothing lost |
| Seqs.DistinctInFirstOrder | app.py:818 | the names of `.unique()` come in the order of their first occurrence |
| Text.Strip | app.py:321 | the stripped text is never longer than the input; what stripping means is stated by Text.StripPiece, Text.StripEnds and Text.StripIdempotent |
| Text.StripPiece | app.py:321 | the stripped text is a contiguous piece of the input with only whitespace before and after it |
| Text.StripEnds | app.py:321 | the stripped text has no whitespace at either end, and is empty exactly when the input is all whitespace |
| Text.StripIdempotent | app.py:321 | stripping twice is stripping once |
| Wagers.PercentOf | app.py:1062 | `% Stake`, and the ROI of the month, TOTAL, strategy and tag figures, are 0 when the stake (total) is zero |
| Wagers.PercentOfScales | app.py:1062 | for a non-zero stake (total), the percentage times the stake is the profit times 100 |
| Wagers.PercentStakeLossBound | app.py:1062 | a loss no larger than a positive stake gives `% Stake` of at least -100 |
| Wagers.RoiIfPositive | app.py:155-156 | ROI is 0 for a stake total that is not positive |
| Wagers.RoiIfPositiveScales | app.py:155-156 | for a positive stake total, ROI times the stake is the profit times 100, and ROI is non-negative exactly when the profit is |
| Wagers.NewWager | app.py:1054-1063 | the wager carries the given fields and a `% Stake` consistent with its stake and profit |
| Aggregation.Select | app.py:174 | the rows kept are matching rows of the month, and every matching row of the month is kept |
| Aggregation.StakeSum | app.py:146-150 | the Stake column summed over the rows kept; its properties are stated by Aggregation.StakeSumNonNegative, Aggregation.SumsOfConcat and the lemmas on renames and removals |
| Aggregation.ProfitSum | app.py:146-151 | the Profit/Loss column summed over the rows kept; its properties are stated by Aggregation.ProfitSumSign and Aggregation.SumsOfConcat |
| Aggregation.StakeSumNonNegative | app.py:150 | stakes that are never negative sum to a stake total that is not negative |
| Aggregation.ProfitSumSign | app.py:151-153 | rows that are all green sum to no loss; at least one row, all red, sums to a loss |
| Aggregation.GreenCount | app.py:152 | the greens counted are at most the rows kept |
| Aggregation.RedCount | app.py:153 | the reds counted are at most the rows kept |
| Aggregation.SelectCounts | app.py:174-176 | the mask keeps each matching row as many times as it occurs in the month and no other row, so `len` of the masked table counts the matching rows |
| Aggregation.GreensRedsPartition | app.py:146-153 | greens (profit >= 0) and reds (profit < 0) add up to the rows counted |
| Aggregation.SumsOfConcat | app.py:173-180 | the sums and counts accumulated month by month equal those of all the rows together |
| Aggregation.Matching | app.py:172-174 | every wager collected across the months matches the slice |
| Aggregation.MatchingIsSelectOfAll | app.py:172-174 | collecting month by month is masking all wagers of the ledger, month after month, at once |
| Aggregation.MatchingCounts | app.py:172-180 | the slice collects each matching wager of the ledger as many times as it occurs there and no other wager, so its market count is the number of matching wagers |
| Aggregation.Roi | app.py:182-183 | ROI is 0 for teams and championships when the stake total is not positive, and for strategies and tags when it is zero |
| Aggregation.RoiScales | app.py:182-183 | when the slice's guard lets the stake total divide, ROI times the stake is the profit times 100 |
| Aggregation.StatsOf | app.py:135-159 | greens + reds = markets; ROI is 0 when the slice's guard does not let the stake total divide |
| Aggregation.StatsOfRoi | app.py:155-156 | when the guard lets the slice's stake total divide, its ROI times its stake is its profit times 100 |
| Aggregation.CollectStats | app.py:162-186 | the month-by-month accumulation loop computes exactly the slice's statistics |
| Aggregation.StatsTable | app.py:895-916 | one row per name, in order, each holding that name's statistics |
| Aggregation.StrategyTable | app.py:818-841 | one row per distinct registered strategy name, in order of first appearance in the registry: no name twice, every registered strategy present, every row's name registered, each holding its statistics |
| Aggregation.TagTable | app.py:893-916 | one row per tag of the list, in list order, each holding that tag's statistics |
| Aggregation.RemovedSums | app.py:1166-1168 | deleting a wager lowers the month's stake and profit sums by exactly its stake and profit |
| Aggregation.ReplacedSums | app.py:1149-1159 | editing a wager replaces its stake and profit in the month's sums by the new ones |
| Aggregation.GuardsAgreeOnPositiveStakes | app.py:155-156 | with the positive stakes the forms enforce, the stake total is positive exactly when some wager matches, and the `> 0` and `!= 0` guards give the same ROI |
| Integrity.RenameInWager | app.py:372-375 | for the team cascade here and the championship cascade at app.py:536: a wager that does not reference the old name is unchanged; one that does references the new name; date, stake, profit, strategy and tag never change |
| Integrity.RenameIn | app.py:372-375 | one month after the team cascade here or the championship cascade at app.py:536: same length, every wager that did not reference the old name unchanged, every one that did now referencing the new name |
| Integrity.RenameInLedger | app.py:372-375 | after the cascade every cell of the renamed column (Casa and Visitante for a team, Competição for a championship) that held the old name holds the new one and every other cell is unchanged; so every wager that referenced the old name references the new one, every other wager is unchanged, and none references the old name any more |
| Integrity.FindInUse | app.py:384-390 | the scan reports in use exactly when some wager of some month references the name |
| Integrity.InUseIffCounted | app.py:544-549 | a name is in use exactly when its statistics count at least one market |
| Integrity.ReferencedIffMatching | app.py:384-390 | a name is referenced by some wager exactly when its statistics slice collects some wager |
| Integrity.RenameRedirectsStats | app.py:362-375 | after a rename the new name's statistics equal the old name's statistics before it, and the old name has none, when the new name had no wagers of its own |
| Registry.AddCheck | app.py:323-327 | an empty name is refused as missing, an existing one as taken, anything else is accepted |
| Registry.RenameCheck | app.py:361-366 | an empty new name is refused; a new name held by another entry is refused; keeping the same name is accepted |
| Registry.RenameKeepsNoDup | app.py:361-369 | an accepted rename keeps the registry free of repeats and of the empty name, and the old name leaves it |
| Registry.AutoAdd | app.py:200-208 | an empty or known name leaves the registry unchanged; otherwise the name is appended and nothing else changes; no repeats are introduced |
| Registry.AutoAddIdempotent | app.py:200-202 | adding the same name twice is adding it once |
| Registry.WithChampionship | app.py:211-223 | the automatic championship add changes the name column exactly as the automatic add; a new row has the current season and zero games |
| Registry.GameCount | app.py:146-148 | a championship's game count, stored by the refresh at app.py:193-195, is the number of wagers of the whole ledger whose competition is that name |
| Registry.Refreshed | app.py:189-195 | names, seasons and order are kept; each game count is the number of wagers of that competition across all months |
| Registry.RefreshFacts | app.py:189-195 | after a refresh every count agrees with the ledger, a second refresh changes nothing, and a count is non-zero exactly when some wager is of that competition |
| Monthly.MonthRow | app.py:243-253 | a month row carries the month's name; its ROI is 0 for a zero stake, and otherwise the ROI times the stake is the profit times 100 |
| Monthly.MonthRows | app.py:242-253 | there are at most as many month rows as months |
| Monthly.TotalRow | app.py:258-264 | the TOTAL row is labelled TOTAL; its ROI is 0 for a zero stake total, and otherwise the ROI times the stake total is the profit total times 100 |
| Monthly.PerformanceTable | app.py:239-264 | the table has at least the TOTAL row and at most one row more than there are months, and its last row is labelled TOTAL |
| Monthly.MonthRowsCount | app.py:242-244 | there is one month row per non-empty month |
| Monthly.MonthRowAt | app.py:242-254 | the row of each non-empty month comes right after the rows of the non-empty months before it; with the count, one row per non-empty month in calendar order |
| Monthly.MonthRowsAreMonths | app.py:242-254 | every month row is the row of a non-empty month, under that month's name, with its sums and its guarded ROI |
| Monthly.MonthRowsSums | app.py:256-257 | the month rows' stakes and profits add up to the sums over every wager |
| Monthly.NoMonthIsTotal | app.py:112-115 | no month is named TOTAL |
| Monthly.TotalRowFacts | app.py:258-264 | the TOTAL row exists even for an empty ledger, comes last and only last, holds the sums of the rows before it, and its ROI is the guarded percentage of those sums |
| Monthly.MonthlyPerformance | app.py:239-264 | the loop builds exactly the month rows followed by the TOTAL row |
| Monthly.InsertByDate | app.py:300 | inserting keeps the wagers (as a multiset) and keeps them newest first |
| Monthly.SortByDate | app.py:300 | the sort is a permutation and orders the wagers newest first |
| Monthly.RecentGames | app.py:294-300 | the list holds five wagers, or every wager of the ledger when there are fewer |
| Monthly.RecentGamesFacts | app.py:294-300 | the list holds min(5, all) wagers from the ledger, newest first, and no wager left out is newer than one shown |
| Monthly.NewestFirstPrefix | app.py:300 | the first n wagers of a newest-first list are newest first, come from the list, and no wager after them is newer than one of them |
| Daily.DailyRollup | app.py:1210-1221 | the month's ROI is 0 for a zero stake total, and otherwise the ROI times the stake total is the profit total times 100 |
| Daily.DaysSplit | app.py:1211-1212 | every day falls on exactly one side: green when its summed profit is >= 0, red otherwise |
| Daily.DistinctDates | app.py:1210 | the days listed are exactly the dates of the month, without repeats |
| Daily.DailyRollupFacts | app.py:1210-1221 | days worked = distinct dates; green days = dates whose sum is >= 0, red days = dates whose sum is < 0, and together they are the days worked; green and red markets split the month's wagers; days worked is 0 exactly for an empty month |
| Entry.Kept | app.py:1071 | a form line is saved exactly when both its team fields are filled in |
| Entry.WagerOf | app.py:1054-1063 | a form line becomes a wager with a consistent `% Stake` |
| Entry.DayWagers | app.py:1070-1082 | every appended wager has both teams, the form's date, competition, strategy and tag, and a consistent `% Stake`; at most one per line |
| Entry.DayWagersAt | app.py:1070-1082 | the wager of each kept line comes right after the wagers of the kept lines before it; with the count, the month receives the wagers of exactly the kept lines, in line order |
| Entry.DayWagersCount | app.py:1071 | exactly one wager per line with both teams filled in |
| Entry.DayWagersComplete | app.py:1070-1082 | with every line complete, the month receives one wager per line, in line order, with that line's teams, stake and profit |
| Entry.RowTeams | app.py:1072-1073 | the automatic adds only append, introduce no repeats and never register the empty name |
| Entry.RowTeamsFacts | app.py:1072-1073 | after the adds both teams of every saved line are registered, and every registered team was already registered or comes from a saved line |
| Labels.Numbered | app.py:1076-1082 | the renumbering append leaves labels equal to positions |
| Labels.AppendGame | app.py:1075-1081 | appending renumbers the table and adds the wager at the end |
| Labels.LastWith | app.py:59-104 | the position found is the last row written under that key |
| Labels.Reloaded | app.py:59-104 | a table read back from the file has one row per key, in the order the keys first occur, each labelled with its key as text and holding the game of the last row written under that key |
| Labels.ReloadKeepsGames | app.py:59-104 | a table whose rows are written under distinct keys reads back with the same games in the same order, every label held as text |
| Labels.ReloadNumbered | app.py:59-67 | a renumbered table reads back as its games labelled "0", "1", ... in order |
| Labels.ReloadMergesKey | app.py:59-104 | rows labelled "0", "1" and 0 read back as two rows, key 0 holding the game of the row labelled 0 |
| Labels.SecondReloadOverwritesFirst | app.py:1150-1159 | with the file round trip of app.py:59-104: games a, b saved and read back, a edited to w, then saved and read back again: the month holds w, b, so the edit has overwritten a one save later |
| Labels.DropGame | app.py:1167-1168 | deleting removes that game and keeps every other row's label |
| Labels.KeyIndex | app.py:1150 | the label lookup finds the first row holding the label, or reports that none does |
| Labels.WriteAtKey | app.py:1150-1159 | a label write overwrites the first row holding the label and keeps every other row, or appends a row with that label when none holds it |
| Labels.EditGame | app.py:1150-1159 | editing replaces exactly the game at the chosen position and keeps every label |
| Labels.EditGameAsWritten | app.py:1150-1159 | the edit as written replaces the chosen game while labels equal positions, and appends the edited game when no row carries the position as a number label |
| Labels.EditAgreesWhenContiguous | app.py:1150-1159 | while labels equal positions, the edit as written is that edit |
| Labels.EditAfterDropOverwritesAnother | app.py:1150-1159 | after a delete, editing the game listed second overwrites the game listed first |
| Labels.EditAfterDropAddsRow | app.py:1150-1159 | after a delete, editing the only game leaves it unchanged and adds a row |
| Labels.EditAfterReloadAddsRow | app.py:1150-1159 | once the table is read back from the file, editing any game leaves every game as read back and adds the edited game as a new last row, where the intended edit replaces the chosen game |
| Tags.DefaultTagsWellFormed | app.py:124 | the four default tags are distinct and non-empty |
| Tags.AddTagAsWritten | app.py:740-746 | the add as written: empty input is refused as missing, input found as typed is refused as taken, anything else is accepted and appends one tag; a refusal leaves the list unchanged |
| Tags.AddTagAsWrittenDuplicates | app.py:741-746 | an existing tag typed with a leading space is accepted and stored a second time |
| Tags.AddNormalTwice | app.py:741-746 | on a new ledger, " Normal" adds a second "Normal" |
| Tags.AddTagAsWrittenEmpty | app.py:741-746 | text made of spaces is accepted and stored as the empty tag |
| Tags.AddTag | app.py:740-746 | the outcome is the add check of the stripped text; when accepted the stripped text is appended, otherwise nothing changes; no repeats and no empty tag are introduced |
| Tags.RenameTagAsWritten | app.py:770-777 | the rename as written: empty input is refused as missing, input found as typed and other than the selected tag is refused as taken; a refusal leaves the list unchanged, and only the selected tag's slot can change |
| Tags.RenameTagAsWrittenDuplicates | app.py:771-777 | renaming a tag to another existing tag typed with a leading space is accepted and leaves that tag twice in the list |
| Tags.RenameOntoExisting | app.py:771-777 | renaming "A" to " B" in ["A", "B"] is accepted and leaves ["B", "B"] |
| Tags.RenameTag | app.py:770-777 | the outcome is the rename check of the stripped text; when accepted the selected tag is replaced at its index, otherwise nothing changes; no repeats and no empty tag are introduced |
| Tags.RemoveTag | app.py:783-784 | the first occurrence of the selected tag goes and the other tags keep their order; in a repeat-free list exactly the selected tag goes |
| Scenarios.FirstWagerFacts | app.py:1062 | the example wagers get `% Stake` -100 and 100 |
| Scenarios.OneLossTeamStats | app.py:162-186 | one losing January wager gives the team 1 market, 0 greens, 1 red, stake 10, profit -10, ROI -100 |
| Scenarios.TwoGamesChampionshipStats | app.py:135-159 | adding a winning wager gives the championship 2 games, 1 green, 1 red, stake 15, profit -5, ROI -100/3 |
| Scenarios.BreakEvenIsGreen | app.py:152-153 | a zero-profit wager is a green, not a red |
| Store.Ledger.constructor | app.py:110-131 | a first start has empty registries, the four default tags and twelve empty months |
| Store.Ledger.AddTeam | app.py:321-336 | the stripped name is checked; when accepted it is appended; nothing else changes |
| Store.Ledger.AutoAddTeam | app.py:200-208 | the team registry becomes the automatic add of the name |
| Store.Ledger.RenameInMonths | app.py:372-375 | every month table becomes its cascaded rename |
| Store.Ledger.RenameTeam | app.py:356-375 | the outcome is the rename check; when accepted the selected team is renamed at its index and the cascade rewrites Casa and Visitante; otherwise nothing changes |
| Store.Ledger.DeleteTeam | app.py:382-396 | refused (nothing changes) exactly when some wager references the team; otherwise exactly that entry is removed |
| Store.Ledger.AddChampionship | app.py:475-495 | stripped name and season; without a season nothing is saved; otherwise the add check decides and a new row has zero games |
| Store.Ledger.AutoAddChampionship | app.py:985-986 | the championship registry becomes the automatic championship add |
| Store.Ledger.RenameChampionship | app.py:522-536 | the outcome is the rename check; when accepted name and season change at that index, the games count stays and the cascade rewrites Competição |
| Store.Ledger.DeleteChampionship | app.py:543-554 | refused exactly when some wager is of that competition; otherwise exactly that entry is removed |
| Store.Ledger.RefreshGameCounts | app.py:189-195 | the championship registry becomes its refresh against the month tables |
| Store.Ledger.AddStrategy | app.py:643-666 | the name as typed is checked; when accepted the strategy is appended |
| Store.Ledger.RenameStrategy | app.py:694-702 | only an empty name is refused; otherwise name and description change at that index, with no duplicate check and no cascade |
| Store.Ledger.DeleteStrategy | app.py:705-709 | the first strategy of that name is removed, with no in-use guard |
| Store.Ledger.AddTag | app.py:740-746 | the tag list and outcome are those of the corrected tag add |
| Store.Ledger.RenameTag | app.py:770-777 | the tag list and outcome are those of the corrected tag rename |
| Store.Ledger.RemoveTag | app.py:783-784 | the tag list loses the first occurrence of the selected tag |
| Store.Ledger.AddDayWagers | app.py:1068-1087 | without a competition nothing changes; otherwise the month gains the form's wagers in order, the teams of the saved lines are registered and the game counts are refreshed |
| Store.Ledger.SaveDayLines | app.py:1070-1082 | the line loop appends the form's wagers to the month in line order and registers the teams of the saved lines; no registry other than teams changes |
| Store.Ledger.AddDayLine | app.py:1071-1082 | a line with both teams registers home then away and appends its wager to the month; any other line changes nothing |
| Store.Ledger.EditWager | app.py:1149-1159 | the game at the position is replaced by the stripped, recomputed wager; nothing else changes |
| Store.Ledger.DeleteWager | app.py:1166-1168 | the game at the position is removed; nothing else changes |
| Store.EditorOpens | app.py:1123-1132 | the game editor builds its form only when the game's strategy is registered and its tag is listed |
| Store.EditWagerAsWritten | app.py:1123-1159 | the update as written replaces the game only when its strategy is registered and its tag listed, and otherwise changes nothing |
| Store.DeleteWagerAsWritten | app.py:1123-1168 | the remove as written drops the game only when its strategy is registered and its tag listed, and otherwise changes nothing |
| Store.RenamedStrategyLocksWager | app.py:694-702 | after the strategy of a wager is renamed, the editor no longer opens on that wager, so it can be neither updated nor removed |
| Store.RemovedTagLocksWager | app.py:783-784 | after the tag of a wager is removed, that wager can be neither updated nor removed |

Every method of `Store.Ledger` requires and preserves `Valid()`. It says
there are twelve months, and that team, championship and tag names are
non-empty and unrepeated. Strategy names are non-empty. Every wager's
`% Stake` agrees with its stake and profit.

## Left out

- JSON load and save are not modelled (app.py:38-106) beyond what they
  do to a month table's index labels (`Labels.Reloaded`). This covers the
  five-key check, the date conversion and the save after every change;
  they are file I/O.
- Not modelled: the Streamlit widgets, the charts, the currency and
  percent formatting, and `convert_numpy_types`. They are presentation
  only.
- Floating point is not modelled. Money is `real`, so the sums are exact.
- Dates are day numbers. The date of the day-entry form is always set
  (`date_input` with a default), so only the competition half of its
  check is modelled.
- The competition select box yields nothing when the championship
  registry is empty. The model passes the empty string instead.
- When no strategy is registered, the strategy select box shows a
  placeholder text. The model takes the strategy as any string.
- The season of an automatically added championship is the current year,
  which comes from the clock. It is a parameter here. The source stores it
  as a number, while the add form stores text; the model stores text for
  both.
- The `Equipa` and `Tags` columns of the strategy registry are never
  read, so they are not modelled.
- `Aggregation.StrategyTable`: its rows also carry a market count, which
  the source's table does not show.
- Not modelled: the choice of the game to edit through its display
  string (app.py:1099-1112), which picks the first game with identical
  text. Edit and delete take a position.
- `Store.Ledger` keeps each month as a plain sequence, so its edit is the
  corrected positional edit. Index labels, and their conversion to text
  by the file round trip, are modelled only in `Labels`.
- Store.Ledger.EditWager: edits any game, where the page as written
  fails before its buttons when the game's strategy is not registered or
  its tag not listed (app.py:1123-1132); that behaviour is
  `Store.EditWagerAsWritten`, listed under Findings.
- Store.Ledger.DeleteWager: removes any game, where the page as written
  cannot reach its remove button for such a game; that behaviour is
  `Store.DeleteWagerAsWritten`, listed under Findings.
- `Monthly.RecentGames`: the source's sort does not fix the order of
  equal dates. The model keeps ledger order among them, and
  `Monthly.RecentGamesFacts` states only what holds whatever that order.
- Cached game counts can go stale. They are refreshed when the panel or
  the championship page is shown (app.py:228, app.py:466) and after a day
  entry. A wager edit, delete or rename leaves them stale, so
  `Store.Ledger.Valid` does not require them to be current;
  `Store.Ledger.RefreshGameCounts` is the refresh.
- Tag and strategy renames do not rewrite the wagers, as in the source.
- Strategy deletion has no in-use guard, as in the source.
- The stake fields of the forms have a minimum of 0.01. The methods do
  not require positive stakes.
  `Aggregation.GuardsAgreeOnPositiveStakes` states what follows when all
  stakes are positive.
- The championship delete drops its row without renumbering the
  registry's labels. Nothing later writes the registry by position, so
  it is modelled as a plain removal.

## Findings

| source | as written | input that shows it | evidently intended | confidence | as-written member | corrected member |
|---|---|---|---|---|---|---|
| app.py:740-746 | the empty and duplicate checks look at the text as typed; the list receives the stripped text | tags ["Normal"], input " Normal": accepted, the list becomes ["Normal", "Normal"]; input "  ": accepted, the empty tag is stored | check the stripped text | not executed; high | Tags.AddTagAsWrittenDuplicates | Tags.AddTag |
| app.py:770-777 | the rename checks look at the text as typed; the selected tag receives the stripped text | tags ["A", "B"], rename "A" to " B": accepted, the list becomes ["B", "B"] | check the stripped text | not executed; high | Tags.RenameOntoExisting | Tags.RenameTag |
| app.py:1150-1159 | the game edit writes through `.at` with the game's position as label, while the game delete (app.py:1167-1168) keeps the other rows' labels | games a, b, c; delete a; edit the game listed second (c): b is overwritten and c stays as it was | edit the game at the chosen position | not executed; medium (holds while the session keeps the table with the dropped label) | Labels.EditAfterDropOverwritesAnother | Labels.EditGame |
| app.py:1150-1159 | the ledger file stores each month by column keyed by label, and JSON keys are text, so a month read back (app.py:59-67) carries its labels as text until an append renumbers it; the edit's `.at` lookup by number then finds no row and adds one; at the next save that row's label 0 and the text label "0" are written under the same JSON key, and reading the file keeps the last value in the first key's place | a month with games a, b saved and read back; edit game a to w: the month holds a, b, w; saved and read back again it holds w, b, so the edit has overwritten a after all (Labels.SecondReloadOverwritesFirst) | edit the game at the chosen position | not executed; medium (rests on how pandas enlarges a frame on `.at` with an absent label) | Labels.EditAfterReloadAddsRow | Labels.EditGame |
| app.py:1123-1132 | the game editor preselects the game's strategy and tag with `list.index`, which fails when the strategy was renamed or deleted (no cascade, app.py:694-709) or the tag renamed or removed (app.py:770-784); the update and remove buttons come after it | strategies [S], a game with strategy S; rename S to T: the game can be neither edited nor removed | keep every game editable and removable | not executed; medium | Store.RenamedStrategyLocksWager | Store.Ledger.EditWager |
