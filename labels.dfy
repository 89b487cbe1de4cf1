/** The index labels of a month table. An append renumbers the table
    0, 1, 2, ...; deleting a game drops its row and keeps the other labels.
    The ledger file stores each table by column, keyed by label, and a JSON
    key is text, so a table read back from the file carries the labels
    "0", "1", "2", ... as text; two rows whose labels print alike (the
    number 0 and the text "0") are written under the same key, and reading
    the file keeps one entry per key, in the place of its first occurrence
    with the value of its last. The game edit writes every field with a
    label lookup on the game's position as a number, which finds the game
    only while labels and positions agree. */
module Labels {
  import opened Wagers
  import opened Seqs

  /** An index label: a number, or a number as text after the file round
      trip. A lookup by number never finds a label held as text. */
  datatype Label = Num(n: nat) | Text(n: nat)

  /** A row of the data frame: its index label (`key`) and its wager. */
  datatype Row = Row(key: Label, wager: Wager)

  function WagersOf(rows: seq<Row>): seq<Wager> {
    seq(|rows|, i requires 0 <= i < |rows| => rows[i].wager)
  }

  /** Labels and positions agree. */
  predicate Contiguous(rows: seq<Row>) {
    forall i :: 0 <= i < |rows| ==> rows[i].key == Num(i)
  }

  /** A table numbered from zero, as the renumbering append leaves it. */
  function Numbered(ws: seq<Wager>): (r: seq<Row>)
    ensures Contiguous(r) && WagersOf(r) == ws
  {
    seq(|ws|, i requires 0 <= i < |ws| => Row(Num(i), ws[i]))
  }

  /** The label numbers of a table in row order: the JSON keys its rows
      are written under. */
  function KeyNumbers(rows: seq<Row>): seq<nat> {
    seq(|rows|, i requires 0 <= i < |rows| => rows[i].key.n)
  }

  /** The position of the last row written under key `n`. */
  function LastWith(rows: seq<Row>, n: nat): (k: nat)
    requires n in KeyNumbers(rows)
    ensures k < |rows| && rows[k].key.n == n
    ensures forall j :: k < j < |rows| ==> rows[j].key.n != n
  {
    var last := |rows| - 1;
    if rows[last].key.n == n then last
    else
      assert KeyNumbers(rows) == KeyNumbers(rows[..last]) + [rows[last].key.n];
      LastWith(rows[..last], n)
  }

  /** A table saved to the file and read back: one row per key, in the
      order the keys first occur, labelled with the key as text and holding
      the game of the last row written under it. */
  function Reloaded(rows: seq<Row>): (r: seq<Row>)
    ensures KeyNumbers(r) == Distinct(KeyNumbers(rows))
    ensures forall i :: 0 <= i < |r| ==> r[i].key.Text?
    ensures forall i :: 0 <= i < |r| ==>
              r[i].key.n in KeyNumbers(rows) && r[i].wager == rows[LastWith(rows, r[i].key.n)].wager
  {
    var ns := Distinct(KeyNumbers(rows));
    var r := seq(|ns|, i requires 0 <= i < |ns| => Row(Text(ns[i]), rows[LastWith(rows, ns[i])].wager));
    assert KeyNumbers(r) == ns;
    r
  }

  /** A table whose labels are written under distinct keys reads back with
      the same games in the same order, every label now held as text. */
  lemma ReloadKeepsGames(rows: seq<Row>)
    requires NoDup(KeyNumbers(rows))
    ensures WagersOf(Reloaded(rows)) == WagersOf(rows)
    ensures forall i :: 0 <= i < |Reloaded(rows)| ==> Reloaded(rows)[i].key == Text(rows[i].key.n)
  {
    var ks := KeyNumbers(rows);
    DistinctOfNoDup(ks);
    var r := Reloaded(rows);
    assert |r| == |ks| == |rows|;
    forall i | 0 <= i < |r|
      ensures r[i] == Row(Text(rows[i].key.n), rows[i].wager)
    {
      assert r[i].key.n == KeyNumbers(r)[i] == ks[i];
      LastWithUnique(rows, i);
    }
    assert WagersOf(r) == WagersOf(rows);
  }

  /** Under distinct keys, the last row written under a row's key is that
      row. */
  lemma LastWithUnique(rows: seq<Row>, i: nat)
    requires NoDup(KeyNumbers(rows)) && i < |rows|
    ensures rows[i].key.n in KeyNumbers(rows) && LastWith(rows, rows[i].key.n) == i
  {
    var ks := KeyNumbers(rows);
    assert ks[i] == rows[i].key.n;
    var k := LastWith(rows, ks[i]);
    assert ks[k] == ks[i];
  }

  /** A renumbered table reads back as its games labelled "0", "1", ... */
  lemma ReloadNumbered(ws: seq<Wager>)
    ensures var r := Reloaded(Numbered(ws));
      && WagersOf(r) == ws
      && forall i :: 0 <= i < |r| ==> r[i].key == Text(i)
  {
    var rows := Numbered(ws);
    assert forall i :: 0 <= i < |rows| ==> KeyNumbers(rows)[i] == i;
    ReloadKeepsGames(rows);
  }

  /** Appending a game: a first game gets label 0, later appends renumber
      the whole table. */
  function AppendGame(rows: seq<Row>, w: Wager): (r: seq<Row>)
    ensures Contiguous(r) && WagersOf(r) == WagersOf(rows) + [w]
  {
    Numbered(WagersOf(rows) + [w])
  }

  /** Deleting the game at a position: that row goes, the others keep
      their labels. */
  function DropGame(rows: seq<Row>, p: nat): (r: seq<Row>)
    requires p < |rows|
    ensures WagersOf(r) == RemoveAt(WagersOf(rows), p)
    ensures forall i :: 0 <= i < |r| ==> r[i].key == (if i < p then rows[i] else rows[i + 1]).key
  {
    var r := RemoveAt(rows, p);
    assert WagersOf(r) == RemoveAt(WagersOf(rows), p);
    r
  }

  /** The position of the first row holding a label. */
  function KeyIndex(rows: seq<Row>, key: Label): (r: Option<nat>)
    ensures r.Some? ==> r.value < |rows| && rows[r.value].key == key
    ensures r.Some? ==> forall j :: 0 <= j < r.value ==> rows[j].key != key
    ensures r.None? <==> forall i :: 0 <= i < |rows| ==> rows[i].key != key
  {
    if rows == [] then None
    else if rows[0].key == key then Some(0)
    else match KeyIndex(rows[1..], key)
      case Some(k) => Some(k + 1)
      case None =>
        assert forall i :: 1 <= i < |rows| ==> rows[i] == rows[1..][i - 1];
        None
  }

  /** A write through a label: the row holding it is overwritten; when no
      row holds it, a row with that label is added at the end. */
  function WriteAtKey(rows: seq<Row>, key: Label, w: Wager): (r: seq<Row>)
    ensures forall i :: 0 <= i < |rows| && rows[i].key == key && (forall j :: 0 <= j < i ==> rows[j].key != key)
              ==> r == rows[i := Row(key, w)]
    ensures (forall i :: 0 <= i < |rows| ==> rows[i].key != key) ==> r == rows + [Row(key, w)]
  {
    match KeyIndex(rows, key)
    case Some(i) => rows[i := Row(key, w)]
    case None => rows + [Row(key, w)]
  }

  /** The game edit as written: the position chosen in the list is used as
      a label. */
  function EditGameAsWritten(rows: seq<Row>, p: nat, w: Wager): (r: seq<Row>)
    requires p < |rows|
    ensures Contiguous(rows) ==> r == rows[p := Row(Num(p), w)]
    ensures (forall i :: 0 <= i < |rows| ==> rows[i].key != Num(p)) ==> r == rows + [Row(Num(p), w)]
  {
    assert Contiguous(rows) ==> rows[p].key == Num(p) && forall j :: 0 <= j < p ==> rows[j].key != Num(p);
    WriteAtKey(rows, Num(p), w)
  }

  /** The game edit: the game at the chosen position is replaced, every
      other game and every label stays. */
  function EditGame(rows: seq<Row>, p: nat, w: Wager): (r: seq<Row>)
    requires p < |rows|
    ensures WagersOf(r) == WagersOf(rows)[p := w]
    ensures forall i :: 0 <= i < |r| ==> r[i].key == rows[i].key
  {
    var r := rows[p := Row(rows[p].key, w)];
    assert WagersOf(r) == WagersOf(rows)[p := w];
    r
  }

  /** While labels and positions agree the edit as written is the edit. */
  lemma EditAgreesWhenContiguous(rows: seq<Row>, p: nat, w: Wager)
    requires Contiguous(rows) && p < |rows|
    ensures EditGameAsWritten(rows, p, w) == EditGame(rows, p, w)
  {
    assert rows[p].key == Num(p);
    assert forall j :: 0 <= j < p ==> rows[j].key != Num(p);
  }

  /** After the first of three games is deleted, editing the game now
      listed second overwrites the game listed first and leaves the chosen
      one as it was. */
  lemma EditAfterDropOverwritesAnother(a: Wager, b: Wager, c: Wager, w: Wager)
    ensures var rows := DropGame(Numbered([a, b, c]), 0);
      && rows == [Row(Num(1), b), Row(Num(2), c)]
      && EditGameAsWritten(rows, 1, w) == [Row(Num(1), w), Row(Num(2), c)]
      && WagersOf(EditGame(rows, 1, w)) == [b, w]
  {
    var rows := DropGame(Numbered([a, b, c]), 0);
    assert rows == [Row(Num(1), b), Row(Num(2), c)];
  }

  /** After the first of two games is deleted, editing the remaining game
      leaves it as it was and adds the edited game as a second row. */
  lemma EditAfterDropAddsRow(a: Wager, b: Wager, w: Wager)
    ensures var rows := DropGame(Numbered([a, b]), 0);
      && rows == [Row(Num(1), b)]
      && EditGameAsWritten(rows, 0, w) == [Row(Num(1), b), Row(Num(0), w)]
      && WagersOf(EditGame(rows, 0, w)) == [w]
  {
    var rows := DropGame(Numbered([a, b]), 0);
    assert rows == [Row(Num(1), b)];
  }

  /** Once the table has been read back from the file, editing any game
      leaves every game as it was and adds the edited game as a new last
      row, where the intended edit replaces the chosen game. */
  lemma EditAfterReloadAddsRow(rows: seq<Row>, p: nat, w: Wager)
    requires p < |Reloaded(rows)|
    ensures var t := Reloaded(rows);
      && EditGameAsWritten(t, p, w) == t + [Row(Num(p), w)]
      && WagersOf(EditGameAsWritten(t, p, w)) == WagersOf(t) + [w]
      && WagersOf(EditGame(t, p, w)) == WagersOf(t)[p := w]
  {
    var t := Reloaded(rows);
    assert forall i :: 0 <= i < |t| ==> t[i].key != Num(p);
    assert WagersOf(t + [Row(Num(p), w)]) == WagersOf(t) + [w];
  }

  /** Keys 0, 1, 0 are the distinct keys 0, 1. */
  lemma RepeatedFirstKey(k3: seq<nat>)
    requires k3 == [0, 1, 0]
    ensures Distinct(k3) == [0, 1]
  {
    var k1: seq<nat>, k2: seq<nat> := [0], [0, 1];
    assert k1[..0] == [] && k2[..1] == k1 && k3[..2] == k2;
    assert Distinct(k1) == [0];
    assert Distinct(k2) == [0, 1];
  }

  /** Games a, b saved and read back, game a edited to w: the table holds
      a, b, w. Saved and read back again, the labels "0" of a and 0 of w
      are one key, so the table holds w, b: the edit has overwritten a after
      all, one save later. */
  lemma SecondReloadOverwritesFirst(a: Wager, b: Wager, w: Wager)
    ensures var t := EditGameAsWritten(Reloaded(Numbered([a, b])), 0, w);
      && t == [Row(Text(0), a), Row(Text(1), b), Row(Num(0), w)]
      && Reloaded(t) == [Row(Text(0), w), Row(Text(1), b)]
  {
    var once := Reloaded(Numbered([a, b]));
    ReloadNumbered([a, b]);
    assert once == [Row(Text(0), a), Row(Text(1), b)];
    EditAfterReloadAddsRow(Numbered([a, b]), 0, w);
    assert EditGameAsWritten(once, 0, w) == [Row(Text(0), a), Row(Text(1), b), Row(Num(0), w)];
    ReloadMergesKey(a, b, w);
  }

  /** Rows labelled "0", "1" and 0 read back as two rows: key 0 holds the
      game of the last row written under it. */
  lemma ReloadMergesKey(a: Wager, b: Wager, w: Wager)
    ensures Reloaded([Row(Text(0), a), Row(Text(1), b), Row(Num(0), w)]) == [Row(Text(0), w), Row(Text(1), b)]
  {
    var t := [Row(Text(0), a), Row(Text(1), b), Row(Num(0), w)];
    RepeatedFirstKey(KeyNumbers(t));
    var r := Reloaded(t);
    assert |r| == 2 && r[0].key.n == 0 && r[1].key.n == 1;
    assert LastWith(t, 0) == 2 && LastWith(t, 1) == 1;
  }
}
