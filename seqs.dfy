/** Sequence helpers shared by the registries and the ledger: the list
    operations the ledger performs (index lookup, removal at a position,
    removal of a value, distinct values in first-seen order) with the facts
    the rest of the model needs about them. */
module Seqs {

  /** No element occurs twice. */
  predicate NoDup<T(==)>(s: seq<T>) {
    forall i, j :: 0 <= i < j < |s| ==> s[i] != s[j]
  }

  /** The position of the first occurrence of `x` (Python's `list.index`,
      and the first row a Boolean mask selects). */
  function FirstIndex<T(==)>(s: seq<T>, x: T): (k: nat)
    requires x in s
    ensures k < |s| && s[k] == x
    ensures forall j :: 0 <= j < k ==> s[j] != x
  {
    if s[0] == x then 0 else 1 + FirstIndex(s[1..], x)
  }

  /** The sequence without its element at position `k` (a row drop). */
  function RemoveAt<T>(s: seq<T>, k: nat): (r: seq<T>)
    requires k < |s|
    ensures |r| == |s| - 1
    ensures forall j :: 0 <= j < k ==> r[j] == s[j]
    ensures forall j :: k <= j < |r| ==> r[j] == s[j + 1]
  {
    s[..k] + s[k + 1..]
  }

  /** Removing one entry of a duplicate-free sequence keeps it duplicate-free
      and removes exactly that value. */
  lemma RemoveAtNoDup<T>(s: seq<T>, k: nat)
    requires k < |s| && NoDup(s)
    ensures NoDup(RemoveAt(s, k))
    ensures forall x :: x in RemoveAt(s, k) <==> x in s && x != s[k]
  {
    var r := RemoveAt(s, k);
    forall x | x in s && x != s[k]
      ensures x in r
    {
      var i :| 0 <= i < |s| && s[i] == x;
      if i < k { assert r[i] == x; } else { assert r[i - 1] == x; }
    }
  }

  /** Overwriting one entry with a value that is either the old value or
      absent elsewhere keeps the sequence duplicate-free. */
  lemma ReplaceNoDup<T>(s: seq<T>, k: nat, y: T)
    requires k < |s| && NoDup(s)
    requires y == s[k] || y !in s
    ensures NoDup(s[k := y])
  {
  }

  /** The distinct values of `s` in order of first occurrence (pandas
      `unique`). */
  function Distinct<T(==)>(s: seq<T>): (r: seq<T>)
    ensures NoDup(r)
    ensures forall i :: 0 <= i < |r| ==> r[i] in s
    ensures forall i :: 0 <= i < |s| ==> s[i] in r
  {
    if s == [] then []
    else
      var d := Distinct(s[..|s| - 1]);
      assert forall i :: 0 <= i < |s| - 1 ==> s[i] == s[..|s| - 1][i];
      if s[|s| - 1] in d then d else d + [s[|s| - 1]]
  }

  /** A sequence without duplicates is its own list of distinct values. */
  lemma {:induction false} DistinctOfNoDup<T>(s: seq<T>)
    requires NoDup(s)
    ensures Distinct(s) == s
  {
    if s != [] {
      var n := |s| - 1;
      assert NoDup(s[..n]);
      DistinctOfNoDup(s[..n]);
      assert s[n] !in s[..n];
      assert s == s[..n] + [s[n]];
    }
  }

  /** A value occurring in a prefix is first found at the same position
      in the whole sequence. */
  lemma FirstIndexPrefix<T>(s: seq<T>, n: nat, x: T)
    requires n <= |s| && x in s[..n]
    ensures x in s && FirstIndex(s, x) == FirstIndex(s[..n], x)
  {
    var k := FirstIndex(s[..n], x);
    assert s[k] == x;
    assert forall j :: 0 <= j < k ==> s[j] == s[..n][j];
  }

  /** The distinct values come in the order of their first occurrence in
      `s`. */
  lemma {:induction false} DistinctInFirstOrder<T>(s: seq<T>)
    ensures forall i, j :: 0 <= i < j < |Distinct(s)| ==>
              FirstIndex(s, Distinct(s)[i]) < FirstIndex(s, Distinct(s)[j])
  {
    if s != [] {
      var n := |s| - 1;
      var init := s[..n];
      var d := Distinct(init);
      DistinctInFirstOrder(init);
      forall i | 0 <= i < |d|
        ensures FirstIndex(s, d[i]) == FirstIndex(init, d[i]) < n
      {
        FirstIndexPrefix(s, n, d[i]);
      }
      var r := Distinct(s);
      assert r == if s[n] in d then d else d + [s[n]];
      forall i, j | 0 <= i < j < |r|
        ensures FirstIndex(s, r[i]) < FirstIndex(s, r[j])
      {
        assert r[i] == d[i];
        if j == |d| {
          assert s[n] !in init;
          assert r[j] == s[n] && FirstIndex(s, s[n]) == n;
        } else {
          assert r[j] == d[j];
        }
      }
    }
  }

  /** A duplicate-free sequence has as many elements as the set of its
      values. */
  lemma {:induction false} NoDupCard<T>(s: seq<T>)
    requires NoDup(s)
    ensures |set x | x in s| == |s|
  {
    if s != [] {
      var init := s[..|s| - 1];
      var last := s[|s| - 1];
      assert NoDup(init);
      NoDupCard(init);
      assert s == init + [last];
      assert (set x | x in s) == (set x | x in init) + {last};
      assert last !in init;
    }
  }

  /** Appending to one entry of a sequence of sequences, twice, is
      appending the concatenation once. */
  lemma UpdateAppend<T>(s: seq<seq<T>>, m: nat, front: seq<T>, before: seq<T>, added: seq<T>)
    requires m < |s|
    ensures var t := s[m := front + before];
      t[m := t[m] + added] == s[m := front + (before + added)]
  {
    assert front + before + added == front + (before + added);
  }
}
