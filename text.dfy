/** Python's `str.strip()` with no argument: removes leading and trailing
    whitespace, where whitespace is what `str.isspace` accepts. */
module Text {

  /** The characters `str.isspace` accepts. */
  predicate IsSpace(c: char) {
    || ('\t' <= c <= '\r')
    || ('\U{1C}' <= c <= ' ')
    || c == '\U{85}' || c == '\U{A0}' || c == '\U{1680}'
    || ('\U{2000}' <= c <= '\U{200A}')
    || c == '\U{2028}' || c == '\U{2029}' || c == '\U{202F}'
    || c == '\U{205F}' || c == '\U{3000}'
  }

  /** `s` without its leading whitespace. */
  function TrimStart(s: string): (r: string)
    ensures |r| <= |s| && r == s[|s| - |r|..]
    ensures r == [] || !IsSpace(r[0])
    ensures forall i :: 0 <= i < |s| - |r| ==> IsSpace(s[i])
  {
    if s != [] && IsSpace(s[0]) then TrimStart(s[1..]) else s
  }

  /** `s` without its trailing whitespace. */
  function TrimEnd(s: string): (r: string)
    ensures |r| <= |s| && r == s[..|r|]
    ensures r == [] || !IsSpace(r[|r| - 1])
    ensures forall i :: |r| <= i < |s| ==> IsSpace(s[i])
  {
    if s != [] && IsSpace(s[|s| - 1]) then TrimEnd(s[..|s| - 1]) else s
  }

  /** Every character of `s` is whitespace. */
  predicate AllSpace(s: string) {
    forall i :: 0 <= i < |s| ==> IsSpace(s[i])
  }

  /** `r` is the piece of `s` starting at `lo`, and everything of `s`
      before and after that piece is whitespace. */
  predicate PieceAt(s: string, r: string, lo: int) {
    && 0 <= lo <= |s| - |r|
    && r == s[lo..lo + |r|]
    && (forall i :: 0 <= i < lo ==> IsSpace(s[i]))
    && (forall i :: lo + |r| <= i < |s| ==> IsSpace(s[i]))
  }

  /** Python's `s.strip()`: whitespace removed from both ends. What that
      means is stated by StripPiece (the result is a piece of `s` with only
      whitespace around it), StripEnds (no whitespace at either end, empty
      exactly for all-whitespace input) and StripIdempotent. */
  function Strip(s: string): (r: string)
    ensures |r| <= |s|
  {
    TrimEnd(TrimStart(s))
  }

  /** The stripped text is a contiguous piece of `s` with nothing but
      whitespace around it in `s`. */
  lemma StripPiece(s: string)
    ensures exists lo :: PieceAt(s, Strip(s), lo)
  {
    var t := TrimStart(s);
    TrimsPiece(s, t, TrimEnd(t));
    assert PieceAt(s, Strip(s), |s| - |t|);
  }

  /** The stripped text has no whitespace at either end, and it is empty
      exactly when `s` is all whitespace. */
  lemma StripEnds(s: string)
    ensures var r := Strip(s);
      && (r == [] || (!IsSpace(r[0]) && !IsSpace(r[|r| - 1])))
      && (r == [] <==> AllSpace(s))
  {
    TrimsEnds(s, TrimStart(s), TrimEnd(TrimStart(s)));
  }

  /** Trimming both ends cuts out a piece of `s`, with whitespace before
      and after it. */
  lemma TrimsPiece(s: string, t: string, r: string)
    requires t == TrimStart(s) && r == TrimEnd(t)
    ensures PieceAt(s, r, |s| - |t|)
  {
    var lo := |s| - |t|;
    assert t == s[lo..];
    assert |r| <= |t| && r == t[..|r|];
    PrefixOfSuffix(s, t, r);
    forall i | lo + |r| <= i < |s| ensures IsSpace(s[i]) {
      assert s[i] == t[i - lo];
    }
  }

  /** A prefix of a suffix of `s` is a slice of `s`. */
  lemma PrefixOfSuffix<T>(s: seq<T>, t: seq<T>, r: seq<T>)
    requires |t| <= |s| && t == s[|s| - |t|..]
    requires |r| <= |t| && r == t[..|r|]
    ensures r == s[|s| - |t|..|s| - |t| + |r|]
  {
  }

  /** The trimmed text has no whitespace at either end, and is empty
      exactly when `s` is all whitespace. */
  lemma TrimsEnds(s: string, t: string, r: string)
    requires t == TrimStart(s) && r == TrimEnd(t)
    ensures r == [] || (!IsSpace(r[0]) && !IsSpace(r[|r| - 1]))
    ensures r == [] <==> AllSpace(s)
  {
    assert r != [] ==> r[0] == t[0];
    if t != [] {
      assert s[|s| - |t|] == t[0];
    }
  }

  /** Stripping twice is stripping once. */
  lemma StripIdempotent(s: string)
    ensures Strip(Strip(s)) == Strip(s)
  {
    var r := Strip(s);
    assert TrimStart(r) == r;
    assert TrimEnd(r) == r;
  }
}
