/** The tag list: add, rename and remove. The tag forms check the text as
    typed but store it stripped; the functions marked as written keep that
    order, the others check the stripped text, which is what the list's
    freedom from repeats and from empty tags needs. */
module Tags {
  import opened Wagers
  import opened Seqs
  import opened Text
  import opened Registry

  /** The outcome of a tag form and the tag list after it. */
  datatype TagUpdate = TagUpdate(outcome: Outcome, tags: seq<string>)

  /** The tag list of a new ledger. */
  const DefaultTags: seq<string> := ["Normal", "Arbitrage", "Value Bet", "Sure Bet"]

  lemma DefaultTagsWellFormed()
    ensures NoDup(DefaultTags) && "" !in DefaultTags
  {
  }

  /** Add as written: the emptiness and duplicate checks look at the text
      as typed, the list receives the stripped text. */
  function AddTagAsWritten(tags: seq<string>, input: string): (r: TagUpdate)
    ensures r.outcome == MissingField <==> input == ""
    ensures r.outcome == Done <==> input != "" && input !in tags
    ensures r.outcome != Done ==> r.tags == tags
    ensures r.outcome == Done ==> |r.tags| == |tags| + 1 && r.tags[..|tags|] == tags
  {
    if input == "" then TagUpdate(MissingField, tags)
    else if input in tags then TagUpdate(NameTaken, tags)
    else TagUpdate(Done, tags + [Strip(input)])
  }

  /** A tag with no whitespace at either end, typed after a space, strips
      back to itself. */
  lemma StripLeadingSpace(tag: string)
    requires tag != "" && !IsSpace(tag[0]) && !IsSpace(tag[|tag| - 1])
    ensures Strip(" " + tag) == tag
  {
    var typed := " " + tag;
    assert typed[1..] == tag;
    assert TrimStart(tag) == tag;
    assert TrimStart(typed) == tag;
  }

  /** An existing tag typed with a leading space passes the duplicate check
      and is stored a second time, so the list loses its freedom from
      repeats. */
  lemma AddTagAsWrittenDuplicates(tags: seq<string>, tag: string)
    requires tag in tags && tag != "" && !IsSpace(tag[0]) && !IsSpace(tag[|tag| - 1])
    requires " " + tag !in tags
    ensures AddTagAsWritten(tags, " " + tag) == TagUpdate(Done, tags + [tag])
    ensures !NoDup(AddTagAsWritten(tags, " " + tag).tags)
  {
    StripLeadingSpace(tag);
    var r := tags + [tag];
    var k := FirstIndex(tags, tag);
    assert r[k] == r[|tags|];
  }

  /** The same with the tag of every new ledger. */
  lemma AddNormalTwice()
    ensures AddTagAsWritten(DefaultTags, " Normal") == TagUpdate(Done, DefaultTags + ["Normal"])
  {
    assert " " + "Normal" == " Normal";
    AddTagAsWrittenDuplicates(DefaultTags, "Normal");
  }

  /** Text made only of spaces passes the emptiness check and is stored as
      the empty tag. */
  lemma AddTagAsWrittenEmpty()
    ensures AddTagAsWritten(["Normal"], "  ") == TagUpdate(Done, ["Normal", ""])
  {
    var typed := "  ";
    assert AllSpace(typed) by {
      forall i | 0 <= i < |typed| ensures IsSpace(typed[i]) {
        assert typed[i] == ' ';
      }
    }
    StripEnds(typed);
  }

  /** Add, checking the stripped text. */
  function AddTag(tags: seq<string>, input: string): (r: TagUpdate)
    ensures r.outcome == AddCheck(tags, Strip(input))
    ensures r.outcome == Done ==> r.tags == tags + [Strip(input)]
    ensures r.outcome != Done ==> r.tags == tags
    ensures NoDup(tags) && "" !in tags ==> NoDup(r.tags) && "" !in r.tags
  {
    var name := Strip(input);
    if name == "" then TagUpdate(MissingField, tags)
    else if name in tags then TagUpdate(NameTaken, tags)
    else TagUpdate(Done, tags + [name])
  }

  /** Rename as written: the checks look at the text as typed, the selected
      entry (its first occurrence) receives the stripped text. */
  function RenameTagAsWritten(tags: seq<string>, selected: string, input: string): (r: TagUpdate)
    requires selected in tags
    ensures r.outcome == MissingField <==> input == ""
    ensures r.outcome == NameTaken <==> input != "" && input in tags && input != selected
    ensures r.outcome != Done ==> r.tags == tags
    ensures |r.tags| == |tags|
    ensures forall i :: 0 <= i < |tags| && i != FirstIndex(tags, selected) ==> r.tags[i] == tags[i]
  {
    if input == "" then TagUpdate(MissingField, tags)
    else if input in tags && input != selected then TagUpdate(NameTaken, tags)
    else TagUpdate(Done, tags[FirstIndex(tags, selected) := Strip(input)])
  }

  /** Renaming a tag to another existing tag typed with a leading space
      passes the duplicate check and leaves that other tag twice in the
      list. */
  lemma RenameTagAsWrittenDuplicates(tags: seq<string>, selected: string, tag: string)
    requires selected in tags && tag in tags && tag != selected
    requires tag != "" && !IsSpace(tag[0]) && !IsSpace(tag[|tag| - 1])
    requires " " + tag !in tags
    ensures RenameTagAsWritten(tags, selected, " " + tag)
         == TagUpdate(Done, tags[FirstIndex(tags, selected) := tag])
    ensures !NoDup(RenameTagAsWritten(tags, selected, " " + tag).tags)
  {
    StripLeadingSpace(tag);
    var k := FirstIndex(tags, selected);
    var r := tags[k := tag];
    var j := FirstIndex(tags, tag);
    assert j != k && r[j] == r[k];
  }

  /** The same on a list of two tags: renaming "A" to " B" leaves "B"
      twice. */
  lemma RenameOntoExisting()
    ensures RenameTagAsWritten(["A", "B"], "A", " B") == TagUpdate(Done, ["B", "B"])
  {
    assert " " + "B" == " B";
    RenameTagAsWrittenDuplicates(["A", "B"], "A", "B");
    assert FirstIndex(["A", "B"], "A") == 0;
  }

  /** Rename, checking the stripped text: an empty name is refused, and so
      is a name held by another tag. */
  function RenameTag(tags: seq<string>, selected: string, input: string): (r: TagUpdate)
    requires selected in tags
    ensures r.outcome == RenameCheck(tags, selected, Strip(input))
    ensures r.outcome == Done ==> r.tags == tags[FirstIndex(tags, selected) := Strip(input)]
    ensures r.outcome != Done ==> r.tags == tags
    ensures NoDup(tags) && "" !in tags ==> NoDup(r.tags) && "" !in r.tags
  {
    var name := Strip(input);
    if name == "" then TagUpdate(MissingField, tags)
    else if name in tags && name != selected then TagUpdate(NameTaken, tags)
    else
      var r := TagUpdate(Done, tags[FirstIndex(tags, selected) := name]);
      if NoDup(tags) && "" !in tags then
        RenameKeepsNoDup(tags, selected, name);
        r
      else r
  }

  /** Remove the first occurrence of the selected tag; the list keeps its
      order and loses exactly that tag. */
  function RemoveTag(tags: seq<string>, selected: string): (r: seq<string>)
    requires selected in tags
    ensures var k := FirstIndex(tags, selected); r == tags[..k] + tags[k + 1..]
    ensures |r| == |tags| - 1
    ensures NoDup(tags) ==> NoDup(r) && selected !in r
    ensures NoDup(tags) ==> forall t :: t in r <==> t in tags && t != selected
    ensures "" !in tags ==> "" !in r
  {
    var k := FirstIndex(tags, selected);
    if NoDup(tags) then
      RemoveAtNoDup(tags, k);
      RemoveAt(tags, k)
    else
      RemoveAt(tags, k)
  }
}
