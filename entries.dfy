/** The corpus entry as the engine reads it, and the tokenisation that both
    the plain-text path and the table path apply to it. */
module Entries {
  import opened Text

  /** One record of the corpus store. Optional text fields are the empty
      string when absent; `exampleId` is the human label such as "CJ001". The
      three `...Cn` fields are the secondary-language (Chinese character)
      annotations of the source text, the gloss and the translation. */
  datatype Entry = Entry(
    id: nat,
    exampleId: string,
    sourceText: string,
    gloss: string,
    translation: string,
    notes: string,
    sourceTextCn: string,
    glossCn: string,
    translationCn: string)

  /** The text fields of an entry as both output paths read them: stripped
      of surrounding whitespace, and the secondary-language fields empty
      unless they are asked for. */
  datatype Fields = Fields(
    source: string,
    gloss: string,
    translation: string,
    notes: string,
    sourceCn: string,
    glossCn: string,
    translationCn: string)

  function StrippedFields(e: Entry, includeChinese: bool): (f: Fields)
    ensures !includeChinese ==> f.sourceCn == f.glossCn == f.translationCn == ""
  {
    Fields(
      Strip(e.sourceText),
      Strip(e.gloss),
      Strip(e.translation),
      Strip(e.notes),
      if includeChinese then Strip(e.sourceTextCn) else "",
      if includeChinese then Strip(e.glossCn) else "",
      if includeChinese then Strip(e.translationCn) else "")
  }

  predicate EndsInLonePeriod(words: seq<string>) {
    |words| > 1 && words[|words| - 1] == "."
  }

  /** A final token that is a lone "." is glued to the token before it, so
      sentence-final punctuation does not take a gloss column of its own. */
  function MergeFinalPeriod(words: seq<string>): (r: seq<string>)
    ensures Concat(r) == Concat(words)
    ensures |r| == if EndsInLonePeriod(words) then |words| - 1 else |words|
    ensures forall k | 0 <= k < |r| - 1 :: r[k] == words[k]
    ensures EndsInLonePeriod(words) ==> r[|r| - 1] == words[|words| - 2] + "."
    ensures (forall k | 0 <= k < |words| :: words[k] != [] && NoSpace(words[k]))
            ==> forall k | 0 <= k < |r| :: r[k] != [] && NoSpace(r[k])
  {
    if EndsInLonePeriod(words) then
      var n := |words|;
      var r := words[..n - 2] + [words[n - 2] + "."];
      assert words == words[..n - 2] + [words[n - 2]] + [words[n - 1]];
      ConcatAppend(words[..n - 2] + [words[n - 2]], [words[n - 1]]);
      ConcatAppend(words[..n - 2], [words[n - 2]]);
      ConcatAppend(words[..n - 2], [words[n - 2] + "."]);
      assert Concat([words[n - 2]]) == words[n - 2];
      assert Concat([words[n - 1]]) == ".";
      assert Concat([words[n - 2] + "."]) == words[n - 2] + ".";
      r
    else
      words
  }

  /** The source tokens of a text: `text.strip().split()` with the final
      lone period merged. */
  function SourceTokens(text: string): seq<string> {
    MergeFinalPeriod(Split(Strip(text)))
  }

  lemma SplitPeriod()
    ensures Split(" .") == ["."]
  {
    assert " ."[1..] == ".";
    assert WordLength(".") == 1;
    assert "."[1..] == [] && "."[..1] == ".";
  }

  lemma SplitBuPeriod()
    ensures Split("bu .") == ["bu", "."]
  {
    SplitPeriod();
    assert WordLength("bu .") == 2;
    assert "bu ."[2..] == " ." && "bu ."[..2] == "bu";
  }

  lemma SplitAmaBuPeriod()
    ensures Split("ama bu .") == ["ama", "bu", "."]
  {
    var s := "ama bu .";
    SplitBuPeriod();
    assert WordLength(s) == 3;
    assert s[3..] == " bu ." && s[..3] == "ama";
    assert s[3..][1..] == "bu .";
  }

  /** `"ama bu ."` tokenises to `["ama", "bu."]`: two words, not three. */
  lemma MergeExample()
    ensures SourceTokens("ama bu .") == ["ama", "bu."]
  {
    var s := "ama bu .";
    assert !IsSpace(s[0]) && !IsSpace(s[|s| - 1]);
    SplitAmaBuPeriod();
    var w := ["ama", "bu", "."];
    assert EndsInLonePeriod(w);
    assert w[..1] == ["ama"];
    assert w[1] + "." == "bu.";
  }
}
