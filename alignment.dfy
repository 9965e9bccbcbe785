/** Word-by-word alignment of a source line and its gloss line
    (`TextFormatter.align_words`): the shorter word list is padded with empty
    words, every column is as wide as its longer word plus a two-space gutter,
    and every word is left-justified in its column. Widths are raw character
    counts, not display widths. */
module Alignment {
  import opened Text

  function Max(a: nat, b: nat): nat {
    if a < b then b else a
  }

  /** `[''] * n` */
  function Blanks(n: nat): (r: seq<string>)
    ensures |r| == n && forall i | 0 <= i < n :: r[i] == ""
  {
    seq(n, _ => "")
  }

  /** `words + [''] * (n - len(words))` */
  function PadWords(words: seq<string>, n: nat): (r: seq<string>)
    requires |words| <= n
    ensures |r| == n && r[..|words|] == words
    ensures forall i | |words| <= i < n :: r[i] == ""
  {
    words + Blanks(n - |words|)
  }

  /** The width of one column: the longer of its two words plus a gutter of two. */
  function ColumnWidth(src: string, gls: string): nat {
    Max(|src|, |gls|) + 2
  }

  function ColumnWidths(src: seq<string>, gls: seq<string>): (r: seq<nat>)
    requires |src| == |gls|
    ensures |r| == |src|
  {
    seq(|src|, k requires 0 <= k < |src| => ColumnWidth(src[k], gls[k]))
  }

  function Justify(words: seq<string>, widths: seq<nat>): (r: seq<string>)
    requires |words| == |widths|
    ensures |r| == |words|
  {
    seq(|words|, k requires 0 <= k < |words| => LJust(words[k], widths[k]))
  }

  function Sum(xs: seq<nat>): nat {
    if xs == [] then 0 else Sum(xs[..|xs| - 1]) + xs[|xs| - 1]
  }

  /** The number of columns: the longer of the two word lists. */
  function Columns(src: seq<string>, gls: seq<string>): nat {
    Max(|src|, |gls|)
  }

  /** The column widths over the two word lists padded to the same length. */
  function Widths(src: seq<string>, gls: seq<string>): (r: seq<nat>)
    ensures |r| == Columns(src, gls)
  {
    var n := Columns(src, gls);
    ColumnWidths(PadWords(src, n), PadWords(gls, n))
  }

  /** The aligned source line. */
  function AlignedSource(src: seq<string>, gls: seq<string>): string {
    Concat(Justify(PadWords(src, Columns(src, gls)), Widths(src, gls)))
  }

  /** The aligned gloss line. */
  function AlignedGloss(src: seq<string>, gls: seq<string>): string {
    Concat(Justify(PadWords(gls, Columns(src, gls)), Widths(src, gls)))
  }

  /** The total width of an alignment: the sum over the padded columns of
      the longer word plus two. */
  function AlignedWidth(src: seq<string>, gls: seq<string>): nat {
    Sum(Widths(src, gls))
  }

  /** The source's two passes: the column widths first, then the justified
      parts of both lines, joined at the end. */
  method AlignWords(sourceWords: seq<string>, glossWords: seq<string>)
      returns (alignedSource: string, alignedGloss: string)
    ensures alignedSource == AlignedSource(sourceWords, glossWords)
    ensures alignedGloss == AlignedGloss(sourceWords, glossWords)
  {
    var maxLen := Max(|sourceWords|, |glossWords|);
    var src := sourceWords + Blanks(maxLen - |sourceWords|);
    var gls := glossWords + Blanks(maxLen - |glossWords|);
    var columnWidths: seq<nat> := [];
    for k := 0 to maxLen
      invariant |columnWidths| == k
      invariant forall j | 0 <= j < k :: columnWidths[j] == ColumnWidth(src[j], gls[j])
    {
      var colWidth := Max(|src[k]|, |gls[k]|) + 2;
      columnWidths := columnWidths + [colWidth];
    }
    assert columnWidths == ColumnWidths(src, gls);
    var sourceParts: seq<string> := [];
    var glossParts: seq<string> := [];
    for k := 0 to maxLen
      invariant sourceParts == Justify(src[..k], columnWidths[..k])
      invariant glossParts == Justify(gls[..k], columnWidths[..k])
    {
      JustifySnoc(src, columnWidths, k);
      JustifySnoc(gls, columnWidths, k);
      sourceParts := sourceParts + [LJust(src[k], columnWidths[k])];
      glossParts := glossParts + [LJust(gls[k], columnWidths[k])];
    }
    assert src[..maxLen] == src && gls[..maxLen] == gls && columnWidths[..maxLen] == columnWidths;
    assert src == PadWords(sourceWords, Columns(sourceWords, glossWords));
    assert gls == PadWords(glossWords, Columns(sourceWords, glossWords));
    assert columnWidths == Widths(sourceWords, glossWords);
    alignedSource := Concat(sourceParts);
    alignedGloss := Concat(glossParts);
  }

  /** Justifying one more word appends its justified part. */
  lemma JustifySnoc(words: seq<string>, widths: seq<nat>, k: nat)
    requires |words| == |widths| && k < |words|
    ensures Justify(words[..k + 1], widths[..k + 1]) == Justify(words[..k], widths[..k]) + [LJust(words[k], widths[k])]
  {
  }

  /** Justifying words no longer than their widths gives parts whose joined
      length is the sum of the widths. */
  lemma {:induction false} JustifiedLength(words: seq<string>, widths: seq<nat>)
    requires |words| == |widths|
    requires forall k | 0 <= k < |words| :: |words[k]| <= widths[k]
    ensures |Concat(Justify(words, widths))| == Sum(widths)
    decreases |words|
  {
    if words != [] {
      var n := |words| - 1;
      assert Justify(words, widths)[..n] == Justify(words[..n], widths[..n]);
      JustifiedLength(words[..n], widths[..n]);
    }
  }

  /** Part k of a join starts where the join of the parts before it ends. */
  lemma ConcatAt(parts: seq<string>, k: nat)
    requires k < |parts|
    ensures |Concat(parts[..k])| + |parts[k]| <= |Concat(parts)|
    ensures Concat(parts)[|Concat(parts[..k])|..|Concat(parts[..k])| + |parts[k]|] == parts[k]
  {
    assert parts == parts[..k] + [parts[k]] + parts[k + 1..];
    ConcatAppend(parts[..k] + [parts[k]], parts[k + 1..]);
    ConcatAppend(parts[..k], [parts[k]]);
    assert Concat([parts[k]]) == Concat([]) + parts[k];
  }

  /** Both aligned lines have the same length: the sum of the column
      widths, that is of max(len(src), len(gls)) + 2 over the columns. */
  lemma AlignedSameLength(src: seq<string>, gls: seq<string>)
    ensures |AlignedSource(src, gls)| == AlignedWidth(src, gls)
    ensures |AlignedGloss(src, gls)| == AlignedWidth(src, gls)
  {
    var n := Columns(src, gls);
    JustifiedLength(PadWords(src, n), Widths(src, gls));
    JustifiedLength(PadWords(gls, n), Widths(src, gls));
  }

  /** Trailing spaces appended to a word whose last character is not
      whitespace are exactly what a right strip removes. */
  lemma {:induction false} TrimPadding(word: string, n: nat)
    requires word == [] || !IsSpace(word[|word| - 1])
    ensures TrimRight(word + Spaces(n)) == word
    decreases n
  {
    if n > 0 {
      assert (word + Spaces(n))[..|word| + n - 1] == word + Spaces(n - 1);
      TrimPadding(word, n - 1);
    } else {
      assert word + Spaces(n) == word;
    }
  }

  /** Column k of a justified line sits after the columns before it, holds
      its word left-justified, and right-stripping it gives back the word. */
  lemma JustifiedColumn(words: seq<string>, widths: seq<nat>, k: nat)
    requires |words| == |widths| && k < |words|
    requires forall i | 0 <= i < |words| :: |words[i]| <= widths[i]
    requires NoSpace(words[k])
    ensures Sum(widths[..k]) + widths[k] <= |Concat(Justify(words, widths))|
    ensures Concat(Justify(words, widths))[Sum(widths[..k])..Sum(widths[..k]) + widths[k]]
            == LJust(words[k], widths[k])
    ensures TrimRight(LJust(words[k], widths[k])) == words[k]
  {
    var js := Justify(words, widths);
    assert js[..k] == Justify(words[..k], widths[..k]);
    JustifiedLength(words[..k], widths[..k]);
    ConcatAt(js, k);
    assert words[k] == [] || !IsSpace(words[k][|words[k]| - 1]);
    TrimPadding(words[k], widths[k] - |words[k]|);
  }

  lemma PaddedNoSpace(words: seq<string>, n: nat, k: nat)
    requires |words| <= n && k < n
    requires forall i | 0 <= i < |words| :: NoSpace(words[i])
    ensures NoSpace(PadWords(words, n)[k])
  {
    if k < |words| {
      assert PadWords(words, n)[k] == words[k];
    }
  }

  /** Column k of one aligned line: it sits after the columns before it,
      holds the padded word left-justified, and right-stripping it gives
      back the word. */
  lemma AlignedLineColumn(words: seq<string>, n: nat, w: seq<nat>, k: nat)
    requires |words| <= n && |w| == n && k < n
    requires forall i | 0 <= i < |words| :: NoSpace(words[i])
    requires forall i | 0 <= i < n :: |PadWords(words, n)[i]| + 2 <= w[i]
    ensures Sum(w[..k]) + w[k] <= |Concat(Justify(PadWords(words, n), w))|
    ensures Concat(Justify(PadWords(words, n), w))[Sum(w[..k])..Sum(w[..k]) + w[k]]
            == LJust(PadWords(words, n)[k], w[k])
    ensures TrimRight(LJust(PadWords(words, n)[k], w[k])) == PadWords(words, n)[k]
  {
    PaddedNoSpace(words, n, k);
    JustifiedColumn(PadWords(words, n), w, k);
  }

  /** Every column is two wider than the longer of its padded words. */
  lemma WidthsCover(src: seq<string>, gls: seq<string>)
    ensures var n := Columns(src, gls);
            forall i | 0 <= i < n ::
              && |PadWords(src, n)[i]| + 2 <= Widths(src, gls)[i]
              && |PadWords(gls, n)[i]| + 2 <= Widths(src, gls)[i]
  {
  }

  /** Right-stripping a padded word left-justified in its column gives
      back the word. */
  lemma PaddedWordTrims(words: seq<string>, n: nat, width: nat, k: nat)
    requires |words| <= n && k < n
    requires forall i | 0 <= i < |words| :: NoSpace(words[i])
    requires |PadWords(words, n)[k]| <= width
    ensures TrimRight(LJust(PadWords(words, n)[k], width)) == PadWords(words, n)[k]
  {
    var word := PadWords(words, n)[k];
    PaddedNoSpace(words, n, k);
    assert word == [] || !IsSpace(word[|word| - 1]);
    TrimPadding(word, width - |word|);
    assert LJust(word, width) == word + Spaces(width - |word|);
  }

  /** Column k of the aligned source line. */
  lemma AlignedSourceColumn(src: seq<string>, gls: seq<string>, k: nat)
    requires k < Columns(src, gls)
    requires forall i | 0 <= i < |src| :: NoSpace(src[i])
    ensures var w := Widths(src, gls);
            var off := Sum(w[..k]);
            && off + w[k] <= |AlignedSource(src, gls)|
            && AlignedSource(src, gls)[off..off + w[k]] == LJust(PadWords(src, Columns(src, gls))[k], w[k])
  {
    WidthsCover(src, gls);
    AlignedLineColumn(src, Columns(src, gls), Widths(src, gls), k);
  }

  /** Column k of the aligned gloss line. */
  lemma AlignedGlossColumn(src: seq<string>, gls: seq<string>, k: nat)
    requires k < Columns(src, gls)
    requires forall i | 0 <= i < |gls| :: NoSpace(gls[i])
    ensures var w := Widths(src, gls);
            var off := Sum(w[..k]);
            && off + w[k] <= |AlignedGloss(src, gls)|
            && AlignedGloss(src, gls)[off..off + w[k]] == LJust(PadWords(gls, Columns(src, gls))[k], w[k])
  {
    WidthsCover(src, gls);
    AlignedLineColumn(gls, Columns(src, gls), Widths(src, gls), k);
  }

  /** Two lines of one length whose columns [off, off + len) hold `top` and,
      beneath it, `bottom`. */
  predicate Stacked(topLine: string, bottomLine: string, off: nat, len: nat, top: string, bottom: string) {
    && |topLine| == |bottomLine|
    && off + len <= |topLine|
    && topLine[off..off + len] == top
    && bottomLine[off..off + len] == bottom
  }

  /** The aligned lines are equally long, and column k of the gloss line
      sits under column k of the source line. */
  lemma AlignedStacked(src: seq<string>, gls: seq<string>, k: nat)
    requires k < Columns(src, gls)
    requires forall i | 0 <= i < |src| :: NoSpace(src[i])
    requires forall i | 0 <= i < |gls| :: NoSpace(gls[i])
    ensures var n := Columns(src, gls);
            var w := Widths(src, gls);
            Stacked(AlignedSource(src, gls), AlignedGloss(src, gls), Sum(w[..k]), w[k],
                    LJust(PadWords(src, n)[k], w[k]), LJust(PadWords(gls, n)[k], w[k]))
  {
    AlignedSameLength(src, gls);
    AlignedSourceColumn(src, gls, k);
    AlignedGlossColumn(src, gls, k);
  }

  /** Column k of both lines sits at the same offset (the widths of the
      columns before it), is at least two wider than either of its words,
      holds the padded source word and the padded gloss word left-justified,
      and right-stripping it gives back the word. */
  lemma AlignedColumn(src: seq<string>, gls: seq<string>, k: nat)
    requires k < Columns(src, gls)
    requires forall i | 0 <= i < |src| :: NoSpace(src[i])
    requires forall i | 0 <= i < |gls| :: NoSpace(gls[i])
    ensures var n := Columns(src, gls);
            var w := Widths(src, gls);
            var off := Sum(w[..k]);
            && w[k] >= |PadWords(src, n)[k]| + 2
            && w[k] >= |PadWords(gls, n)[k]| + 2
            && off + w[k] <= |AlignedSource(src, gls)|
            && off + w[k] <= |AlignedGloss(src, gls)|
            && AlignedSource(src, gls)[off..off + w[k]] == LJust(PadWords(src, n)[k], w[k])
            && AlignedGloss(src, gls)[off..off + w[k]] == LJust(PadWords(gls, n)[k], w[k])
            && TrimRight(LJust(PadWords(src, n)[k], w[k])) == PadWords(src, n)[k]
            && TrimRight(LJust(PadWords(gls, n)[k], w[k])) == PadWords(gls, n)[k]
  {
    var n := Columns(src, gls);
    var w := Widths(src, gls);
    WidthsCover(src, gls);
    AlignedSourceColumn(src, gls, k);
    AlignedGlossColumn(src, gls, k);
    PaddedWordTrims(src, n, w[k], k);
    PaddedWordTrims(gls, n, w[k], k);
  }
}
