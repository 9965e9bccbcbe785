/** What the plain-text layout promises: the first line carries the
    numbering, the gloss words sit under their source words, batches come in
    threes separated by blank lines, a batched entry carries no
    secondary-language source or gloss line, and the text of a list of
    entries grows entry by entry. */
module FormatProperties {
  import opened Text
  import opened Alignment
  import opened Entries
  import opened EntryFormat

  /** Stacked batches take three lines each but the last, which takes
      two. */
  lemma {:induction false} StackLength(numbering: string, indent: string, sources: seq<string>,
                                       glosses: seq<string>, first: bool)
    requires |sources| == |glosses| && sources != []
    ensures |Stack(numbering, indent, sources, glosses, first)| == 3 * |sources| - 1
    decreases |sources|
  {
    if |sources| > 1 {
      StackLength(numbering, indent, sources[1..], glosses[1..], false);
    }
  }

  /** Batch q of a stack: line 3q is the q-th source line behind the
      numbering (first batch) or the indentation (every other batch), line
      3q + 1 is the q-th gloss line behind the indentation, and line 3q + 2
      is blank when another batch follows. */
  lemma {:induction false} StackAt(numbering: string, indent: string, sources: seq<string>,
                                   glosses: seq<string>, first: bool, q: nat)
    requires |sources| == |glosses| && q < |sources|
    ensures var lines := Stack(numbering, indent, sources, glosses, first);
            && |lines| == 3 * |sources| - 1
            && lines[3 * q] == Lead(numbering, indent, first && q == 0) + sources[q]
            && lines[3 * q + 1] == indent + glosses[q]
            && (q + 1 < |sources| ==> lines[3 * q + 2] == "")
    decreases q
  {
    StackLength(numbering, indent, sources, glosses, first);
    if q > 0 {
      var batch := BatchOf(Lead(numbering, indent, first), indent, sources[0], glosses[0], true);
      var rest := Stack(numbering, indent, sources[1..], glosses[1..], false);
      StackAt(numbering, indent, sources[1..], glosses[1..], false, q - 1);
      LineAfterBatch(batch, rest, 3 * (q - 1));
      LineAfterBatch(batch, rest, 3 * (q - 1) + 1);
      if q + 1 < |sources| {
        LineAfterBatch(batch, rest, 3 * (q - 1) + 2);
      }
    }
  }

  /** Line r of the lines after a three-line batch is line r + 3 of the
      whole. */
  lemma LineAfterBatch(batch: seq<string>, rest: seq<string>, r: nat)
    requires |batch| == 3 && r < |rest|
    ensures (batch + rest)[r + 3] == rest[r]
  {
  }

  /** The words of every batch that starts at word i, i + m, ... */
  function BatchWords(words: seq<string>, m: nat, i: nat): (r: seq<seq<string>>)
    requires m >= 1
    ensures |r| == BatchesFrom(|words|, m, i)
    decreases |words| - i
  {
    if i >= |words| then [] else [words[i..Min(i + m, |words|)]] + BatchWords(words, m, i + m)
  }

  /** The batches from word i, read one after the other, are the words
      from i: no word is lost, repeated or moved. */
  lemma {:induction false} BatchWordsPartition(words: seq<string>, m: nat, i: nat)
    requires m >= 1 && i <= |words|
    ensures Flatten(BatchWords(words, m, i)) == words[i..]
    decreases |words| - i
  {
    if i < |words| {
      var j := Min(i + m, |words|);
      var rest := BatchWords(words, m, i + m);
      if i + m <= |words| {
        BatchWordsPartition(words, m, i + m);
      } else {
        assert rest == [];
      }
      var bs := BatchWords(words, m, i);
      assert bs == [words[i..j]] + rest;
      assert bs[1..] == rest;
      assert Flatten(bs) == words[i..j] + Flatten(rest);
      assert words[i..] == words[i..j] + words[j..];
    }
  }

  /** Batch q starts at word i + q * m and holds the next m words, or the
      words that are left. */
  lemma {:induction false} BatchWordsAt(words: seq<string>, m: nat, i: nat, q: nat)
    requires m >= 1 && q < BatchesFrom(|words|, m, i)
    ensures i + q * m < |words|
    ensures BatchWords(words, m, i)[q] == words[i + q * m..Min(i + q * m + m, |words|)]
    decreases q
  {
    if q > 0 {
      assert BatchCount(|words| - i, m) == 1 + BatchCount(|words| - (i + m), m);
      BatchWordsAt(words, m, i + m, q - 1);
      assert (i + m) + (q - 1) * m == i + q * m;
    }
  }

  /** Past the first batch, the batches from word i are the batches from
      word i + m. */
  lemma BatchShift(src: seq<string>, gls: seq<string>, m: nat, i: nat, q: nat)
    requires |src| == |gls| && m >= 1 && 0 < q < BatchesFrom(|src|, m, i)
    ensures BatchWords(src, m, i)[q] == BatchWords(src, m, i + m)[q - 1]
    ensures BatchWords(gls, m, i)[q] == BatchWords(gls, m, i + m)[q - 1]
    ensures BatchSources(src, gls, m, i)[q] == BatchSources(src, gls, m, i + m)[q - 1]
    ensures BatchGlosses(src, gls, m, i)[q] == BatchGlosses(src, gls, m, i + m)[q - 1]
  {
    var j := Min(i + m, |src|);
    ConsAt(src[i..j], BatchWords(src, m, i + m), q);
    ConsAt(gls[i..j], BatchWords(gls, m, i + m), q);
    ConsAt(AlignedSource(src[i..j], gls[i..j]), BatchSources(src, gls, m, i + m), q);
    ConsAt(AlignedGloss(src[i..j], gls[i..j]), BatchGlosses(src, gls, m, i + m), q);
  }

  /** The aligned source line of batch q is the alignment of the words of
      batch q. */
  lemma {:induction false} BatchSourceAt(src: seq<string>, gls: seq<string>, m: nat, i: nat, q: nat)
    requires |src| == |gls| && m >= 1 && q < BatchesFrom(|src|, m, i)
    ensures BatchSources(src, gls, m, i)[q] == AlignedSource(BatchWords(src, m, i)[q], BatchWords(gls, m, i)[q])
    decreases q
  {
    if q > 0 {
      BatchesFromStep(|src|, m, i, q);
      BatchSourceAt(src, gls, m, i + m, q - 1);
      BatchShift(src, gls, m, i, q);
      AlignedSourceCongruence(BatchSources(src, gls, m, i)[q], BatchSources(src, gls, m, i + m)[q - 1],
        BatchWords(src, m, i)[q], BatchWords(src, m, i + m)[q - 1],
        BatchWords(gls, m, i)[q], BatchWords(gls, m, i + m)[q - 1]);
    }
  }

  /** The aligned gloss line of batch q is the alignment of the words of
      batch q. */
  lemma {:induction false} BatchGlossAt(src: seq<string>, gls: seq<string>, m: nat, i: nat, q: nat)
    requires |src| == |gls| && m >= 1 && q < BatchesFrom(|src|, m, i)
    ensures BatchGlosses(src, gls, m, i)[q] == AlignedGloss(BatchWords(src, m, i)[q], BatchWords(gls, m, i)[q])
    decreases q
  {
    if q > 0 {
      BatchesFromStep(|src|, m, i, q);
      BatchGlossAt(src, gls, m, i + m, q - 1);
      BatchShift(src, gls, m, i, q);
      AlignedGlossCongruence(BatchGlosses(src, gls, m, i)[q], BatchGlosses(src, gls, m, i + m)[q - 1],
        BatchWords(src, m, i)[q], BatchWords(src, m, i + m)[q - 1],
        BatchWords(gls, m, i)[q], BatchWords(gls, m, i + m)[q - 1]);
    }
  }

  lemma AlignedSourceCongruence(x: string, y: string, a: seq<string>, a': seq<string>, b: seq<string>, b': seq<string>)
    requires x == y && y == AlignedSource(a', b') && a == a' && b == b'
    ensures x == AlignedSource(a, b)
  {
  }

  lemma AlignedGlossCongruence(x: string, y: string, a: seq<string>, a': seq<string>, b: seq<string>, b': seq<string>)
    requires x == y && y == AlignedGloss(a', b') && a == a' && b == b'
    ensures x == AlignedGloss(a, b)
  {
  }

  lemma BatchesFromStep(n: nat, m: nat, i: nat, q: nat)
    requires m >= 1 && 0 < q < BatchesFrom(n, m, i)
    ensures i + m < n && q - 1 < BatchesFrom(n, m, i + m)
  {
    assert BatchCount(n - i, m) == 1 + BatchCount(n - (i + m), m);
  }

  lemma BatchesFromStart(n: nat, m: nat)
    requires m >= 1
    ensures BatchesFrom(n, m, 0) == BatchCount(n, m)
  {
  }

  lemma ConsAt<T>(x: T, rest: seq<T>, q: nat)
    requires 0 < q <= |rest|
    ensures ([x] + rest)[q] == rest[q - 1]
  {
  }

  /** The lead of a source line is exactly as wide as the indentation of
      the line beneath it. */
  lemma LeadAsWideAsIndent(numbering: string, first: bool)
    ensures |Lead(numbering, Indent(numbering), first)| == |Indent(numbering)|
  {
  }

  /** Batch q of the batched layout: its source line is the lead (the
      numbering for the first batch, blanks for the others) followed by the
      alignment of the batch's words, its gloss line is the indentation
      followed by the aligned glosses, both lines are equally wide, and a
      blank line separates it from the next batch. Which words batch q holds
      is BatchWordsAt. */
  lemma BatchLinesAt(numbering: string, src: seq<string>, gls: seq<string>, m: nat, q: nat)
    requires |src| == |gls| && m >= 1 && q < BatchCount(|src|, m)
    ensures |BatchWords(src, m, 0)| == |BatchWords(gls, m, 0)| == BatchCount(|src|, m)
    ensures var lines := BatchLines(numbering, Indent(numbering), src, gls, m, 0);
            var words, glosses := BatchWords(src, m, 0)[q], BatchWords(gls, m, 0)[q];
            && |lines| == 3 * BatchCount(|src|, m) - 1
            && lines[3 * q] == Lead(numbering, Indent(numbering), q == 0) + AlignedSource(words, glosses)
            && lines[3 * q + 1] == Indent(numbering) + AlignedGloss(words, glosses)
            && |lines[3 * q]| == |lines[3 * q + 1]|
            && (q + 1 < BatchCount(|src|, m) ==> lines[3 * q + 2] == "")
  {
    BatchesFromStart(|src|, m);
    BatchSourceAt(src, gls, m, 0, q);
    BatchGlossAt(src, gls, m, 0, q);
    StackAt(numbering, Indent(numbering), BatchSources(src, gls, m, 0), BatchGlosses(src, gls, m, 0), true, q);
    LeadAsWideAsIndent(numbering, q == 0);
    AlignedSameLength(BatchWords(src, m, 0)[q], BatchWords(gls, m, 0)[q]);
  }

  /** A line that starts with the lead of a first batch starts with the
      numbering. */
  lemma LeadStartsWithNumbering(numbering: string, indent: string, line: string)
    ensures |numbering| <= |Lead(numbering, indent, true) + line|
            || numbering == []
    ensures numbering != [] ==> (Lead(numbering, indent, true) + line)[..|numbering|] == numbering
  {
  }

  /** The aligned lines, batched or not, start with a line that starts
      with the numbering. */
  lemma AlignedLinesFirst(numbering: string, src: seq<string>, gls: seq<string>, m: nat, f: Fields)
    requires |src| == |gls| && m >= 1
    ensures var lines := AlignedLines(numbering, src, gls, m, f);
            lines != [] && |numbering| <= |lines[0]| && lines[0][..|numbering|] == numbering
  {
    var indent := Indent(numbering);
    var first: string;
    var lines := AlignedLines(numbering, src, gls, m, f);
    if |src| > m {
      var sources, glosses := BatchSources(src, gls, m, 0), BatchGlosses(src, gls, m, 0);
      assert |sources| == BatchCount(|src|, m) > 0;
      StackAt(numbering, indent, sources, glosses, true, 0);
      first := sources[0];
    } else {
      first := AlignedSource(src, gls);
    }
    assert lines != [] && lines[0] == Lead(numbering, indent, true) + first;
    LeadStartsWithNumbering(numbering, indent, first);
  }

  /** Every layout has a first line, and it starts with the numbering. */
  lemma LayoutFirstLine(numbering: string, f: Fields, m: nat)
    requires m >= 1
    ensures var lines := Layout(numbering, f, m);
            lines != [] && |numbering| <= |lines[0]| && lines[0][..|numbering|] == numbering
  {
    if IsMultiWord(f.source, f.gloss) {
      var n := Columns(SourceWords(f), GlossWords(f));
      var src, gls := PadWords(SourceWords(f), n), PadWords(GlossWords(f), n);
      var lines := AlignedLines(numbering, src, gls, m, f);
      AlignedLinesFirst(numbering, src, gls, m, f);
      var indent := Indent(numbering);
      assert Layout(numbering, f, m)
             == lines + TranslationLines(indent, f.translation, f.notes)
                + CnLine(indent, TranslationCnLabel, f.translationCn);
      FirstOfConcat(lines, TranslationLines(indent, f.translation, f.notes),
                    CnLine(indent, TranslationCnLabel, f.translationCn));
    }
  }

  lemma FirstOfConcat(a: seq<string>, b: seq<string>, c: seq<string>)
    requires a != []
    ensures (a + b + c)[0] == a[0]
  {
  }

  /** Every formatted entry has a first line, and it starts with the
      numbering. */
  lemma FirstLineNumbered(e: Entry, showNumbering: bool, numberFormat: string, m: nat,
                          includeChinese: bool)
    requires m >= 1
    ensures var lines := EntryLines(e, showNumbering, numberFormat, m, includeChinese);
            var numbering := NumberingText(e, showNumbering, numberFormat);
            lines != [] && |numbering| <= |lines[0]| && lines[0][..|numbering|] == numbering
  {
    LayoutFirstLine(NumberingText(e, showNumbering, numberFormat), StrippedFields(e, includeChinese), m);
  }

  /** Two equally long lines behind two equally long leads: a column the
      lines share is shared by the led lines, shifted by the lead. */
  lemma ColumnBehindLeads(lead: string, indent: string, a: string, g: string, off: nat, len: nat,
                          top: string, bottom: string)
    requires |lead| == |indent|
    requires Stacked(a, g, off, len, top, bottom)
    ensures Stacked(lead + a, indent + g, |indent| + off, len, top, bottom)
  {
    assert (lead + a)[|lead| + off..|lead| + off + len] == a[off..off + len];
    assert (indent + g)[|indent| + off..|indent| + off + len] == g[off..off + len];
  }

  /** In a source line and the gloss line beneath it, behind leads of the
      same width (as every lead of the layout is as wide as the indentation,
      LeadAsWideAsIndent), column k starts at the same offset in both lines
      and holds the k-th padded source word and the k-th padded gloss word,
      left-justified: the gloss word sits under its source word. Both lines
      have the same length. */
  lemma GlossUnderSource(lead: string, indent: string, src: seq<string>, gls: seq<string>, k: nat)
    requires |lead| == |indent| && k < Columns(src, gls)
    requires forall i | 0 <= i < |src| :: NoSpace(src[i])
    requires forall i | 0 <= i < |gls| :: NoSpace(gls[i])
    ensures var n := Columns(src, gls);
            var w := Widths(src, gls);
            Stacked(lead + AlignedSource(src, gls), indent + AlignedGloss(src, gls),
                    |indent| + Sum(w[..k]), w[k],
                    LJust(PadWords(src, n)[k], w[k]), LJust(PadWords(gls, n)[k], w[k]))
  {
    var n := Columns(src, gls);
    var w := Widths(src, gls);
    var top, bottom := LJust(PadWords(src, n)[k], w[k]), LJust(PadWords(gls, n)[k], w[k]);
    AlignedStacked(src, gls, k);
    ColumnBehindLeads(lead, indent, AlignedSource(src, gls), AlignedGloss(src, gls), Sum(w[..k]), w[k], top, bottom);
  }

  /** When the words are batched, the secondary-language source and gloss
      texts do not appear at all: the layout is the same as if they were
      absent. */
  lemma BatchedIgnoresCnSourceAndGloss(numbering: string, f: Fields, m: nat)
    requires m >= 1
    requires IsMultiWord(f.source, f.gloss) && Columns(SourceWords(f), GlossWords(f)) > m
    ensures Layout(numbering, f, m) == Layout(numbering, f.(sourceCn := "", glossCn := ""), m)
  {
  }

  /** Without the secondary language, a single-word layout is the numbered
      source text as it is, then the gloss line when there is a gloss, then
      the translation line when there is a translation or notes. */
  lemma SingleWordShape(numbering: string, f: Fields, m: nat)
    requires m >= 1
    requires !IsMultiWord(f.source, f.gloss)
    requires f.sourceCn == f.glossCn == f.translationCn == ""
    ensures var indent := Spaces(|numbering|);
            Layout(numbering, f, m)
            == [numbering + f.source]
               + (if f.gloss != "" then [indent + f.gloss] else [])
               + TranslationLines(indent, f.translation, f.notes)
  {
  }

  /** One more block of text and an empty line add a newline, the text and
      another newline to the joined lines. */
  lemma JoinBlock(blocks: seq<string>, t: string)
    requires blocks != []
    ensures JoinLines(blocks + [t, ""]) == JoinLines(blocks) + "\n" + t + "\n"
  {
    assert blocks + [t, ""] == (blocks + [t]) + [""];
    JoinLinesSnoc(blocks, t);
    JoinLinesSnoc(blocks + [t], "");
  }

  /** The text of one entry on its own is that entry's text and a newline. */
  lemma FormatOneEntry(e: Entry, showNumbering: bool, numberFormat: string, includeChinese: bool)
    ensures JoinLines(EntryBlocks([e], showNumbering, numberFormat, includeChinese))
            == EntryText(e, showNumbering, numberFormat, includeChinese) + "\n"
  {
    assert [e][..0] == [];
    JoinTextAndBlank(EntryText(e, showNumbering, numberFormat, includeChinese));
  }

  lemma JoinTextAndBlank(t: string)
    ensures JoinLines([t, ""]) == t + "\n"
  {
    assert [t, ""] == [t] + [""];
    JoinLinesSnoc([t], "");
  }

  /** Appending an entry to a non-empty list appends a newline, its text and
      another newline to the formatted text: entries are kept in input order
      and separated by one empty line. */
  lemma FormatEntriesSnoc(entries: seq<Entry>, e: Entry, showNumbering: bool, numberFormat: string,
                          includeChinese: bool)
    requires entries != []
    ensures JoinLines(EntryBlocks(entries + [e], showNumbering, numberFormat, includeChinese))
            == JoinLines(EntryBlocks(entries, showNumbering, numberFormat, includeChinese))
               + "\n" + EntryText(e, showNumbering, numberFormat, includeChinese) + "\n"
  {
    var blocks := EntryBlocks(entries, showNumbering, numberFormat, includeChinese);
    var t := EntryText(e, showNumbering, numberFormat, includeChinese);
    assert (entries + [e])[..|entries|] == entries;
    assert EntryBlocks(entries + [e], showNumbering, numberFormat, includeChinese) == blocks + [t, ""];
    JoinBlock(blocks, t);
  }
}
