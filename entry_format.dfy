/** The plain-text interlinear formatter (`TextFormatter.format_entry` and
    `TextFormatter.format_entries`): a numbered source line, the gloss line
    aligned word by word beneath it, then the quoted translation with the
    notes, and the secondary-language lines under a fixed bracketed label. */
module EntryFormat {
  import opened Text
  import opened Alignment
  import opened Entries

  const SourceCnLabel := "【原文(汉字)】"
  const GlossCnLabel := "【词汇分解(汉字)】"
  const TranslationCnLabel := "【翻译(汉字)】"

  /** The indentation used when there is no numbering. */
  const FallbackIndent := "    "

  /** The number shown for an entry: its example label, else its record id. */
  function Label(e: Entry): (r: string)
    ensures r != []
    ensures e.exampleId != [] ==> r == e.exampleId
    ensures e.exampleId == [] ==> IsDigits(r) && ParseDigits(r) == e.id
  {
    if e.exampleId != "" then e.exampleId
    else
      ParseNatToString(e.id);
      NatToString(e.id)
  }

  /** The numbering prefix: "(X) " for the "()" style, "X. " for any other
      style, nothing when numbering is off. */
  function NumberingText(e: Entry, showNumbering: bool, numberFormat: string): (r: string)
    ensures r == [] <==> !showNumbering
    ensures showNumbering && numberFormat == "()" ==>
      |r| == |Label(e)| + 3 && r[0] == '(' && r[1..|r| - 2] == Label(e) && r[|r| - 2..] == ") "
    ensures showNumbering && numberFormat != "()" ==>
      |r| == |Label(e)| + 2 && r[..|r| - 2] == Label(e) && r[|r| - 2..] == ". "
  {
    if !showNumbering then ""
    else if numberFormat == "()" then "(" + Label(e) + ") "
    else Label(e) + ". "
  }

  /** The indentation of every line after the first in the multi-word layout. */
  function Indent(numbering: string): (r: string)
    ensures numbering != [] ==> |r| == |numbering|
    ensures numbering == [] ==> |r| == 4
    ensures forall i | 0 <= i < |r| :: r[i] == ' '
  {
    if numbering != "" then Spaces(|numbering|) else FallbackIndent
  }

  /** What starts a source line: the numbering on the very first one when
      there is a numbering, the indentation everywhere else. */
  function Lead(numbering: string, indent: string, first: bool): string {
    if first && numbering != "" then numbering else indent
  }

  /** The translation line: 'T' (N), 'T', (N) or none, by which of the
      translation T and the notes N are present. */
  function TranslationLines(indent: string, translation: string, notes: string): (r: seq<string>)
    ensures |r| <= 1
    ensures r == [] <==> translation == [] && notes == []
    ensures r != [] ==> |r[0]| > |indent| && r[0][..|indent|] == indent
    ensures translation != [] ==>
      && r != [] && |r[0]| >= |indent| + 1 + |translation|
      && r[0][|indent|] == '\'' && r[0][|indent| + 1..|indent| + 1 + |translation|] == translation
    ensures translation != [] && notes != [] ==> r == [indent + "'" + translation + "' (" + notes + ")"]
    ensures translation != [] && notes == [] ==> r == [indent + "'" + translation + "'"]
    ensures translation == [] && notes != [] ==> r == [indent + "(" + notes + ")"]
  {
    if translation != "" then
      if notes != "" then [indent + "'" + translation + "' (" + notes + ")"]
      else [indent + "'" + translation + "'"]
    else if notes != "" then [indent + "(" + notes + ")"]
    else []
  }

  /** A secondary-language line under its label, when the text is present. */
  function CnLine(indent: string, tag: string, text: string): seq<string> {
    if text != "" then [indent + tag + text] else []
  }

  function Min(a: int, b: int): int {
    if a < b then a else b
  }

  /** One batch: the source line behind its lead, the gloss line behind the
      indentation, and a blank line when more batches follow. */
  function BatchOf(lead: string, indent: string, alignedSource: string, alignedGloss: string,
                   more: bool): (r: seq<string>)
    ensures |r| == if more then 3 else 2
  {
    [lead + alignedSource, indent + alignedGloss] + (if more then [""] else [])
  }

  /** Number of batches of size m needed for n words: ceil(n / m). */
  function BatchCount(n: nat, m: nat): nat
    requires m >= 1
    decreases n
  {
    if n == 0 then 0 else if n <= m then 1 else 1 + BatchCount(n - m, m)
  }

  /** The number of batches that start at word i, i + m, ... */
  function BatchesFrom(n: nat, m: nat, i: nat): nat
    requires m >= 1
  {
    if i < n then BatchCount(n - i, m) else 0
  }

  /** The aligned source line of every batch that starts at word i,
      i + m, ... */
  function BatchSources(src: seq<string>, gls: seq<string>, m: nat, i: nat): (r: seq<string>)
    requires |src| == |gls| && m >= 1
    ensures |r| == BatchesFrom(|src|, m, i)
    decreases |src| - i
  {
    if i >= |src| then []
    else
      var j := Min(i + m, |src|);
      [AlignedSource(src[i..j], gls[i..j])] + BatchSources(src, gls, m, i + m)
  }

  /** The aligned gloss line of every batch that starts at word i,
      i + m, ... */
  function BatchGlosses(src: seq<string>, gls: seq<string>, m: nat, i: nat): (r: seq<string>)
    requires |src| == |gls| && m >= 1
    ensures |r| == BatchesFrom(|src|, m, i)
    decreases |src| - i
  {
    if i >= |src| then []
    else
      var j := Min(i + m, |src|);
      [AlignedGloss(src[i..j], gls[i..j])] + BatchGlosses(src, gls, m, i + m)
  }

  /** Aligned batches stacked: every batch is its source line behind its
      lead and its gloss line behind the indentation, with a blank line
      between consecutive batches and none after the last. */
  function Stack(numbering: string, indent: string, sources: seq<string>, glosses: seq<string>,
                 first: bool): seq<string>
    requires |sources| == |glosses|
    decreases |sources|
  {
    if sources == [] then []
    else
      BatchOf(Lead(numbering, indent, first), indent, sources[0], glosses[0], |sources| > 1)
      + Stack(numbering, indent, sources[1..], glosses[1..], false)
  }

  /** The lines of the batches that start at word i, i + m, ... */
  function BatchLines(numbering: string, indent: string, src: seq<string>, gls: seq<string>,
                      m: nat, i: nat): seq<string>
    requires |src| == |gls| && m >= 1
  {
    Stack(numbering, indent, BatchSources(src, gls, m, i), BatchGlosses(src, gls, m, i), i == 0)
  }

  predicate IsMultiWord(source: string, gloss: string) {
    |Split(source)| > 1 && |Split(gloss)| > 1
  }

  /** The unbatched multi-word layout: one aligned pair of lines, each
      followed by its secondary-language line when there is one. */
  function SingleBatchLines(numbering: string, indent: string, src: seq<string>, gls: seq<string>,
                            f: Fields): seq<string> {
    [Lead(numbering, indent, true) + AlignedSource(src, gls)] + CnLine(indent, SourceCnLabel, f.sourceCn)
    + [indent + AlignedGloss(src, gls)] + CnLine(indent, GlossCnLabel, f.glossCn)
  }

  /** The aligned part of the multi-word layout: batches of m words when
      there are more than m words, else a single aligned pair. */
  function AlignedLines(numbering: string, src: seq<string>, gls: seq<string>, m: nat, f: Fields): seq<string>
    requires |src| == |gls| && m >= 1
  {
    if |src| > m then BatchLines(numbering, Indent(numbering), src, gls, m, 0)
    else SingleBatchLines(numbering, Indent(numbering), src, gls, f)
  }

  /** The multi-word layout, from the padded word lists: the aligned lines,
      then the translation lines. */
  function MultiWordLines(numbering: string, src: seq<string>, gls: seq<string>, m: nat, f: Fields): seq<string>
    requires |src| == |gls| && m >= 1
  {
    AlignedLines(numbering, src, gls, m, f)
    + TranslationLines(Indent(numbering), f.translation, f.notes)
    + CnLine(Indent(numbering), TranslationCnLabel, f.translationCn)
  }

  /** The single-word layout: the texts as they are, indented under the
      numbering. */
  function SingleWordLines(numbering: string, f: Fields): seq<string> {
    var indent := Spaces(|numbering|);
    [numbering + f.source] + CnLine(indent, SourceCnLabel, f.sourceCn)
    + (if f.gloss != "" then [indent + f.gloss] else []) + CnLine(indent, GlossCnLabel, f.glossCn)
    + TranslationLines(indent, f.translation, f.notes)
    + CnLine(indent, TranslationCnLabel, f.translationCn)
  }

  /** The word lists of the multi-word layout: source tokens with the final
      lone period merged, gloss tokens, both padded to the same length. */
  function SourceWords(f: Fields): seq<string> {
    MergeFinalPeriod(Split(f.source))
  }

  function GlossWords(f: Fields): seq<string> {
    Split(f.gloss)
  }

  /** The lines of an entry with the given numbering and stripped fields:
      the multi-word layout when both the source and the gloss hold more
      than one token, else the single-word layout. */
  function Layout(numbering: string, f: Fields, m: nat): seq<string>
    requires m >= 1
  {
    if IsMultiWord(f.source, f.gloss) then
      var n := Columns(SourceWords(f), GlossWords(f));
      MultiWordLines(numbering, PadWords(SourceWords(f), n), PadWords(GlossWords(f), n), m, f)
    else
      SingleWordLines(numbering, f)
  }

  /** The lines of one formatted entry. */
  function EntryLines(e: Entry, showNumbering: bool, numberFormat: string, m: nat,
                      includeChinese: bool): seq<string>
    requires m >= 1
  {
    Layout(NumberingText(e, showNumbering, numberFormat), StrippedFields(e, includeChinese), m)
  }

  /** The source's `format_entry`: the numbering, the stripped fields, then
      the multi-word or the single-word layout, joined with newlines. */
  method FormatEntry(entry: Entry, showNumbering: bool, numberFormat: string,
                     maxWordsPerLine: nat, includeChinese: bool) returns (text: string)
    requires maxWordsPerLine >= 1
    ensures text == JoinLines(EntryLines(entry, showNumbering, numberFormat, maxWordsPerLine, includeChinese))
  {
    var numberingText := "";
    if showNumbering {
      var exampleId := entry.exampleId;
      if exampleId != "" {
        if numberFormat == "()" {
          numberingText := "(" + exampleId + ") ";
        } else {
          numberingText := exampleId + ". ";
        }
      } else {
        var entryId := NatToString(entry.id);
        if numberFormat == "()" {
          numberingText := "(" + entryId + ") ";
        } else {
          numberingText := entryId + ". ";
        }
      }
    }
    assert numberingText == NumberingText(entry, showNumbering, numberFormat);
    var f := StrippedFields(entry, includeChinese);
    var lines: seq<string>;
    var sourceHasWords := |Split(f.source)| > 1;
    var glossHasWords := |Split(f.gloss)| > 1;
    if sourceHasWords && glossHasWords {
      var sourceWords := MergeFinalPeriod(Split(f.source));
      var glossWords := Split(f.gloss);
      var maxLen := Max(|sourceWords|, |glossWords|);
      sourceWords := PadWords(sourceWords, maxLen);
      glossWords := PadWords(glossWords, maxLen);
      lines := FormatMultiWord(numberingText, sourceWords, glossWords, maxWordsPerLine, f);
    } else {
      lines := FormatSingleWord(numberingText, f);
    }
    text := JoinLines(lines);
  }

  /** The multi-word branch of `format_entry`. */
  method FormatMultiWord(numberingText: string, sourceWords: seq<string>, glossWords: seq<string>,
                         maxWordsPerLine: nat, f: Fields) returns (lines: seq<string>)
    requires |sourceWords| == |glossWords| && maxWordsPerLine >= 1
    ensures lines == MultiWordLines(numberingText, sourceWords, glossWords, maxWordsPerLine, f)
  {
    var indent := if numberingText != "" then Spaces(|numberingText|) else FallbackIndent;
    if |sourceWords| > maxWordsPerLine {
      lines := FormatBatches(numberingText, indent, sourceWords, glossWords, maxWordsPerLine);
    } else {
      lines := FormatSingleBatch(numberingText, indent, sourceWords, glossWords, f);
    }
    assert lines == AlignedLines(numberingText, sourceWords, glossWords, maxWordsPerLine, f);
    lines := AppendTranslation(lines, indent, f);
  }

  /** The unbatched multi-word layout of `format_entry`. */
  method FormatSingleBatch(numberingText: string, indent: string, sourceWords: seq<string>,
                           glossWords: seq<string>, f: Fields) returns (lines: seq<string>)
    ensures lines == SingleBatchLines(numberingText, indent, sourceWords, glossWords, f)
  {
    var alignedSource, alignedGloss := AlignWords(sourceWords, glossWords);
    lines := AppendAlignedPair(numberingText, indent, alignedSource, alignedGloss, f);
  }

  /** The aligned pair with the secondary-language lines, as
      `format_entry` appends them. */
  method AppendAlignedPair(numberingText: string, indent: string, alignedSource: string,
                           alignedGloss: string, f: Fields) returns (lines: seq<string>)
    ensures lines == [Lead(numberingText, indent, true) + alignedSource] + CnLine(indent, SourceCnLabel, f.sourceCn)
                     + [indent + alignedGloss] + CnLine(indent, GlossCnLabel, f.glossCn)
  {
    lines := [];
    if numberingText != "" {
      lines := lines + [numberingText + alignedSource];
    } else {
      lines := lines + [indent + alignedSource];
    }
    if f.sourceCn != "" {
      lines := lines + [indent + SourceCnLabel + f.sourceCn];
    }
    ghost var upToSource := lines;
    lines := lines + [indent + alignedGloss];
    if f.glossCn != "" {
      lines := lines + [indent + GlossCnLabel + f.glossCn];
    }
    assert lines == upToSource + [indent + alignedGloss] + CnLine(indent, GlossCnLabel, f.glossCn);
  }

  /** The batching loop of `format_entry`: `for i in range(0, n, m)`. */
  method FormatBatches(numberingText: string, indent: string, sourceWords: seq<string>,
                       glossWords: seq<string>, maxWordsPerLine: nat) returns (lines: seq<string>)
    requires |sourceWords| == |glossWords| && maxWordsPerLine >= 1
    ensures lines == BatchLines(numberingText, indent, sourceWords, glossWords, maxWordsPerLine, 0)
  {
    ghost var all := BatchLines(numberingText, indent, sourceWords, glossWords, maxWordsPerLine, 0);
    lines := [];
    var i: nat := 0;
    while i < |sourceWords|
      invariant lines + BatchLines(numberingText, indent, sourceWords, glossWords, maxWordsPerLine, i) == all
      decreases |sourceWords| - i
    {
      var next := i + maxWordsPerLine;
      var end := Min(next, |sourceWords|);
      var alignedSource, alignedGloss := AlignWords(sourceWords[i..end], glossWords[i..end]);
      var more := next < |sourceWords|;
      BatchStep(lines, all, numberingText, indent, sourceWords, glossWords, maxWordsPerLine, i, end,
                alignedSource, alignedGloss);
      lines := AppendBatch(lines, numberingText, indent, i == 0, alignedSource, alignedGloss, more);
      i := next;
    }
  }

  /** The batches from word i are the batch at word i, then the batches
      from word i + m. */
  lemma BatchLinesUnfold(numbering: string, indent: string, src: seq<string>, gls: seq<string>,
                         m: nat, i: nat)
    requires |src| == |gls| && m >= 1 && i < |src|
    ensures var j := Min(i + m, |src|);
            BatchLines(numbering, indent, src, gls, m, i)
            == BatchOf(Lead(numbering, indent, i == 0), indent, AlignedSource(src[i..j], gls[i..j]),
                       AlignedGloss(src[i..j], gls[i..j]), i + m < |src|)
               + BatchLines(numbering, indent, src, gls, m, i + m)
  {
    var sources := BatchSources(src, gls, m, i);
    var glosses := BatchGlosses(src, gls, m, i);
    assert sources[1..] == BatchSources(src, gls, m, i + m);
    assert glosses[1..] == BatchGlosses(src, gls, m, i + m);
    assert |sources| > 1 <==> i + m < |src|;
  }

  lemma AppendAssoc(a: seq<string>, b: seq<string>, c: seq<string>)
    ensures (a + b) + c == a + (b + c)
  {
  }

  /** Appending the batch at word i moves the boundary between the lines
      emitted so far and the batches still to come by one batch. */
  lemma BatchStep(lines: seq<string>, all: seq<string>, numbering: string, indent: string,
                  src: seq<string>, gls: seq<string>, m: nat, i: nat, j: nat, a: string, g: string)
    requires |src| == |gls| && m >= 1 && i < |src| && j == Min(i + m, |src|)
    requires lines + BatchLines(numbering, indent, src, gls, m, i) == all
    requires a == AlignedSource(src[i..j], gls[i..j])
    requires g == AlignedGloss(src[i..j], gls[i..j])
    ensures (lines + BatchOf(Lead(numbering, indent, i == 0), indent, a, g, i + m < |src|))
            + BatchLines(numbering, indent, src, gls, m, i + m) == all
  {
    BatchLinesUnfold(numbering, indent, src, gls, m, i);
    AppendAssoc(lines, BatchOf(Lead(numbering, indent, i == 0), indent, a, g, i + m < |src|),
                BatchLines(numbering, indent, src, gls, m, i + m));
  }

  /** One step of the batching loop: the source line (numbered on the first
      batch), the gloss line, and the separating blank line. */
  method AppendBatch(before: seq<string>, numberingText: string, indent: string, first: bool,
                     alignedSource: string, alignedGloss: string, more: bool) returns (lines: seq<string>)
    ensures lines == before + BatchOf(Lead(numberingText, indent, first), indent, alignedSource, alignedGloss, more)
  {
    lines := before;
    if first && numberingText != "" {
      lines := lines + [numberingText + alignedSource];
    } else {
      lines := lines + [indent + alignedSource];
    }
    lines := lines + [indent + alignedGloss];
    if more {
      lines := lines + [""];
    }
  }

  /** The single-word branch of `format_entry`. */
  method FormatSingleWord(numberingText: string, f: Fields) returns (lines: seq<string>)
    ensures lines == SingleWordLines(numberingText, f)
  {
    var indentSpaces := Spaces(|numberingText|);
    lines := [numberingText + f.source];
    if f.sourceCn != "" {
      lines := lines + [indentSpaces + SourceCnLabel + f.sourceCn];
    }
    assert lines == [numberingText + f.source] + CnLine(indentSpaces, SourceCnLabel, f.sourceCn);
    ghost var upToSource := lines;
    if f.gloss != "" {
      lines := lines + [indentSpaces + f.gloss];
    }
    if f.glossCn != "" {
      lines := lines + [indentSpaces + GlossCnLabel + f.glossCn];
    }
    assert lines == upToSource + (if f.gloss != "" then [indentSpaces + f.gloss] else [])
                    + CnLine(indentSpaces, GlossCnLabel, f.glossCn);
    ghost var upToGloss := lines;
    lines := AppendTranslation(lines, indentSpaces, f);
  }

  /** The translation and secondary translation lines, appended. */
  method AppendTranslation(before: seq<string>, indent: string, f: Fields) returns (lines: seq<string>)
    ensures lines == before + TranslationLines(indent, f.translation, f.notes)
                     + CnLine(indent, TranslationCnLabel, f.translationCn)
  {
    lines := before;
    if f.translation != "" {
      if f.notes != "" {
        lines := lines + [indent + "'" + f.translation + "' (" + f.notes + ")"];
      } else {
        lines := lines + [indent + "'" + f.translation + "'"];
      }
    } else if f.notes != "" {
      lines := lines + [indent + "(" + f.notes + ")"];
    }
    assert lines == before + TranslationLines(indent, f.translation, f.notes);
    if f.translationCn != "" {
      lines := lines + [indent + TranslationCnLabel + f.translationCn];
    }
  }

  /** The text of one entry as `format_entries` asks for it: at most ten
      words per line. */
  function EntryText(e: Entry, showNumbering: bool, numberFormat: string, includeChinese: bool): string {
    JoinLines(EntryLines(e, showNumbering, numberFormat, 10, includeChinese))
  }

  /** Every entry's text followed by an empty line, in input order. */
  function EntryBlocks(entries: seq<Entry>, showNumbering: bool, numberFormat: string,
                       includeChinese: bool): (r: seq<string>)
    ensures |r| == 2 * |entries|
  {
    if entries == [] then []
    else
      var n := |entries| - 1;
      EntryBlocks(entries[..n], showNumbering, numberFormat, includeChinese)
      + [EntryText(entries[n], showNumbering, numberFormat, includeChinese), ""]
  }

  lemma EntryBlocksSnoc(entries: seq<Entry>, k: nat, showNumbering: bool, numberFormat: string,
                        includeChinese: bool)
    requires k < |entries|
    ensures EntryBlocks(entries[..k + 1], showNumbering, numberFormat, includeChinese)
            == EntryBlocks(entries[..k], showNumbering, numberFormat, includeChinese)
               + [EntryText(entries[k], showNumbering, numberFormat, includeChinese), ""]
  {
    assert entries[..k + 1][..k] == entries[..k];
  }

  /** The source's `format_entries`: one formatted entry and one empty
      string per entry, joined with newlines. */
  method FormatEntries(entries: seq<Entry>, showNumbering: bool, numberFormat: string,
                       includeChinese: bool) returns (text: string)
    ensures text == JoinLines(EntryBlocks(entries, showNumbering, numberFormat, includeChinese))
  {
    var formatted: seq<string> := [];
    for k := 0 to |entries|
      invariant formatted == EntryBlocks(entries[..k], showNumbering, numberFormat, includeChinese)
    {
      var entryText := FormatEntry(entries[k], showNumbering, numberFormat, 10, includeChinese);
      EntryBlocksSnoc(entries, k, showNumbering, numberFormat, includeChinese);
      formatted := formatted + [entryText, ""];
    }
    assert entries[..|entries|] == entries;
    text := JoinLines(formatted);
  }
}
