/** The document plan of `WordExporter.export`, without the docx calls: for
    every entry, either an interlinear table (when both the source and the
    gloss are several space-separated words) or a stack of paragraphs, then
    a notes paragraph when there are notes, then an empty paragraph. The
    document keeps what is computed here; fonts, borders, margins and the
    file written are not part of this model. */
module ExportPlan {
  import opened Text
  import opened Alignment
  import opened Entries
  import opened EntryFormat
  import opened WidthModel
  import opened LineBreaking
  import opened TableSlices
  import opened TableGrid

  datatype Option<T> = None | Some(value: T)

  /** What is added to the document for an entry. */
  datatype Block =
    | TableBlock(rows: seq<TableRow>, cols: nat, rowHeight: int)
    | Paragraph(text: string, indentCm: real, italic: bool)

  /** The table path's numbering: "(X) " where X is the example label or,
      without one, the entry's 1-based position in the export, whatever
      numbering style the text path uses. */
  function TableNumbering(e: Entry, idx: nat, showNumbering: bool): (r: string)
    ensures r == [] <==> !showNumbering
    ensures showNumbering ==> |r| >= 3 && r[0] == '(' && r[|r| - 2..] == ") "
    ensures showNumbering && e.exampleId != [] ==> r[1..|r| - 2] == e.exampleId
    ensures showNumbering && e.exampleId == [] ==>
      IsDigits(r[1..|r| - 2]) && ParseDigits(r[1..|r| - 2]) == idx
  {
    if !showNumbering then ""
    else
      var name := if e.exampleId != "" then e.exampleId else NatToString(idx);
      ParseNatToString(idx);
      var r := "(" + name + ") ";
      assert r[1..|r| - 2] == name;
      r
  }

  /** Without an example label, the table numbers an entry by its position
      where the text path numbers it by its record id. */
  lemma NumberingByPosition()
    ensures TableNumbering(Entry(42, "", "a b", "x y", "", "", "", "", ""), 3, true) == "(3) "
    ensures NumberingText(Entry(42, "", "a b", "x y", "", "", "", "", ""), true, "()") == "(42) "
  {
    assert NatToString(3) == "3";
    assert NatToString(42) == NatToString(4) + [Digit(2)];
  }

  /** The table test: the source and the gloss each hold a plain space and
      more than one word. */
  predicate IsTableEntry(f: Fields) {
    ' ' in f.source && |Split(f.source)| > 1 && ' ' in f.gloss && |Split(f.gloss)| > 1
  }

  /** Every table entry is multi-word for the text path too. */
  lemma TableEntryIsMultiWord(f: Fields)
    requires IsTableEntry(f)
    ensures IsMultiWord(f.source, f.gloss)
  {
  }

  /** The converse fails: words separated by a tab are aligned by the text
      path but get paragraphs here. */
  lemma TabSeparatedIsNotTable()
    ensures IsMultiWord("a\tb", "x y")
    ensures !IsTableEntry(Fields("a\tb", "x y", "", "", "", "", ""))
  {
    var s := "a\tb";
    assert IsSpace(s[1]) && !IsSpace(s[0]);
    assert WordLength(s) == 1;
    assert s[1..][1..] == "b" && WordLength("b") == 1;
    assert "b"[..1] == "b" && "b"[1..] == [];
    assert Split("b") == ["b"] + Split("b"[1..]);
    assert Split(s) == [s[..1]] + Split(s[1..]);
    var g := "x y";
    assert WordLength(g) == 1;
    assert g[1..][1..] == "y" && WordLength("y") == 1;
    assert "y"[..1] == "y" && "y"[1..] == [];
    assert Split("y") == ["y"] + Split("y"[1..]);
    assert Split(g) == [g[..1]] + Split(g[1..]);
    assert forall i | 0 <= i < |s| :: s[i] != ' ';
  }

  /** A secondary-language word list: the split text when it is asked for
      and present, else none. */
  function CnWords(text: string, includeChinese: bool): seq<string> {
    if includeChinese && text != "" then Split(text) else []
  }

  /** The source words of the table, padded to the length of the gloss. */
  function TableSource(f: Fields): seq<string> {
    PadWords(SourceWords(f), Columns(SourceWords(f), GlossWords(f)))
  }

  /** The gloss words of the table, padded to the length of the source. */
  function TableGloss(f: Fields): seq<string> {
    PadWords(GlossWords(f), Columns(SourceWords(f), GlossWords(f)))
  }

  /** The two word lists have the same length, at least two. */
  lemma TableWordsShape(f: Fields)
    requires IsTableEntry(f)
    ensures |TableSource(f)| == |TableGloss(f)| >= 2
  {
  }

  /** The four line lists: the greedy break of the source words, the gloss
      cut at its rows and the secondary-language lists kept where complete. */
  function TableLines(f: Fields, includeChinese: bool): (ls: Lines)
    requires IsTableEntry(f)
    ensures IsGreedyBreak(TableSource(f), ls.source)
    ensures ls.gloss == Cut(ls.source, TableGloss(f), 0)
    ensures |ls.gloss| == |ls.source| && |ls.sourceCn| <= |ls.source| && |ls.glossCn| <= |ls.source|
  {
    TableWordsShape(f);
    var rows := GreedyRows(TableSource(f));
    GreedyRowsIsGreedy(TableSource(f));
    CutShape(rows, TableGloss(f), 0);
    KeptAtMostRows(rows, CnWords(f.sourceCn, includeChinese));
    KeptAtMostRows(rows, CnWords(f.glossCn, includeChinese));
    Lines(rows, CompleteSlices(rows, CnWords(f.sourceCn, includeChinese), 0),
          Cut(rows, TableGloss(f), 0), CompleteSlices(rows, CnWords(f.glossCn, includeChinese), 0))
  }

  /** Every word whose height counts. */
  function AllWords(f: Fields, includeChinese: bool): seq<string> {
    TableSource(f) + TableGloss(f) + CnWords(f.sourceCn, includeChinese) + CnWords(f.glossCn, includeChinese)
  }

  /** The source rows are not empty, so there are at least two columns. */
  lemma TableColsAtLeastTwo(f: Fields, includeChinese: bool)
    requires IsTableEntry(f)
    ensures AllFitIn(TableLines(f, includeChinese), TableCols(TableLines(f, includeChinese)))
    ensures TableCols(TableLines(f, includeChinese)) >= 2
  {
    var ls := TableLines(f, includeChinese);
    TableColsFit(ls);
    assert |ls.source[0]| <= LongestLine(ls.source);
  }

  /** The table of a table entry. */
  function TableOf(numbering: string, f: Fields, includeChinese: bool, sourceSize: int): Block
    requires IsTableEntry(f)
  {
    var ls := TableLines(f, includeChinese);
    TableColsAtLeastTwo(f, includeChinese);
    var cols := TableCols(ls);
    TableBlock(Grid(numbering, ls, f.translation, f.translationCn, includeChinese, cols), cols,
               RowHeight(AllWords(f, includeChinese), sourceSize))
  }

  /** The row count the source computes before creating the table. */
  function CountedRows(ls: Lines, f: Fields, includeChinese: bool): nat {
    |ls.source| + |ls.gloss| + 1
    + if includeChinese then
        (if CnWords(f.sourceCn, includeChinese) != [] then |ls.sourceCn| else 0)
        + (if CnWords(f.glossCn, includeChinese) != [] then |ls.glossCn| else 0)
        + (if f.translationCn != "" then 1 else 0)
      else 0
  }

  /** The table created with the counted rows is filled exactly: every
      line list is at most as long as the source lines, and a list that is
      not counted is empty. */
  lemma CountedRowsExact(f: Fields, includeChinese: bool)
    requires IsTableEntry(f)
    ensures var ls := TableLines(f, includeChinese);
            CountedRows(ls, f, includeChinese) == TotalRows(ls, f.translationCn, includeChinese)
  {
    var ls := TableLines(f, includeChinese);
    TableWordsShape(f);
    CutShape(ls.source, TableGloss(f), 0);
    var scn := CnWords(f.sourceCn, includeChinese);
    var gcn := CnWords(f.glossCn, includeChinese);
    KeptAtMostRows(ls.source, scn);
    KeptAtMostRows(ls.source, gcn);
    NoWordsNoSlices(ls.source);
  }

  lemma KeptAtMostRows(rows: seq<seq<string>>, words: seq<string>)
    ensures |CompleteSlices(rows, words, 0)| <= |rows|
  {
    CompleteSlicesArePrefix(rows, words, 0);
  }

  /** Column k of line q holds the same word position in the source row and
      in the gloss row beneath it: both are cut at the same boundary. */
  lemma GlossUnderSourceInTable(f: Fields, includeChinese: bool, q: nat, k: nat)
    requires IsTableEntry(f)
    requires q < |TableLines(f, includeChinese).source| && k < |TableLines(f, includeChinese).source[q]|
    ensures var ls := TableLines(f, includeChinese);
      var b := Boundary(ls.source, q);
      && b + k < |TableSource(f)| && q < |ls.gloss| && k < |ls.gloss[q]|
      && ls.source[q][k] == TableSource(f)[b + k]
      && ls.gloss[q][k] == TableGloss(f)[b + k]
  {
    var ls := TableLines(f, includeChinese);
    TableWordsShape(f);
    CutColumn(ls.source, TableSource(f), TableGloss(f), q, k);
  }

  /** The secondary-language rows of a table sit under the source rows of
      the same index, word for word. */
  lemma SourceCnUnderSource(f: Fields, includeChinese: bool, q: nat)
    requires IsTableEntry(f) && q < |TableLines(f, includeChinese).sourceCn|
    ensures var ls := TableLines(f, includeChinese);
      var b := Boundary(ls.source, q);
      && q < |ls.source| && includeChinese && f.sourceCn != ""
      && b + |ls.source[q]| <= |Split(f.sourceCn)|
      && ls.sourceCn[q] == Split(f.sourceCn)[b..b + |ls.source[q]|]
  {
    var ls := TableLines(f, includeChinese);
    if !(includeChinese && f.sourceCn != "") {
      NoWordsNoSlices(ls.source);
    }
    KeptSliceAt(ls.source, CnWords(f.sourceCn, includeChinese), q);
  }

  /** Without the secondary-language fields, a table holds only source,
      gloss and translation rows, every row filled and as wide as the
      table. */
  lemma TablePrimaryOnly(numbering: string, f: Fields, includeChinese: bool, sourceSize: int)
    requires IsTableEntry(f)
    ensures var t := TableOf(numbering, f, includeChinese, sourceSize);
      forall i | 0 <= i < |t.rows| ::
        && |t.rows[i].cells| == t.cols && t.rows[i].kind != Cleared
        && (!includeChinese ==> IsPrimaryKind(t.rows[i].kind))
  {
    var ls := TableLines(f, includeChinese);
    TableColsAtLeastTwo(f, includeChinese);
    NoWordsNoSlices(ls.source);
    GridFilled(numbering, ls, f.translation, f.translationCn, includeChinese, TableCols(ls));
  }

  /** What the table filler needs of the planned lines and row count. */
  lemma TableReady(f: Fields, includeChinese: bool, ls: Lines, totalRows: nat)
    requires IsTableEntry(f) && ls == TableLines(f, includeChinese)
    requires totalRows == CountedRows(ls, f, includeChinese)
    ensures AllFitIn(ls, TableCols(ls)) && TableCols(ls) >= 2
    ensures totalRows == TotalRows(ls, f.translationCn, includeChinese)
  {
    CountedRowsExact(f, includeChinese);
    TableColsAtLeastTwo(f, includeChinese);
  }

  /** The table path's loop for one table entry. */
  method PlanTable(numbering: string, f: Fields, includeChinese: bool, sourceSize: int) returns (b: Block)
    requires IsTableEntry(f) && sourceSize != 0
    ensures b == TableOf(numbering, f, includeChinese, sourceSize)
  {
    var sourceWords := SourceWords(f);
    var glossWords := GlossWords(f);
    var sourceWordsCn := CnWords(f.sourceCn, includeChinese);
    var glossWordsCn := CnWords(f.glossCn, includeChinese);
    var maxLen := Max(|sourceWords|, |glossWords|);
    sourceWords := PadWords(sourceWords, maxLen);
    glossWords := PadWords(glossWords, maxLen);
    TableWordsShape(f);
    var sourceLines := SplitWordsByCumulativeWidth(sourceWords, sourceSize);
    var glossLines, sourceCnLines, glossCnLines := SliceAtBoundaries(sourceLines, glossWords, sourceWordsCn, glossWordsCn);
    var totalRows := |sourceLines| + |glossLines| + 1;
    if includeChinese {
      if sourceWordsCn != [] {
        totalRows := totalRows + |sourceCnLines|;
      }
      if glossWordsCn != [] {
        totalRows := totalRows + |glossCnLines|;
      }
      if f.translationCn != "" {
        totalRows := totalRows + 1;
      }
    }
    var maxHeight := MaxWordHeight(sourceWords + glossWords + sourceWordsCn + glossWordsCn, sourceSize);
    var ls := Lines(sourceLines, sourceCnLines, glossLines, glossCnLines);
    assert ls == TableLines(f, includeChinese);
    assert totalRows == CountedRows(ls, f, includeChinese);
    TableReady(f, includeChinese, ls, totalRows);
    var tableCols := TableCols(ls);
    var table := FillTable(numbering, ls, f.translation, f.translationCn, includeChinese, totalRows, tableCols);
    b := TableBlock(table[..], tableCols, maxHeight);
  }

  /** The paragraphs of an entry that is not a table: the numbering and the
      source, then each present text indented by 0.15 cm per numbering
      character, the translations in single quotes. */
  function ParagraphBlocks(numbering: string, f: Fields, includeChinese: bool): seq<Block> {
    var indent := if numbering != "" then (|numbering| as real) * 0.15 else 0.0;
    [Paragraph(numbering + f.source, 0.0, false)]
    + (if includeChinese && f.sourceCn != "" then [Paragraph(f.sourceCn, indent, false)] else [])
    + (if f.gloss != "" then [Paragraph(f.gloss, indent, false)] else [])
    + (if includeChinese && f.glossCn != "" then [Paragraph(f.glossCn, indent, false)] else [])
    + (if f.translation != "" then [Paragraph("'" + f.translation + "'", indent, false)] else [])
    + (if includeChinese && f.translationCn != "" then [Paragraph("'" + f.translationCn + "'", indent, false)] else [])
  }

  /** The notes in italics behind four spaces and in parentheses, when there
      are notes, then the empty paragraph that separates entries. */
  function ClosingBlocks(notes: string): seq<Block> {
    (if notes != "" then [Paragraph("    (" + notes + ")", 0.0, true)] else []) + [Paragraph("", 0.0, false)]
  }

  /** Every line after the first is indented under the numbering. */
  lemma ParagraphsIndented(numbering: string, f: Fields, includeChinese: bool)
    ensures var ps := ParagraphBlocks(numbering, f, includeChinese);
      && ps[0] == Paragraph(numbering + f.source, 0.0, false)
      && forall i | 1 <= i < |ps| ::
           ps[i].Paragraph? && !ps[i].italic && ps[i].indentCm == (|numbering| as real) * 0.15
  {
  }

  /** A table entry fails at font size zero: the overflow test divides by
      the font size once a second word is placed. */
  predicate EntryFails(e: Entry, includeChinese: bool, sourceSize: int) {
    sourceSize == 0 && IsTableEntry(StrippedFields(e, includeChinese))
  }

  /** What an entry with this numbering and these fields adds to the
      document. */
  function EntryBlocks(numbering: string, f: Fields, includeChinese: bool, sourceSize: int): seq<Block>
    requires sourceSize != 0 || !IsTableEntry(f)
  {
    (if IsTableEntry(f) then [TableOf(numbering, f, includeChinese, sourceSize)]
     else ParagraphBlocks(numbering, f, includeChinese))
    + ClosingBlocks(f.notes)
  }

  /** What entry number idx adds to the document. */
  function EntryBlocksOf(e: Entry, idx: nat, showNumbering: bool, includeChinese: bool, sourceSize: int): seq<Block>
    requires !EntryFails(e, includeChinese, sourceSize)
  {
    EntryBlocks(TableNumbering(e, idx, showNumbering), StrippedFields(e, includeChinese), includeChinese, sourceSize)
  }

  /** An entry is a table or its paragraphs, then the notes when there
      are notes, then an empty paragraph. */
  lemma EntryShape(numbering: string, f: Fields, includeChinese: bool, sourceSize: int)
    requires sourceSize != 0 || !IsTableEntry(f)
    ensures var b := EntryBlocks(numbering, f, includeChinese, sourceSize);
      && |b| >= 2
      && b[|b| - 1] == Paragraph("", 0.0, false)
      && (f.notes != "" ==> b[|b| - 2] == Paragraph("    (" + f.notes + ")", 0.0, true))
      && (b[0].TableBlock? <==> IsTableEntry(f))
      && (IsTableEntry(f) ==> |b| == if f.notes != "" then 3 else 2)
  {
    var body := if IsTableEntry(f) then [TableOf(numbering, f, includeChinese, sourceSize)]
                else ParagraphBlocks(numbering, f, includeChinese);
    assert body[0].TableBlock? <==> IsTableEntry(f);
    ClosingShape(body, f.notes);
  }

  lemma ClosingShape(body: seq<Block>, notes: string)
    requires body != []
    ensures var b := body + ClosingBlocks(notes);
      && |b| == |body| + (if notes != "" then 2 else 1)
      && b[0] == body[0]
      && b[|b| - 1] == Paragraph("", 0.0, false)
      && (notes != "" ==> b[|b| - 2] == Paragraph("    (" + notes + ")", 0.0, true))
  {
  }

  /** The loop body for one entry; `None` where the source raises. */
  method PlanEntry(e: Entry, idx: nat, showNumbering: bool, includeChinese: bool, sourceSize: int)
    returns (blocks: Option<seq<Block>>)
    ensures blocks.None? <==> EntryFails(e, includeChinese, sourceSize)
    ensures blocks.Some? ==> blocks.value == EntryBlocksOf(e, idx, showNumbering, includeChinese, sourceSize)
  {
    var numbering := TableNumbering(e, idx, showNumbering);
    var f := StrippedFields(e, includeChinese);
    var body: seq<Block>;
    if IsTableEntry(f) {
      if sourceSize == 0 {
        return None;
      }
      var table := PlanTable(numbering, f, includeChinese, sourceSize);
      body := [table];
    } else {
      body := ParagraphBlocks(numbering, f, includeChinese);
    }
    blocks := Some(body + ClosingBlocks(f.notes));
  }

  /** None of the first n entries fails. */
  predicate NoneFail(entries: seq<Entry>, n: nat, includeChinese: bool, sourceSize: int)
    requires n <= |entries|
  {
    forall k | 0 <= k < n :: !EntryFails(entries[k], includeChinese, sourceSize)
  }

  /** The blocks of the first n entries, numbered from 1. */
  function DocumentBlocks(entries: seq<Entry>, n: nat, showNumbering: bool, includeChinese: bool,
                          sourceSize: int): seq<Block>
    requires n <= |entries| && NoneFail(entries, n, includeChinese, sourceSize)
  {
    if n == 0 then []
    else
      DocumentBlocks(entries, n - 1, showNumbering, includeChinese, sourceSize)
      + EntryBlocksOf(entries[n - 1], n, showNumbering, includeChinese, sourceSize)
  }

  /** The source's `export` without the file: the blocks of every entry in
      order, or `None` (the source returns False) when an entry fails. */
  method Export(entries: seq<Entry>, showNumbering: bool, includeChinese: bool, sourceSize: int)
    returns (document: Option<seq<Block>>)
    ensures document.None? <==> !NoneFail(entries, |entries|, includeChinese, sourceSize)
    ensures document.Some? ==>
      document.value == DocumentBlocks(entries, |entries|, showNumbering, includeChinese, sourceSize)
  {
    var blocks: seq<Block> := [];
    for k := 0 to |entries|
      invariant NoneFail(entries, k, includeChinese, sourceSize)
      invariant blocks == DocumentBlocks(entries, k, showNumbering, includeChinese, sourceSize)
    {
      var entryBlocks := PlanEntry(entries[k], k + 1, showNumbering, includeChinese, sourceSize);
      if entryBlocks.None? {
        FailureAt(entries, k, includeChinese, sourceSize);
        return None;
      }
      NoneFailStep(entries, k, includeChinese, sourceSize);
      DocumentBlocksStep(entries, k, showNumbering, includeChinese, sourceSize, blocks, entryBlocks.value);
      blocks := blocks + entryBlocks.value;
    }
    document := Some(blocks);
  }

  lemma DocumentBlocksStep(entries: seq<Entry>, k: nat, showNumbering: bool, includeChinese: bool,
                           sourceSize: int, blocks: seq<Block>, entryBlocks: seq<Block>)
    requires k < |entries| && NoneFail(entries, k + 1, includeChinese, sourceSize)
    requires blocks == DocumentBlocks(entries, k, showNumbering, includeChinese, sourceSize)
    requires entryBlocks == EntryBlocksOf(entries[k], k + 1, showNumbering, includeChinese, sourceSize)
    ensures blocks + entryBlocks == DocumentBlocks(entries, k + 1, showNumbering, includeChinese, sourceSize)
  {
  }

  lemma FailureAt(entries: seq<Entry>, k: nat, includeChinese: bool, sourceSize: int)
    requires k < |entries| && EntryFails(entries[k], includeChinese, sourceSize)
    ensures !NoneFail(entries, |entries|, includeChinese, sourceSize)
  {
  }

  /** The export fails exactly when the source font size is zero and some
      entry is laid out as a table: paragraphs never divide by the font
      size. */
  lemma ExportFailsOnlyAtFontSizeZero(entries: seq<Entry>, includeChinese: bool, sourceSize: int)
    ensures !NoneFail(entries, |entries|, includeChinese, sourceSize)
            <==> sourceSize == 0
                 && exists k | 0 <= k < |entries| :: IsTableEntry(StrippedFields(entries[k], includeChinese))
  {
  }

  lemma NoneFailStep(entries: seq<Entry>, k: nat, includeChinese: bool, sourceSize: int)
    requires k < |entries| && NoneFail(entries, k, includeChinese, sourceSize)
    requires !EntryFails(entries[k], includeChinese, sourceSize)
    ensures NoneFail(entries, k + 1, includeChinese, sourceSize)
  {
  }
}
