/** The interlinear table of the table path (`WordExporter.export`): a grid
    pre-sized to the row count computed up front, filled row by row. Each
    source line gives a source row, its secondary-language row when it has
    one, a gloss row and a secondary-language gloss row when it has one;
    a translation row and an optional secondary-language translation row
    close the table. Column 0 holds the numbering on the very first row and
    is empty everywhere else; word k of a line sits in column k + 1. */
module TableGrid {
  import opened Text
  import opened Alignment
  import opened WidthModel

  /** What a row shows. `Cleared` is the state of every row before filling. */
  datatype RowKind = Cleared | SourceRow | SourceCnRow | GlossRow | GlossCnRow | TranslationRow | TranslationCnRow

  /** One table row: the text of each cell, and whether cells 1 to the last
      are merged into one cell that shows cell 1's text. */
  datatype TableRow = TableRow(kind: RowKind, cells: seq<string>, merged: bool)

  /** The four line lists the table is filled from. */
  datatype Lines = Lines(
    source: seq<seq<string>>,
    sourceCn: seq<seq<string>>,
    gloss: seq<seq<string>>,
    glossCn: seq<seq<string>>)

  predicate FitsIn(lines: seq<seq<string>>, cols: nat) {
    forall q | 0 <= q < |lines| :: |lines[q]| < cols
  }

  /** Every line leaves column 0 free and fits in the columns. */
  predicate AllFitIn(ls: Lines, cols: nat) {
    FitsIn(ls.source, cols) && FitsIn(ls.sourceCn, cols) && FitsIn(ls.gloss, cols) && FitsIn(ls.glossCn, cols)
  }

  function ClearedRow(cols: nat): TableRow {
    TableRow(Cleared, Blanks(cols), false)
  }

  /** A row of words behind `first` in column 0, empty cells after them. */
  function WordRow(kind: RowKind, first: string, words: seq<string>, cols: nat): (r: TableRow)
    requires |words| < cols
    ensures |r.cells| == cols && r.cells[0] == first && !r.merged && r.kind == kind
    ensures forall k | 0 <= k < |words| :: r.cells[k + 1] == words[k]
    ensures forall k | |words| < k < cols :: r.cells[k] == ""
  {
    TableRow(kind, [first] + words + Blanks(cols - 1 - |words|), false)
  }

  /** A row whose word columns are merged into one cell holding `text`; a row
      with no text stays as it was cleared. */
  function MergedRow(kind: RowKind, text: string, cols: nat): (r: TableRow)
    requires cols >= 2
    ensures |r.cells| == cols && r.cells[0] == "" && r.kind == kind
    ensures r.merged <==> text != ""
    ensures r.cells[1] == text
    ensures forall k | 2 <= k < cols :: r.cells[k] == ""
  {
    if text != "" then TableRow(kind, ["", text] + Blanks(cols - 2), true)
    else TableRow(kind, Blanks(cols), false)
  }

  /** Fills a cleared row cell by cell, as the source writes the table. */
  method FillWordRow(kind: RowKind, first: string, words: seq<string>, cols: nat) returns (row: TableRow)
    requires |words| < cols
    ensures row == WordRow(kind, first, words, cols)
  {
    var cells := Blanks(cols);
    cells := cells[0 := first];
    for c := 0 to |words|
      invariant |cells| == cols
      invariant cells == [first] + words[..c] + Blanks(cols - 1 - c)
    {
      cells := cells[c + 1 := words[c]];
      assert words[..c + 1] == words[..c] + [words[c]];
    }
    assert words[..|words|] == words;
    row := TableRow(kind, cells, false);
  }

  /** The rows of source line q: the source row (the numbering in column 0
      on line 0), then the secondary-language source row, the gloss row and
      the secondary-language gloss row when those lists reach line q. */
  function LineRows(numbering: string, ls: Lines, q: nat, cols: nat): seq<TableRow>
    requires q < |ls.source| && AllFitIn(ls, cols)
  {
    [WordRow(SourceRow, if q == 0 && numbering != "" then numbering else "", ls.source[q], cols)]
    + OptionalRow(SourceCnRow, ls.sourceCn, q, cols)
    + OptionalRow(GlossRow, ls.gloss, q, cols)
    + OptionalRow(GlossCnRow, ls.glossCn, q, cols)
  }

  /** The row of line q of a list that may end before line q. */
  function OptionalRow(kind: RowKind, lines: seq<seq<string>>, q: nat, cols: nat): (r: seq<TableRow>)
    requires FitsIn(lines, cols)
    ensures |r| == if q < |lines| then 1 else 0
  {
    if q < |lines| then [WordRow(kind, "", lines[q], cols)] else []
  }

  /** The rows of the first q source lines. */
  function BodyRows(numbering: string, ls: Lines, q: nat, cols: nat): seq<TableRow>
    requires q <= |ls.source| && AllFitIn(ls, cols)
  {
    if q == 0 then [] else BodyRows(numbering, ls, q - 1, cols) + LineRows(numbering, ls, q - 1, cols)
  }

  /** The translation row, and the secondary-language translation row when
      it is asked for and present. */
  function TranslationRows(translation: string, translationCn: string, includeChinese: bool,
                           cols: nat): seq<TableRow>
    requires cols >= 2
  {
    [MergedRow(TranslationRow, translation, cols)]
    + if includeChinese && translationCn != "" then [MergedRow(TranslationCnRow, translationCn, cols)] else []
  }

  /** The whole table. */
  function Grid(numbering: string, ls: Lines, translation: string, translationCn: string,
                includeChinese: bool, cols: nat): seq<TableRow>
    requires cols >= 2 && AllFitIn(ls, cols)
  {
    BodyRows(numbering, ls, |ls.source|, cols) + TranslationRows(translation, translationCn, includeChinese, cols)
  }

  /** How many of the first q lines a list of n lines reaches. */
  function Reach(q: nat, n: nat): nat {
    if q < n then q else n
  }

  /** The number of rows the first q source lines take. */
  function RowCount(ls: Lines, q: nat): nat {
    q + Reach(q, |ls.sourceCn|) + Reach(q, |ls.gloss|) + Reach(q, |ls.glossCn|)
  }

  /** The number of rows of the whole table. */
  function TotalRows(ls: Lines, translationCn: string, includeChinese: bool): nat {
    RowCount(ls, |ls.source|) + 1 + if includeChinese && translationCn != "" then 1 else 0
  }

  lemma {:induction false} BodyRowsLength(numbering: string, ls: Lines, q: nat, cols: nat)
    requires q <= |ls.source| && AllFitIn(ls, cols)
    ensures |BodyRows(numbering, ls, q, cols)| == RowCount(ls, q)
    decreases q
  {
    if q > 0 {
      BodyRowsLength(numbering, ls, q - 1, cols);
    }
  }

  /** The table has exactly the rows counted up front, each as wide as the
      table. */
  lemma GridShape(numbering: string, ls: Lines, translation: string, translationCn: string,
                  includeChinese: bool, cols: nat)
    requires cols >= 2 && AllFitIn(ls, cols)
    ensures |Grid(numbering, ls, translation, translationCn, includeChinese, cols)|
            == TotalRows(ls, translationCn, includeChinese)
  {
    BodyRowsLength(numbering, ls, |ls.source|, cols);
  }

  /** The rows that exist without the secondary-language fields. */
  predicate IsPrimaryKind(k: RowKind) {
    k == SourceRow || k == GlossRow || k == TranslationRow
  }

  /** Every row of the body is filled and as wide as the table; without
      secondary-language lines, only source and gloss rows. */
  lemma {:induction false} BodyRowsFilled(numbering: string, ls: Lines, q: nat, cols: nat)
    requires q <= |ls.source| && AllFitIn(ls, cols)
    ensures forall i | 0 <= i < |BodyRows(numbering, ls, q, cols)| ::
              var r := BodyRows(numbering, ls, q, cols)[i];
              |r.cells| == cols && r.kind != Cleared
              && (ls.sourceCn == [] && ls.glossCn == [] ==> IsPrimaryKind(r.kind))
    decreases q
  {
    if q > 0 {
      BodyRowsFilled(numbering, ls, q - 1, cols);
      var before := BodyRows(numbering, ls, q - 1, cols);
      var line := LineRows(numbering, ls, q - 1, cols);
      assert BodyRows(numbering, ls, q, cols) == before + line;
      assert forall i | 0 <= i < |line| ::
        (|line[i].cells| == cols && line[i].kind != Cleared
         && (ls.sourceCn == [] && ls.glossCn == [] ==> IsPrimaryKind(line[i].kind)));
    }
  }

  /** Every row of the table is filled and as wide as the table; without
      secondary-language lines and translation, only source, gloss and
      translation rows. */
  lemma GridFilled(numbering: string, ls: Lines, translation: string, translationCn: string,
                   includeChinese: bool, cols: nat)
    requires cols >= 2 && AllFitIn(ls, cols)
    ensures forall i | 0 <= i < |Grid(numbering, ls, translation, translationCn, includeChinese, cols)| ::
              var r := Grid(numbering, ls, translation, translationCn, includeChinese, cols)[i];
              |r.cells| == cols && r.kind != Cleared
              && (ls.sourceCn == [] && ls.glossCn == [] && !(includeChinese && translationCn != "")
                  ==> IsPrimaryKind(r.kind))
  {
    BodyRowsFilled(numbering, ls, |ls.source|, cols);
  }

  /** Writes one row at the current position. */
  method Put(table: array<TableRow>, current: nat, row: TableRow, ghost before: seq<TableRow>)
    requires current < table.Length && table[..current] == before
    modifies table
    ensures table[..current + 1] == before + [row]
  {
    table[current] := row;
    assert table[..current + 1] == table[..current] + [table[current]];
  }

  /** How many rows source line q takes. */
  function LineRowCount(ls: Lines, q: nat): nat {
    1 + (if q < |ls.sourceCn| then 1 else 0) + (if q < |ls.gloss| then 1 else 0)
    + (if q < |ls.glossCn| then 1 else 0)
  }

  lemma LineRowsLength(numbering: string, ls: Lines, q: nat, cols: nat)
    requires q < |ls.source| && AllFitIn(ls, cols)
    ensures |LineRows(numbering, ls, q, cols)| == LineRowCount(ls, q)
    ensures RowCount(ls, q + 1) == RowCount(ls, q) + LineRowCount(ls, q)
  {
  }

  /** The rows of source line q, written from row `current` on. */
  method FillLine(table: array<TableRow>, numbering: string, ls: Lines, q: nat, cols: nat, current: nat,
                  ghost before: seq<TableRow>)
    returns (next: nat)
    requires q < |ls.source| && AllFitIn(ls, cols)
    requires current + LineRowCount(ls, q) <= table.Length && table[..current] == before
    modifies table
    ensures next == current + LineRowCount(ls, q)
    ensures table[..next] == before + LineRows(numbering, ls, q, cols)
  {
    var row := FillWordRow(SourceRow, if q == 0 && numbering != "" then numbering else "", ls.source[q], cols);
    Put(table, current, row, before);
    ghost var rows := before + [row];
    next := FillOptionalRow(table, SourceCnRow, ls.sourceCn, q, cols, current + 1, rows);
    rows := rows + OptionalRow(SourceCnRow, ls.sourceCn, q, cols);
    next := FillOptionalRow(table, GlossRow, ls.gloss, q, cols, next, rows);
    rows := rows + OptionalRow(GlossRow, ls.gloss, q, cols);
    next := FillOptionalRow(table, GlossCnRow, ls.glossCn, q, cols, next, rows);
  }

  /** Writes line q of a list when the list reaches line q. */
  method FillOptionalRow(table: array<TableRow>, kind: RowKind, lines: seq<seq<string>>, q: nat, cols: nat,
                         current: nat, ghost before: seq<TableRow>)
    returns (next: nat)
    requires FitsIn(lines, cols)
    requires current + |OptionalRow(kind, lines, q, cols)| <= table.Length && table[..current] == before
    modifies table
    ensures next == current + |OptionalRow(kind, lines, q, cols)|
    ensures table[..next] == before + OptionalRow(kind, lines, q, cols)
  {
    next := current;
    if q < |lines| {
      var row := FillWordRow(kind, "", lines[q], cols);
      Put(table, current, row, before);
      next := current + 1;
    } else {
      assert before + [] == before;
    }
  }

  /** The source's fill: a table of `TotalRows` cleared rows, filled line by
      line from the top; every row gets written, and none past the end. */
  method FillTable(numbering: string, ls: Lines, translation: string, translationCn: string,
                   includeChinese: bool, totalRows: nat, cols: nat) returns (table: array<TableRow>)
    requires cols >= 2 && AllFitIn(ls, cols)
    requires totalRows == TotalRows(ls, translationCn, includeChinese)
    ensures fresh(table)
    ensures table[..] == Grid(numbering, ls, translation, translationCn, includeChinese, cols)
  {
    table := new TableRow[totalRows](_ => ClearedRow(cols));
    var current := 0;
    for q := 0 to |ls.source|
      invariant current == RowCount(ls, q)
      invariant table[..current] == BodyRows(numbering, ls, q, cols)
    {
      LineRowsLength(numbering, ls, q, cols);
      RowCountGrows(ls, q + 1, |ls.source|);
      current := FillLine(table, numbering, ls, q, cols, current, BodyRows(numbering, ls, q, cols));
    }
    FillTranslationRows(table, translation, translationCn, includeChinese, cols, current,
                        BodyRows(numbering, ls, |ls.source|, cols));
  }

  /** The translation rows, written from row `current` to the end. The
      source moves past the translation row only, as nothing follows the
      secondary-language one. */
  method FillTranslationRows(table: array<TableRow>, translation: string, translationCn: string,
                             includeChinese: bool, cols: nat, current: nat, ghost before: seq<TableRow>)
    requires cols >= 2
    requires current + |TranslationRows(translation, translationCn, includeChinese, cols)| == table.Length
    requires table[..current] == before
    modifies table
    ensures table[..] == before + TranslationRows(translation, translationCn, includeChinese, cols)
  {
    var currentRow := current;
    Put(table, currentRow, MergedRow(TranslationRow, translation, cols), before);
    ghost var rows := before + [MergedRow(TranslationRow, translation, cols)];
    currentRow := currentRow + 1;
    if includeChinese && translationCn != "" {
      Put(table, currentRow, MergedRow(TranslationCnRow, translationCn, cols), rows);
    }
    assert table[..] == table[..table.Length];
  }

  lemma RowCountGrows(ls: Lines, q: nat, n: nat)
    requires q <= n
    ensures RowCount(ls, q) <= RowCount(ls, n)
  {
  }

  /** The tallest word height, from 0, over the words that are not empty. */
  function TallestWord(words: seq<string>, fontSize: int): int {
    if words == [] then 0
    else
      var h := TallestWord(words[..|words| - 1], fontSize);
      var w := words[|words| - 1];
      if w != "" && EstimateWordHeight(w, fontSize) > h then EstimateWordHeight(w, fontSize) else h
  }

  /** The height of every table row: the tallest word, or 300 twips when no
      word gave a height. */
  function RowHeight(words: seq<string>, fontSize: int): int {
    var h := TallestWord(words, fontSize);
    if h == 0 then 300 else h
  }

  /** The source's loop over all words. */
  method MaxWordHeight(words: seq<string>, fontSize: int) returns (maxHeight: int)
    ensures maxHeight == RowHeight(words, fontSize)
  {
    maxHeight := 0;
    for i := 0 to |words|
      invariant maxHeight == TallestWord(words[..i], fontSize)
    {
      assert words[..i + 1][..i] == words[..i];
      if words[i] != "" {
        var wordHeight := EstimateWordHeight(words[i], fontSize);
        maxHeight := if wordHeight > maxHeight then wordHeight else maxHeight;
      }
    }
    assert words[..|words|] == words;
    if maxHeight == 0 {
      maxHeight := 300;
    }
  }

  /** No word is taller than the rows, whatever the font size. */
  lemma {:induction false} TallestWordBounds(words: seq<string>, fontSize: int)
    ensures TallestWord(words, fontSize) >= 0
    ensures forall k | 0 <= k < |words| && words[k] != "" ::
              EstimateWordHeight(words[k], fontSize) <= TallestWord(words, fontSize)
    decreases |words|
  {
    if words != [] {
      var init := words[..|words| - 1];
      TallestWordBounds(init, fontSize);
      forall k | 0 <= k < |words| - 1
        ensures words[k] == init[k]
      {
      }
    }
  }

  lemma RowHeightCoversEveryWord(words: seq<string>, fontSize: int, k: nat)
    requires k < |words| && words[k] != ""
    ensures EstimateWordHeight(words[k], fontSize) <= RowHeight(words, fontSize)
  {
    TallestWordBounds(words, fontSize);
  }

  predicate AnyWord(words: seq<string>) {
    exists k | 0 <= k < |words| :: words[k] != ""
  }

  predicate AnyRaisedWord(words: seq<string>) {
    exists k | 0 <= k < |words| :: words[k] != "" && HasScriptDigit(words[k])
  }

  /** At a positive font size the tallest word is 32 f when some word holds
      a superscript or subscript digit, else 24 f when some word is not
      empty, else 0. */
  lemma {:induction false} TallestWordCases(words: seq<string>, fontSize: int)
    requires fontSize > 0
    ensures TallestWord(words, fontSize)
            == if AnyRaisedWord(words) then 32 * fontSize
               else if AnyWord(words) then 24 * fontSize
               else 0
    decreases |words|
  {
    if words != [] {
      var init := words[..|words| - 1];
      var w := words[|words| - 1];
      TallestWordCases(init, fontSize);
      assert AnyWord(words) <==> AnyWord(init) || w != "" by {
        if AnyWord(words) {
          var k :| 0 <= k < |words| && words[k] != "";
          if k < |init| {
            assert init[k] == words[k];
          }
        }
        if AnyWord(init) {
          var k :| 0 <= k < |init| && init[k] != "";
          assert words[k] == init[k];
        }
      }
      assert AnyRaisedWord(words) <==> AnyRaisedWord(init) || (w != "" && HasScriptDigit(w)) by {
        if AnyRaisedWord(words) {
          var k :| 0 <= k < |words| && words[k] != "" && HasScriptDigit(words[k]);
          if k < |init| {
            assert init[k] == words[k];
          }
        }
        if AnyRaisedWord(init) {
          var k :| 0 <= k < |init| && init[k] != "" && HasScriptDigit(init[k]);
          assert words[k] == init[k];
        }
      }
    }
  }

  /** So the row height takes one of three values: 32 f with a raised or
      lowered digit anywhere, 24 f with plain words only, and the 300-twip
      default when every word is empty. */
  lemma RowHeightCases(words: seq<string>, fontSize: int)
    requires fontSize > 0
    ensures AnyRaisedWord(words) ==> RowHeight(words, fontSize) == 32 * fontSize
    ensures !AnyRaisedWord(words) && AnyWord(words) ==> RowHeight(words, fontSize) == 24 * fontSize
    ensures !AnyWord(words) ==> RowHeight(words, fontSize) == 300
  {
    TallestWordCases(words, fontSize);
  }

  /** The most words on one line of a list. */
  function LongestLine(lines: seq<seq<string>>): (n: nat)
    ensures forall q | 0 <= q < |lines| :: |lines[q]| <= n
    ensures lines != [] ==> exists q | 0 <= q < |lines| :: |lines[q]| == n
  {
    if lines == [] then 0
    else
      var n := LongestLine(lines[..|lines| - 1]);
      var r := Max(n, |lines[|lines| - 1]|);
      assert forall q | 0 <= q < |lines| - 1 :: lines[q] == lines[..|lines| - 1][q];
      r
  }

  /** The column count: the longest line over the source and gloss lines
      and the secondary-language lines when there are any, plus the
      numbering column. */
  function TableCols(ls: Lines): nat {
    var m := Max(LongestLine(ls.source), LongestLine(ls.gloss));
    var m := if ls.sourceCn != [] then Max(m, LongestLine(ls.sourceCn)) else m;
    var m := if ls.glossCn != [] then Max(m, LongestLine(ls.glossCn)) else m;
    m + 1
  }

  /** Every line fits behind the numbering column, and the table has no
      column to spare: some line fills every word column. */
  lemma TableColsFit(ls: Lines)
    requires ls.source != []
    ensures AllFitIn(ls, TableCols(ls))
    ensures || (exists q | 0 <= q < |ls.source| :: |ls.source[q]| + 1 == TableCols(ls))
            || (exists q | 0 <= q < |ls.gloss| :: |ls.gloss[q]| + 1 == TableCols(ls))
            || (exists q | 0 <= q < |ls.sourceCn| :: |ls.sourceCn[q]| + 1 == TableCols(ls))
            || (exists q | 0 <= q < |ls.glossCn| :: |ls.glossCn[q]| + 1 == TableCols(ls))
  {
  }

  /** Lines no longer than the source line of the same index. */
  predicate ShorterRowByRow(lines: seq<seq<string>>, source: seq<seq<string>>) {
    |lines| <= |source| && forall q | 0 <= q < |lines| :: |lines[q]| <= |source[q]|
  }

  /** When every other list is cut at the source rows, the source lines
      alone decide the column count. */
  lemma SourceDecidesCols(ls: Lines)
    requires ShorterRowByRow(ls.sourceCn, ls.source) && ShorterRowByRow(ls.gloss, ls.source)
    requires ShorterRowByRow(ls.glossCn, ls.source)
    ensures TableCols(ls) == LongestLine(ls.source) + 1
  {
    LongestLineBelow(ls.sourceCn, ls.source);
    LongestLineBelow(ls.gloss, ls.source);
    LongestLineBelow(ls.glossCn, ls.source);
  }

  lemma LongestLineBelow(lines: seq<seq<string>>, source: seq<seq<string>>)
    requires ShorterRowByRow(lines, source)
    ensures LongestLine(lines) <= LongestLine(source)
  {
    if lines != [] {
      var q :| 0 <= q < |lines| && |lines[q]| == LongestLine(lines);
      assert |lines[q]| <= |source[q]|;
    }
  }
}
