# Interlinear glossing layout engine, modelled in Dafny

This project models the layout engine of a corpus tool for linguistic
fieldwork. The engine lives in `exporter.py`. It turns corpus entries into
interlinear glossed text: a numbered source line, a gloss line aligned word
by word beneath it, and a free translation, with optional
secondary-language (Chinese character) annotations. It has two output paths:

- **Plain text** (`TextFormatter`). Source and gloss words are aligned in
  columns of raw character width, and long entries are cut into batches of
  a fixed word count. A heuristic display width (`calculate_display_width`)
  classifies code points as wide CJK characters, tone superscripts (a run
  counts as one unit), combining marks, and everything else.
- **Word tables** (`WordExporter`). A greedy line breaker places source
  words row by row and asks a width model whether the next word would
  overflow an A4 page. The gloss and secondary-language words are cut at
  the same boundaries. A table is pre-sized to a row count computed up
  front and then filled row by row. Entries that are not tables become
  paragraphs. Every entry is followed by its notes and an empty paragraph.

The modules follow the source:

- **Text**: the Python string built-ins the engine relies on (`isspace`,
  `strip`, `split`, `ljust`, `join`, `str(n)`).
- **DisplayWidth**: `calculate_display_width`.
- **Alignment**: `align_words`.
- **Entries**: the entry record, field stripping, and the merge of a lone
  final period.
- **EntryFormat**: `format_entry` and `format_entries`.
- **FormatProperties**: what the plain-text layout promises.
- **WidthModel**: `_estimate_word_height`, `_estimate_word_width` and
  `_will_cause_overflow`.
- **LineBreaking**: `_split_words_by_cumulative_width`.
- **TableSlices**, **TableGrid** and **ExportPlan**: the planning that
  `export` does, without the docx calls.

Every loop of the source that builds a result step by step (a width, a
list of lines, a table, a document) is a method with a loop here. Each such
method is proved equal to a specification function, and the promised
properties are proved as lemmas about those functions. A few loops are
written as functions instead, because they only compute a value: the
`any(...)` scans for raised digits, the `sum(...)` of word widths, and the
longest-line `max(...)` for the column count. Two more are not loops here:
clearing every cell is one cleared row value per array slot, and merging
the word cells of a translation row is a flag on the row. The table is an `array` of rows,
allocated at the counted size and written by index as the source writes it.
Proving that every write is in bounds and that every row gets written shows
that the source's row count is exact.

Where the documented design and the code differ, the model follows the
code:

- **Table numbering.** The table path numbers an entry without an example
  label by its 1-based position in the export, not by its record id, and
  always uses the "(X) " style (`NumberingByPosition`).
- **Table test.** The table test also asks for a literal space character.
  An entry whose words are separated by a tab gets word alignment in plain
  text but paragraphs in the document (`TabSeparatedIsNotTable`).
- **U+00B9 (superscript one).** It is not a tone mark for the display
  width, so "¹²³" measures 2 as 1 + 1 and "¹¹" measures 2. It does count
  as a raised digit for the row height (`SuperscriptOneIsOrdinary`,
  `SuperscriptOneRaisesHeight`).
- **Page width.** The usable page width does not depend on the font size:
  the font size cancels, and every font size gets 91.584 units
  (`PageWidthIsConstant`). Larger fonts do not get a narrower page.
- **Row height.** 300 twips is the row height only when no word is
  non-empty. It is not a floor under the estimate (`RowHeightCases`).
- **Batched entries.** When the plain-text path batches an entry, the
  secondary-language source and gloss lines do not appear
  (`BatchedIgnoresCnSourceAndGloss`).
- **Translation row.** The translation cells are merged only when there
  is a translation.

## Model

| member | source | states |
|---|---|---|
| Text.Strip | exporter.py:143-152 | the stripped text is the slice of the text that starts after its leading whitespace, everything outside that slice is whitespace, and the slice neither starts nor ends with whitespace; text already without whitespace at either end is kept as it is |
| Text.TrimRight | exporter.py:143-146 | the right half of strip: the result is a prefix of the text that does not end in whitespace, and everything cut off is whitespace |
| Text.LJust | exporter.py:96-99 | the text is kept as a prefix and padded with blanks to the width, or left as it is when already wider |
| Text.NatToString | exporter.py:135-141 | a non-empty string of decimal digits without a leading zero |
| Text.Split | exporter.py:157-162 | every token is non-empty and free of whitespace |
| Text.SplitKeepsText | exporter.py:157-162 | the tokens, read one after the other, are exactly the non-whitespace characters of the text, in order |
| Text.SplitAtSpace | exporter.py:157-162 | a whitespace character separates tokens: splitting a + c + b gives the tokens of a followed by those of b |
| Text.SplitWord | exporter.py:157-162 | a non-empty text without whitespace is one token |
| Text.ParseNatToString | exporter.py:135-141 | reading back the decimal rendering of a record id gives that id, so distinct ids render distinctly |
| Text.JoinLinesSnoc | exporter.py:263 | joining one more line appends a newline and that line |
| DisplayWidth.CalculateDisplayWidth | exporter.py:16-62 | the scan, with its inner tone-run loop and step-back, returns the classified width Width(text) |
| DisplayWidth.WidthOfChar | exporter.py:35-58 | one code point is 2 if wide, else 1 if a tone mark, else 0 if combining, else 1, in that priority |
| DisplayWidth.ToneRun | exporter.py:43-50 | the length of the run of tone marks at the start of the text: all of them tone marks, and the next character is not |
| DisplayWidth.WidthOfToneRun | exporter.py:44-52 | a run of n tone marks is ceil(n / 2) wide |
| DisplayWidth.WidthAppend | exporter.py:30-60 | width is additive over a concatenation unless a tone run straddles the boundary |
| DisplayWidth.WidthAtMostTwicePerChar | exporter.py:35-42 | no text is wider than twice its length |
| DisplayWidth.WidthOfPlainText | exporter.py:56-58 | text without wide, tone or combining characters is as wide as it is long |
| DisplayWidth.WidthExamples | exporter.py:16-62 | "abc" is 3, "测试" is 4, "a测b" is 4 |
| DisplayWidth.SuperscriptOneIsOrdinary | exporter.py:44-52 | "¹²³" is 2, "¹¹" is 2 and "²²" is 1, because U+00B9 is outside the tone set |
| Alignment.PadWords | exporter.py:77-79 | the padded list has length n, starts with the words and ends with empty words |
| Alignment.AlignWords | exporter.py:65-105 | the two loops (column widths, then left-justified parts) produce AlignedSource and AlignedGloss |
| Alignment.AlignedSameLength | exporter.py:82-105 | both aligned lines are as long as the sum of the column widths |
| Alignment.WidthsCover | exporter.py:82-90 | every column is at least two wider than either of its padded words |
| Alignment.AlignedSourceColumn | exporter.py:96-105 | column k of the source line starts after the widths of the columns before it and holds the k-th padded source word, left-justified |
| Alignment.AlignedGlossColumn | exporter.py:96-105 | column k of the gloss line starts after the widths of the columns before it and holds the k-th padded gloss word, left-justified |
| Alignment.AlignedColumn | exporter.py:83-105 | column k starts at the same offset in both lines and is at least two wider than either word; it holds each padded word left-justified, and right-stripping it gives the word back |
| Alignment.AlignedStacked | exporter.py:96-105 | the lines are equally long and column k of the gloss line sits under column k of the source line |
| Entries.StrippedFields | exporter.py:143-152 | the secondary-language fields are empty unless they are asked for |
| Entries.MergeFinalPeriod | exporter.py:166-169 | the tokens join to the same text; a lone final "." is glued to the token before it, and every other token stays |
| Entries.MergeExample | exporter.py:161-169 | "ama bu ." gives the tokens "ama" and "bu." |
| EntryFormat.Label | exporter.py:129-141 | the label is the example id when there is one, else digits that read back as the record id |
| EntryFormat.NumberingText | exporter.py:127-141 | empty exactly when numbering is off; "(X) " in the "()" style; "X. " in any other style |
| EntryFormat.Indent | exporter.py:178-181 | blanks as wide as the numbering, or four without numbering |
| EntryFormat.TranslationLines | exporter.py:224-232 | none exactly when there is neither translation nor notes; otherwise one line, which is the indentation followed by exactly 'T' (N), 'T' or (N), by which of the two are present |
| EntryFormat.BatchSources | exporter.py:184-189 | one aligned source line per batch, ceil(n / m) of them |
| EntryFormat.BatchGlosses | exporter.py:184-189 | one aligned gloss line per batch, ceil(n / m) of them |
| EntryFormat.FormatEntry | exporter.py:108-263 | the text is the newline join of the entry's layout (EntryLines) |
| EntryFormat.BatchOf | exporter.py:189-201 | a batch is two lines, or three when another batch follows |
| EntryFormat.FormatMultiWord | exporter.py:159-236 | the multi-word branch gives the aligned lines, then the translation lines |
| EntryFormat.FormatBatches | exporter.py:184-203 | the batching loop gives every batch's source, gloss and separator lines in order |
| EntryFormat.AppendBatch | exporter.py:189-203 | one batch: the numbered or indented source line, the gloss line, and a blank line when more follow |
| EntryFormat.FormatSingleBatch | exporter.py:204-222 | the unbatched layout: the source line, the optional secondary source line, the gloss line, and the optional secondary gloss line |
| EntryFormat.AppendAlignedPair | exporter.py:206-222 | the lines of one aligned pair with their secondary-language lines under fixed labels |
| EntryFormat.FormatSingleWord | exporter.py:237-261 | the single-word branch: texts unaligned, indented under the numbering |
| EntryFormat.AppendTranslation | exporter.py:224-236 | the translation line and the secondary translation line are appended after the lines so far |
| EntryFormat.EntryBlocks | exporter.py:279-284 | two strings (text and blank) per entry |
| EntryFormat.FormatEntries | exporter.py:266-286 | the loop gives every entry's text and an empty line, in input order, joined by newlines |
| FormatProperties.StackLength | exporter.py:184-201 | n batches take 3n - 1 lines |
| FormatProperties.StackAt | exporter.py:184-201 | line 3q is batch q's source line behind its lead; line 3q + 1 is its gloss line behind the indentation; line 3q + 2 is blank when another batch follows |
| FormatProperties.BatchWordsPartition | exporter.py:184-186 | the batches, read in order, are exactly the words: nothing lost, repeated or moved |
| FormatProperties.BatchWordsAt | exporter.py:184-186 | batch q holds words q·m up to (q + 1)·m, or the words that are left |
| FormatProperties.BatchLinesAt | exporter.py:184-201 | batch q's lines hold the alignment of batch q's words; its source and gloss lines are equally wide; a blank line follows it unless it is the last |
| FormatProperties.LeadAsWideAsIndent | exporter.py:176-181 | the lead of a source line is as wide as the indentation under it |
| FormatProperties.AlignedLinesFirst | exporter.py:189-209 | the aligned lines, batched or not, start with a line that starts with the numbering |
| FormatProperties.LayoutFirstLine | exporter.py:189-191 | every layout has a first line, and it starts with the numbering |
| FormatProperties.FirstLineNumbered | exporter.py:108-263 | every formatted entry's first line starts with its numbering |
| FormatProperties.GlossUnderSource | exporter.py:187-220 | behind equally wide leads, column k starts at the same offset in the source and gloss lines and holds the k-th source and gloss words; the two lines are equally long |
| FormatProperties.BatchedIgnoresCnSourceAndGloss | exporter.py:176-203 | a batched layout is the same with or without the secondary source and gloss texts |
| FormatProperties.SingleWordShape | exporter.py:237-261 | without the secondary language: the numbered source, then the gloss line if any, then the translation line if any |
| FormatProperties.FormatOneEntry | exporter.py:279-286 | one entry formats to its text and a newline |
| FormatProperties.FormatEntriesSnoc | exporter.py:279-286 | one more entry appends a newline, its text and a newline: order kept, one empty line between entries |
| WidthModel.EstimateWordHeight | exporter.py:360-392 | an empty word is 20f, a plain word 24f, and a word with a superscript or subscript digit 32f |
| WidthModel.HeightOrder | exporter.py:375-392 | at a positive font size: empty < plain < raised |
| WidthModel.SuperscriptOneRaisesHeight | exporter.py:380-385 | "x¹" is raised (U+00B9 is in this set) and "x" is not |
| WidthModel.PageWidthIsConstant | exporter.py:444-462 | the page width is 91.584 for every non-zero font size |
| WidthModel.LineWidthInTenths | exporter.py:394-441 | a row's word widths and cell overheads are a whole number of tenths |
| WidthModel.OverflowIffTooWide | exporter.py:414-464 | the overflow test is the integer test: the words and overheads take 81.6 units or more |
| WidthModel.OverflowIndependentOfFontSize | exporter.py:444-464 | any two font sizes give the same overflow decision |
| WidthModel.TenthsAppend | exporter.py:435 | a row's width is additive over its words |
| WidthModel.OverflowGrowsWithRow | exporter.py:431-441 | a word that overflows a row overflows every row that also holds more words |
| WidthModel.TenthsMonotone | exporter.py:394-412 | a row of words no longer one by one is no wider |
| WidthModel.OverflowGrowsWithWordLength | exporter.py:394-412 | a word that overflows still overflows when it or the row's words are longer |
| LineBreaking.FirstRowLength | exporter.py:487-500 | the first row closes at the first word that overflows it, or at the end |
| LineBreaking.GreedyRowsIsGreedy | exporter.py:487-503 | GreedyRows is a greedy break: non-empty fitting rows, read back as the words, each closed where the next word overflowed |
| LineBreaking.GreedyBreakUnique | exporter.py:466-505 | two greedy breaks of the same words are equal: the break is determined by the words |
| LineBreaking.FirstRowOfGreedyBreak | exporter.py:487-500 | the first row of a greedy break is a prefix of the words, each of which fitted, closed where it ended |
| LineBreaking.RowsFitPage | exporter.py:493-496 | a row of two or more words never overflows the page |
| LineBreaking.FirstRowNotShorter | exporter.py:487-500 | no greedy break of the same words has a longer first row |
| LineBreaking.NoBreakWhenNarrow | exporter.py:487-500 | when all the words fit together, the first row takes them all |
| LineBreaking.NarrowWordsOneRow | exporter.py:487-503 | words that fit the page together make one row |
| LineBreaking.SplitWordsByCumulativeWidth | exporter.py:466-505 | no words give one empty row; otherwise the loop gives the unique greedy break GreedyRows |
| TableSlices.SliceAtBoundaries | exporter.py:598-618 | the loop cuts the gloss row for row; a secondary list keeps a row's slice only when the list is non-empty and holds all of that slice |
| TableSlices.CutShape | exporter.py:603-607 | the cut has a slice per row, as long as the row, and the slices read back as the words |
| TableSlices.CutOwnWords | exporter.py:603-607 | cutting the rows' own words gives the rows back |
| TableSlices.CutAt | exporter.py:603-616 | slice q is the words from row q's boundary, as many as row q holds |
| TableSlices.CutColumn | exporter.py:603-616 | word k of row q and word k of its gloss slice sit at the same position of the two lists |
| TableSlices.CompleteSlicesArePrefix | exporter.py:608-614 | the kept slices are the cut of the first k rows, and row k's slice would run past the list |
| TableSlices.KeptSliceAt | exporter.py:608-614 | kept slice q is exactly the words under source row q |
| TableSlices.NoWordsNoSlices | exporter.py:608-612 | no secondary words give no secondary rows |
| TableGrid.WordRow | exporter.py:742-758 | column 0 holds the lead cell, word k sits in column k + 1, and the other cells are empty |
| TableGrid.MergedRow | exporter.py:812-840 | column 0 is empty and cell 1 holds the text; the word columns are merged exactly when there is text |
| TableGrid.FillWordRow | exporter.py:742-758 | the cell loop gives WordRow |
| TableGrid.OptionalRow | exporter.py:760-810 | a row for line q exactly when the list has a line q |
| TableGrid.FillLine | exporter.py:740-810 | one line's turn writes its source row, then the optional secondary source, gloss and secondary gloss rows, and moves on by as many rows |
| TableGrid.FillOptionalRow | exporter.py:760-810 | a list's row is written only when the list reaches the line |
| TableGrid.FillTable | exporter.py:665-840 | a table of exactly the counted rows, cleared, then filled to Grid with every write in bounds |
| TableGrid.FillTranslationRows | exporter.py:812-840 | the translation row, then the secondary translation row when asked for and present, end the table |
| TableGrid.GridShape | exporter.py:620-633 | the table has exactly TotalRows rows |
| TableGrid.GridFilled | exporter.py:730-840 | every row is written and as wide as the table; without secondary-language rows only source, gloss and translation rows |
| TableGrid.BodyRowsFilled | exporter.py:740-810 | every row written by the line loop is as wide as the table and not a cleared row; without secondary-language lines only source and gloss rows |
| TableGrid.MaxWordHeight | exporter.py:635-653 | the loop gives RowHeight: the tallest non-empty word, or 300 |
| TableGrid.RowHeightCoversEveryWord | exporter.py:642-650 | no non-empty word is taller than the rows |
| TableGrid.RowHeightCases | exporter.py:642-653 | the height is 32f with a raised digit, 24f with plain words only, and 300 with no words |
| TableGrid.TallestWordCases | exporter.py:642-650 | the tallest non-empty word is 32f with a raised digit, 24f with plain words only, and 0 with no words |
| TableGrid.LongestLine | exporter.py:659-662 | no line is longer, and some line is this long |
| TableGrid.TableColsFit | exporter.py:655-663 | every line fits behind the numbering column, and some line fills every word column |
| TableGrid.SourceDecidesCols | exporter.py:655-663 | when the other lists are cut at the source rows, the source lines alone decide the column count |
| ExportPlan.TableNumbering | exporter.py:553-560 | "(X) " with the example id, else the 1-based position, and empty when numbering is off |
| ExportPlan.NumberingByPosition | exporter.py:553-560 | entry 3 with record id 42 is "(3) " in a table and "(42) " in plain text |
| ExportPlan.TableEntryIsMultiWord | exporter.py:573-575 | every table entry is multi-word for the plain-text path too |
| ExportPlan.TabSeparatedIsNotTable | exporter.py:573-575 | tab-separated words are multi-word but not a table |
| ExportPlan.TableLines | exporter.py:577-618 | the source lines are the greedy break of the padded source; the gloss is cut at them; no list has more lines than the source |
| ExportPlan.TableWordsShape | exporter.py:576-591 | the padded source and gloss word lists of a table entry are equally long, with at least two words each |
| ExportPlan.TableColsAtLeastTwo | exporter.py:655-663 | a table has a numbering column and at least one word column, and every line fits |
| ExportPlan.CountedRowsExact | exporter.py:620-633 | the row count computed up front equals the rows the fill writes |
| ExportPlan.KeptAtMostRows | exporter.py:608-614 | a secondary list has no more lines than the source |
| ExportPlan.GlossUnderSourceInTable | exporter.py:598-618 | word k of source line q and word k of gloss line q come from the same position of the padded word lists |
| ExportPlan.SourceCnUnderSource | exporter.py:608-612 | secondary source line q holds the secondary words at source line q's positions |
| ExportPlan.TablePrimaryOnly | exporter.py:736-840 | every table row is written and as wide as the table; without the secondary language only primary rows |
| ExportPlan.PlanTable | exporter.py:576-840 | the table branch gives TableOf: the grid, its column count and its row height |
| ExportPlan.TableReady | exporter.py:620-665 | the lines fit the counted columns, there are at least two columns, and the counted rows are the rows the table gets |
| ExportPlan.ParagraphsIndented | exporter.py:844-905 | the first paragraph is the numbering and the source; every later one is indented 0.15 cm per numbering character |
| ExportPlan.EntryShape | exporter.py:573-917 | an entry is a table exactly when it passes the table test, then the italic notes when there are notes, then an empty paragraph |
| ExportPlan.PlanEntry | exporter.py:553-917 | one entry's blocks, or None exactly when a table entry meets font size zero |
| ExportPlan.ClosingShape | exporter.py:907-916 | the closing adds the italic notes when there are notes, then one empty paragraph, and keeps the first block |
| ExportPlan.Export | exporter.py:551-926 | every entry's blocks in order, numbered from 1, or None (the source returns False) exactly when some entry fails |
| ExportPlan.ExportFailsOnlyAtFontSizeZero | exporter.py:551-926 | the export fails (the source returns False) exactly when the source font size is zero and some entry is laid out as a table |

## Left out

- Styling and the docx calls are not part of this model: fonts, borders, margins, cell properties (`_set_cell_properties`), row-height XML, the creation of the document and `save`. The model returns the blocks the document would hold.
- ExportPlan.Export: the model has no document file, so the file write and any exception it raises are not modelled. Only the division by a zero font size is modelled as a failure.
- `export_custom_format`, the GUI, the database and the entry point are not part of this model.
- DisplayWidth.Width: `unicodedata.category` is not available, so whether a code point is a combining mark is the parameter `isCombining`.
- WidthModel.EstimateWordHeight: the source raises the height with `int(base * 1.4)` in floating point. The model uses the exact 28f. For font size 9 the source gets 251 where the model gets 252.
- WidthModel.WillCauseOverflow: widths are computed in exact reals. Floating-point rounding is much smaller than the 0.016 gap between the page width and the nearest whole tenth, but that margin is not proved.
- ExportPlan.ParagraphBlocks: paragraph font sizes (`font_size` and `font_size - 1`), spacing and line spacing are not modelled. The numbering run and the source run of the first paragraph are one text.
- ExportPlan.TableOf: only the source font size (`source_text_size`) is a parameter. The other entries of `font_config` only choose fonts. The `export` arguments `table_width`, `line_spacing`, `entries_per_page` and `max_words_per_line` are not used by the source.
- EntryFormat.FormatEntry: requires `maxWordsPerLine >= 1`. In the source, zero makes `range` raise an error and a negative value emits no aligned lines. `format_entries` always passes 10.
- Entries.Entry: absent fields are empty strings, every present field is a string (a NULL column value, which makes `.strip()` raise in the source, is not modelled), and the record id is a natural number. A missing id, which the source would print as "() ", is not modelled.
- TableGrid.FillTable: a row is a value holding its cell texts and a merge flag. The table is an array of such rows, not a grid of cell objects written one cell at a time. Merging is the flag, not cell objects joined together.
