/** The table path's size estimates (`WordExporter._estimate_word_height`,
    `_estimate_word_width` and `_will_cause_overflow`): how tall a word
    cell is, how wide a word is in relative units, and whether one more word
    would push a table row past the width of an A4 page.

    The source computes in floating point. Every width is a whole number of
    tenths here, so the model computes in exact `real` arithmetic and proves
    that the decision it reaches is an integer comparison on tenths. */
module WidthModel {

  /** The superscript digits the height estimate looks for. Unlike the
      display width's tone set, this one holds U+00B9 (superscript one). */
  const SuperscriptDigits: string := "⁰¹²³⁴⁵⁶⁷⁸⁹"
  const SubscriptDigits: string := "₀₁₂₃₄₅₆₇₈₉"

  predicate IsScriptDigit(c: char) {
    c in SuperscriptDigits || c in SubscriptDigits
  }

  predicate HasScriptDigit(word: string) {
    exists i | 0 <= i < |word| :: IsScriptDigit(word[i])
  }

  /** The estimated height of a word cell in twips (1 pt = 20 twips): the
      font size, raised by 40% when the word holds a superscript or
      subscript digit, plus a padding of 4 twips per point. An empty word
      gets the bare font size. */
  function EstimateWordHeight(word: string, fontSize: int): (h: int)
    ensures word == [] ==> h == 20 * fontSize
    ensures word != [] && !HasScriptDigit(word) ==> h == 24 * fontSize
    ensures word != [] && HasScriptDigit(word) ==> h == 32 * fontSize
  {
    if word == [] then fontSize * 20
    else
      var baseHeight := fontSize * 20;
      var raised := if HasScriptDigit(word) then baseHeight * 14 / 10 else baseHeight;
      raised + fontSize * 4
  }

  /** At a positive font size, an empty cell is lower than a plain word,
      which is lower than a word with a raised or lowered digit. */
  lemma HeightOrder(plain: string, raised: string, fontSize: int)
    requires fontSize > 0
    requires plain != [] && !HasScriptDigit(plain)
    requires HasScriptDigit(raised)
    ensures 0 < EstimateWordHeight([], fontSize) < EstimateWordHeight(plain, fontSize)
    ensures EstimateWordHeight(plain, fontSize) < EstimateWordHeight(raised, fontSize)
  {
    assert raised != [];
  }

  /** "x¹" counts as raised for the height (U+00B9 is in the set), "x" does
      not. */
  lemma SuperscriptOneRaisesHeight(fontSize: int)
    ensures EstimateWordHeight("x¹", fontSize) == 32 * fontSize
    ensures EstimateWordHeight("x", fontSize) == 24 * fontSize
  {
    assert IsScriptDigit("x¹"[1]);
    assert !IsScriptDigit("x"[0]);
  }

  /** The estimated width of a word in relative units: 1.2 per character
      plus a margin of 4.0, or nothing for an empty word. */
  function EstimateWordWidth(word: string): real {
    if word == [] then 0.0 else (|word| as real) * 1.2 + 4.0
  }

  /** The cell margins, in the same units, that every word cell adds. */
  const CellOverhead: real := 3.8

  /** The width of the numbering column, added to every non-empty row. */
  const NumberingColumnWidth: real := 10.0

  /** The sum over the words of their widths plus the cell overhead. */
  function LineWidth(words: seq<string>): real {
    if words == [] then 0.0
    else LineWidth(words[..|words| - 1]) + (EstimateWordWidth(words[|words| - 1]) + CellOverhead)
  }

  /** The width a table row of these words needs. */
  function TotalWidth(words: seq<string>): real {
    LineWidth(words) + if words != [] then NumberingColumnWidth else 0.0
  }

  /** The usable width of an A4 page for a font size: 15.9 cm at 40 / f
      characters per cm, 1.2 units per character, and a calibration factor
      of 1.2 * f / 10. The source divides by the font size, so a font size
      of zero raises an error there. */
  function PageAvailableWidth(fontSize: int): real
    requires fontSize != 0
  {
    var f := fontSize as real;
    var charsPerCm := 40.0 / f;
    var totalChars := 15.9 * charsPerCm;
    var calibration := 1.2 * (f / 10.0);
    totalChars * 1.2 * calibration
  }

  const PageCapacity: real := 91.584

  /** The font size cancels out: every font size gets the same page. */
  lemma PageWidthIsConstant(fontSize: int)
    requires fontSize != 0
    ensures PageAvailableWidth(fontSize) == PageCapacity
  {
    var f := fontSize as real;
    assert (40.0 / f) * f == 40.0;
    assert (f / 10.0) * 10.0 == f;
    calc {
      PageAvailableWidth(fontSize);
      15.9 * (40.0 / f) * 1.2 * (1.2 * (f / 10.0));
      15.9 * 1.2 * 1.2 * ((40.0 / f) * (f / 10.0));
      { assert (40.0 / f) * (f / 10.0) == 4.0; }
      15.9 * 1.2 * 1.2 * 4.0;
    }
  }

  /** Whether the current row plus the new word would need more than the
      page. */
  function WillCauseOverflow(currentLine: seq<string>, newWord: string, fontSize: int): bool
    requires fontSize != 0
  {
    TotalWidth(currentLine + [newWord]) > PageAvailableWidth(fontSize)
  }

  /** A word's width in tenths of a unit. */
  function WordTenths(word: string): nat {
    if word == [] then 0 else 12 * |word| + 40
  }

  /** A row's word widths and cell overheads, in tenths. */
  function Tenths(words: seq<string>): nat {
    if words == [] then 0 else Tenths(words[..|words| - 1]) + WordTenths(words[|words| - 1]) + 38
  }

  /** The integer form of the overflow test: a row that is not empty is too
      wide when its words and overheads take 81.6 units or more, so that
      with the numbering column it needs at least 91.6 > 91.584. */
  predicate TooWide(words: seq<string>) {
    Tenths(words) >= 816
  }

  lemma {:induction false} LineWidthInTenths(words: seq<string>)
    ensures LineWidth(words) * 10.0 == Tenths(words) as real
    decreases |words|
  {
    if words != [] {
      LineWidthInTenths(words[..|words| - 1]);
      var w := words[|words| - 1];
      assert EstimateWordWidth(w) * 10.0 == WordTenths(w) as real;
    }
  }

  /** The overflow test is the integer test TooWide, whatever the font
      size: widths are whole tenths and can never tie with the page. */
  lemma OverflowIffTooWide(currentLine: seq<string>, newWord: string, fontSize: int)
    requires fontSize != 0
    ensures WillCauseOverflow(currentLine, newWord, fontSize) <==> TooWide(currentLine + [newWord])
  {
    PageWidthIsConstant(fontSize);
    LineWidthInTenths(currentLine + [newWord]);
  }

  /** So two font sizes always reach the same decision. */
  lemma OverflowIndependentOfFontSize(currentLine: seq<string>, newWord: string, f: int, g: int)
    requires f != 0 && g != 0
    ensures WillCauseOverflow(currentLine, newWord, f) == WillCauseOverflow(currentLine, newWord, g)
  {
    OverflowIffTooWide(currentLine, newWord, f);
    OverflowIffTooWide(currentLine, newWord, g);
  }

  lemma {:induction false} TenthsAppend(a: seq<string>, b: seq<string>)
    ensures Tenths(a + b) == Tenths(a) + Tenths(b)
    decreases |b|
  {
    if b == [] {
      assert a + b == a;
    } else {
      assert (a + b)[..|a + b| - 1] == a + b[..|b| - 1];
      TenthsAppend(a, b[..|b| - 1]);
    }
  }

  /** Lengthening words, position by position, never narrows a row. */
  lemma {:induction false} TenthsMonotone(a: seq<string>, b: seq<string>)
    requires |a| == |b| && forall k | 0 <= k < |a| :: |a[k]| <= |b[k]|
    ensures Tenths(a) <= Tenths(b)
    decreases |a|
  {
    if a != [] {
      var n := |a| - 1;
      TenthsMonotone(a[..n], b[..n]);
      assert a[n] != [] ==> b[n] != [];
    }
  }

  /** Once the new word overflows a row, it overflows any row that holds
      more words besides, before or after. */
  lemma OverflowGrowsWithRow(currentLine: seq<string>, before: seq<string>, after: seq<string>,
                             newWord: string, fontSize: int)
    requires fontSize != 0
    ensures WillCauseOverflow(currentLine, newWord, fontSize)
            ==> WillCauseOverflow(before + currentLine + after, newWord, fontSize)
  {
    OverflowIffTooWide(currentLine, newWord, fontSize);
    OverflowIffTooWide(before + currentLine + after, newWord, fontSize);
    TenthsAppend(currentLine, [newWord]);
    TenthsAppend(before + currentLine + after, [newWord]);
    TenthsAppend(before + currentLine, after);
    TenthsAppend(before, currentLine);
  }

  /** Once a word overflows, a longer word in its place, or longer words in
      the row, overflow as well. */
  lemma OverflowGrowsWithWordLength(currentLine: seq<string>, longerLine: seq<string>,
                                    newWord: string, longerWord: string, fontSize: int)
    requires fontSize != 0
    requires |currentLine| == |longerLine|
    requires forall k | 0 <= k < |currentLine| :: |currentLine[k]| <= |longerLine[k]|
    requires |newWord| <= |longerWord|
    ensures WillCauseOverflow(currentLine, newWord, fontSize)
            ==> WillCauseOverflow(longerLine, longerWord, fontSize)
  {
    OverflowIffTooWide(currentLine, newWord, fontSize);
    OverflowIffTooWide(longerLine, longerWord, fontSize);
    var a, b := currentLine + [newWord], longerLine + [longerWord];
    assert forall k | 0 <= k < |a| :: |a[k]| <= |b[k]| by {
      forall k | 0 <= k < |a|
        ensures |a[k]| <= |b[k]|
      {
        if k < |currentLine| {
          assert a[k] == currentLine[k] && b[k] == longerLine[k];
        }
      }
    }
    TenthsMonotone(a, b);
  }
}
