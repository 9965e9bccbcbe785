/** The heuristic monospace display width of a text span
    (`TextFormatter.calculate_display_width`). Code points are classified in
    priority order: wide CJK and fullwidth forms, tone superscripts (a whole
    run is measured together), combining marks, everything else.

    Whether a code point is a combining mark is decided in the source by the
    Unicode character database (general category Mn, Mc or Me); that table is
    not part of this model, so it is the parameter `isCombining`. */
module DisplayWidth {

  /** CJK unified ideographs, CJK extension A and the halfwidth/fullwidth
      forms block: two cells each. */
  predicate IsWide(c: char) {
    var u := c as int;
    (0x4E00 <= u <= 0x9FFF) || (0x3400 <= u <= 0x4DBF) || (0xFF00 <= u <= 0xFFEF)
  }

  /** The superscripts-and-subscripts block and the two Latin-1 superscript
      digits two and three. U+00B9 (superscript one) is not in the set. */
  predicate IsToneMark(c: char) {
    var u := c as int;
    (0x2070 <= u <= 0x209F) || (0x00B2 <= u <= 0x00B3)
  }

  /** Length of the maximal run of tone marks at the start of `s`. */
  function ToneRun(s: string): (n: nat)
    ensures n <= |s|
    ensures forall i | 0 <= i < n :: IsToneMark(s[i])
    ensures n < |s| ==> !IsToneMark(s[n])
  {
    if s == [] || !IsToneMark(s[0]) then 0 else 1 + ToneRun(s[1..])
  }

  /** The display width of `s`, one classified unit at a time. A maximal run
      of n tone marks is one unit of width (n + 1) / 2, that is ceil(n / 2). */
  function Width(s: string, isCombining: char -> bool): nat
    decreases |s|
  {
    if s == [] then 0
    else if IsWide(s[0]) then 2 + Width(s[1..], isCombining)
    else if IsToneMark(s[0]) then
      var n := ToneRun(s);
      (n + 1) / 2 + Width(s[n..], isCombining)
    else if isCombining(s[0]) then Width(s[1..], isCombining)
    else 1 + Width(s[1..], isCombining)
  }

  /** The source's scan: an index walks the text; on a tone mark an inner
      loop counts the run, and the index is stepped back by one so that the
      outer step lands just after the run. */
  method CalculateDisplayWidth(text: string, isCombining: char -> bool) returns (width: nat)
    ensures width == Width(text, isCombining)
  {
    width := 0;
    var i := 0;
    while i < |text|
      invariant 0 <= i <= |text|
      invariant width + Width(text[i..], isCombining) == Width(text, isCombining)
    {
      var c := text[i];
      if 0x4E00 <= c as int <= 0x9FFF {
        width := width + 2;
      } else if 0x3400 <= c as int <= 0x4DBF {
        width := width + 2;
      } else if 0xFF00 <= c as int <= 0xFFEF {
        width := width + 2;
      } else if IsToneMark(c) {
        ghost var start := i;
        var count := 0;
        while i < |text| && IsToneMark(text[i])
          invariant start <= i <= |text| && count == i - start
          invariant forall k | start <= k < i :: IsToneMark(text[k])
        {
          count := count + 1;
          i := i + 1;
        }
        assert i > start;
        ToneRunIs(text[start..], count);
        assert text[start..][count..] == text[i..];
        i := i - 1;
        width := width + (count + 1) / 2;
      } else if isCombining(c) {
        width := width + 0;
      } else {
        width := width + 1;
      }
      i := i + 1;
    }
  }

  /** A count that satisfies ToneRun's three conditions is ToneRun. */
  lemma ToneRunIs(s: string, n: nat)
    requires n <= |s|
    requires forall i | 0 <= i < n :: IsToneMark(s[i])
    requires n < |s| ==> !IsToneMark(s[n])
    ensures ToneRun(s) == n
  {
  }

  /** One code point on its own: 2 if wide, 1 if a tone mark (a run of one),
      0 if combining, 1 otherwise, in that priority order. */
  lemma WidthOfChar(c: char, isCombining: char -> bool)
    ensures Width([c], isCombining) ==
      if IsWide(c) then 2
      else if IsToneMark(c) then 1
      else if isCombining(c) then 0
      else 1
  {
    var s := [c];
    assert s[1..] == [];
    if IsToneMark(c) {
      ToneRunIs(s, 1);
    }
  }

  /** A run of n tone marks and nothing else has width ceil(n / 2). */
  lemma WidthOfToneRun(s: string, isCombining: char -> bool)
    requires s != [] && forall i | 0 <= i < |s| :: IsToneMark(s[i])
    ensures Width(s, isCombining) == (|s| + 1) / 2
  {
    ToneRunIs(s, |s|);
    assert s[|s|..] == [];
  }

  /** Width is additive over a concatenation unless a run of tone marks
      straddles the boundary. Combining marks never break additivity, since
      each counts 0 on its own. */
  lemma {:induction false} WidthAppend(a: string, b: string, isCombining: char -> bool)
    requires a == [] || b == [] || !IsToneMark(a[|a| - 1]) || !IsToneMark(b[0])
    ensures Width(a + b, isCombining) == Width(a, isCombining) + Width(b, isCombining)
    decreases |a|
  {
    if a == [] {
      assert a + b == b;
    } else if IsToneMark(a[0]) {
      var n := ToneRun(a);
      if n == |a| {
        ToneRunIs(a + b, n);
        assert (a + b)[n..] == b;
        assert a[n..] == [];
      } else {
        ToneRunIs(a + b, n);
        assert (a + b)[n..] == a[n..] + b;
        WidthAppend(a[n..], b, isCombining);
      }
    } else {
      assert (a + b)[1..] == a[1..] + b;
      WidthAppend(a[1..], b, isCombining);
    }
  }

  /** No code point is wider than two cells. */
  lemma {:induction false} WidthAtMostTwicePerChar(s: string, isCombining: char -> bool)
    ensures Width(s, isCombining) <= 2 * |s|
    decreases |s|
  {
    if s != [] {
      if IsToneMark(s[0]) {
        WidthAtMostTwicePerChar(s[ToneRun(s)..], isCombining);
      } else {
        WidthAtMostTwicePerChar(s[1..], isCombining);
      }
    }
  }

  /** A text without wide characters, tone marks or combining marks has its
      length as its width. */
  lemma {:induction false} WidthOfPlainText(s: string, isCombining: char -> bool)
    requires forall i | 0 <= i < |s| :: !IsWide(s[i]) && !IsToneMark(s[i]) && !isCombining(s[i])
    ensures Width(s, isCombining) == |s|
    decreases |s|
  {
    if s != [] {
      WidthOfPlainText(s[1..], isCombining);
    }
  }

  /** The worked examples: "abc" is 3, "测试" is 4, "a测b" is 4. */
  lemma WidthExamples(isCombining: char -> bool)
    requires !isCombining('a') && !isCombining('b') && !isCombining('c')
    ensures Width("abc", isCombining) == 3
    ensures Width("测试", isCombining) == 4
    ensures Width("a测b", isCombining) == 4
  {
    WidthOfPlainText("abc", isCombining);
    WidthAppend("测", "试", isCombining);
    WidthOfChar('测', isCombining);
    WidthOfChar('试', isCombining);
    WidthAppend("a", "测b", isCombining);
    WidthAppend("测", "b", isCombining);
    WidthOfChar('a', isCombining);
    WidthOfChar('b', isCombining);
  }

  /** "¹²³" measures 2: U+00B9 is outside the tone set and counts as an
      ordinary character, and "²³" is one run of two, width 1. */
  lemma SuperscriptOneIsOrdinary(isCombining: char -> bool)
    requires !isCombining('¹')
    ensures Width("¹²³", isCombining) == 2
    ensures Width("¹¹", isCombining) == 2
    ensures Width("²²", isCombining) == 1
  {
    WidthAppend("¹", "²³", isCombining);
    WidthOfChar('¹', isCombining);
    WidthOfToneRun("²³", isCombining);
    WidthAppend("¹", "¹", isCombining);
    WidthOfToneRun("²²", isCombining);
  }
}
