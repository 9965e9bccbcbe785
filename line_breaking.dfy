/** The table path's greedy line breaker
    (`WordExporter._split_words_by_cumulative_width`): words are placed one
    by one on the current row; the first word of a row is placed
    unconditionally, and a row is closed exactly when the next word would
    make it overflow the page. */
module LineBreaking {
  import opened Text
  import opened WidthModel

  /** Within a row, no word after the first overflowed the words before
      it. */
  predicate RowFits(row: seq<string>) {
    forall j | 1 <= j < |row| :: !TooWide(row[..j] + [row[j]])
  }

  /** Consecutive rows: the first word of the later row overflowed the
      earlier row. */
  predicate RowsBreakAtOverflow(rows: seq<seq<string>>) {
    forall q | 1 <= q < |rows| :: rows[q] != [] && TooWide(rows[q - 1] + [rows[q][0]])
  }

  /** What a greedy break of a non-empty word list is: non-empty rows that
      read back as the words in order, every row grown while the next word
      fitted and closed when it did not. */
  predicate IsGreedyBreak(words: seq<string>, rows: seq<seq<string>>) {
    && rows != []
    && (forall q | 0 <= q < |rows| :: rows[q] != [] && RowFits(rows[q]))
    && Flatten(rows) == words
    && RowsBreakAtOverflow(rows)
  }

  /** Where the first row of `words` closes, looking from word n on: at the
      first word that overflows the words before it, or at the end. */
  function FirstRowLength(words: seq<string>, n: nat): (r: nat)
    requires 1 <= n <= |words|
    ensures n <= r <= |words|
    ensures FitsUpTo(words, n) ==> FitsUpTo(words, r)
    ensures ClosesAt(words, r)
    decreases |words| - n
  {
    if n == |words| || TooWide(words[..n] + [words[n]]) then n else FirstRowLength(words, n + 1)
  }

  /** The greedy break as a function: the first row, then the greedy break
      of the words after it. */
  function GreedyRows(words: seq<string>): seq<seq<string>>
    requires words != []
    decreases |words|
  {
    var n := FirstRowLength(words, 1);
    [words[..n]] + if n < |words| then GreedyRows(words[n..]) else []
  }

  /** GreedyRows is a greedy break, so by GreedyBreakUnique the only one. */
  lemma {:induction false} GreedyRowsIsGreedy(words: seq<string>)
    requires words != []
    ensures IsGreedyBreak(words, GreedyRows(words))
    decreases |words|
  {
    var n := FirstRowLength(words, 1);
    assert FitsUpTo(words, 1);
    PrefixFits(words, n);
    if n < |words| {
      GreedyRowsIsGreedy(words[n..]);
      PrependRow(words, n, GreedyRows(words[n..]));
    } else {
      assert words[..n] == words;
      assert Flatten([words]) == words + Flatten([words][1..]);
    }
  }

  /** A prefix whose words each fitted behind the words before them is a
      fitting row. */
  lemma PrefixFits(words: seq<string>, n: nat)
    requires 1 <= n <= |words| && FitsUpTo(words, n)
    ensures RowFits(words[..n])
  {
    var row := words[..n];
    forall j | 1 <= j < |row|
      ensures !TooWide(row[..j] + [row[j]])
    {
      assert row[..j] == words[..j] && row[j] == words[j];
    }
  }

  /** A fitting first row that closed where the next word overflowed it,
      followed by a greedy break of the remaining words, is a greedy break. */
  lemma PrependRow(words: seq<string>, n: nat, rest: seq<seq<string>>)
    requires 1 <= n < |words| && RowFits(words[..n]) && ClosesAt(words, n)
    requires IsGreedyBreak(words[n..], rest)
    ensures IsGreedyBreak(words, [words[..n]] + rest)
  {
    var row := words[..n];
    var rows := [row] + rest;
    assert rows[1..] == rest;
    FlattenCons(rest);
    assert rest[0][0] == words[n];
    assert Flatten(rows) == row + Flatten(rest);
    assert words == row + words[n..];
    forall q | 1 <= q < |rows|
      ensures rows[q] != [] && TooWide(rows[q - 1] + [rows[q][0]])
    {
      if q > 1 {
        assert rows[q] == rest[q - 1] && rows[q - 1] == rest[q - 2];
      }
    }
  }

  /** A row of two or more words in a greedy break fits on the page: only
      a single word wider than the page stands on a row that overflows. */
  lemma RowsFitPage(words: seq<string>, rows: seq<seq<string>>, q: nat)
    requires IsGreedyBreak(words, rows) && q < |rows| && |rows[q]| >= 2
    ensures !TooWide(rows[q])
  {
    var row := rows[q];
    var j := |row| - 1;
    assert row[..j] + [row[j]] == row;
  }

  /** Words that fit on the page together stay on one row. */
  lemma NarrowWordsOneRow(words: seq<string>)
    requires words != [] && !TooWide(words)
    ensures GreedyRows(words) == [words]
  {
    NoBreakWhenNarrow(words, 1);
    assert words[..|words|] == words;
  }

  lemma {:induction false} NoBreakWhenNarrow(words: seq<string>, n: nat)
    requires 1 <= n <= |words| && !TooWide(words)
    ensures FirstRowLength(words, n) == |words|
    decreases |words| - n
  {
    if n < |words| {
      assert words[..n] + [words[n]] == words[..n + 1];
      assert words[..n + 1] + words[n + 1..] == words;
      TenthsAppend(words[..n + 1], words[n + 1..]);
      NoBreakWhenNarrow(words, n + 1);
    }
  }

  /** The state of the loop after i words: the closed rows and the current
      row hold the first i words in order; the current row is empty only
      before the first word; every row fits and every closed row closed
      where the next word overflowed it. */
  predicate Placed(words: seq<string>, i: nat, rows: seq<seq<string>>, current: seq<string>)
    requires i <= |words|
  {
    && Flatten(rows) + current == words[..i]
    && (i == 0 <==> current == [])
    && (i == 0 ==> rows == [])
    && (forall q | 0 <= q < |rows| :: rows[q] != [] && RowFits(rows[q]))
    && RowFits(current)
    && RowsBreakAtOverflow(rows)
    && (rows != [] && current != [] ==> TooWide(rows[|rows| - 1] + [current[0]]))
  }

  /** The source's loop. The font size only matters once a second word is
      measured against the page, so only then must it be non-zero. */
  method SplitWordsByCumulativeWidth(words: seq<string>, fontSize: int) returns (lines: seq<seq<string>>)
    requires |words| <= 1 || fontSize != 0
    ensures words == [] ==> lines == [[]]
    ensures words != [] ==> IsGreedyBreak(words, lines) && lines == GreedyRows(words)
  {
    if words == [] {
      return [[]];
    }
    lines := [];
    var currentLine: seq<string> := [];
    for i := 0 to |words|
      invariant Placed(words, i, lines, currentLine)
    {
      var word := words[i];
      if currentLine == [] {
        PlaceFirst(words, i, lines, currentLine);
        currentLine := currentLine + [word];
      } else if WillCauseOverflow(currentLine, word, fontSize) {
        OverflowIffTooWide(currentLine, word, fontSize);
        PlaceOnNewRow(words, i, lines, currentLine);
        lines := lines + [currentLine];
        currentLine := [word];
      } else {
        OverflowIffTooWide(currentLine, word, fontSize);
        PlaceOnRow(words, i, lines, currentLine);
        currentLine := currentLine + [word];
      }
    }
    if currentLine != [] {
      AllPlaced(words, lines, currentLine);
      lines := lines + [currentLine];
    }
    lines := if lines != [] then lines else [[]];
    GreedyRowsIsGreedy(words);
    GreedyBreakUnique(words, lines, GreedyRows(words));
  }

  /** The first word opens the first row. */
  lemma PlaceFirst(words: seq<string>, i: nat, rows: seq<seq<string>>, current: seq<string>)
    requires i < |words| && Placed(words, i, rows, current) && current == []
    ensures Placed(words, i + 1, rows, current + [words[i]])
  {
    assert words[..i + 1] == words[..i] + [words[i]];
  }

  /** A word that overflows the current row closes it and opens the next. */
  lemma PlaceOnNewRow(words: seq<string>, i: nat, rows: seq<seq<string>>, current: seq<string>)
    requires i < |words| && Placed(words, i, rows, current) && current != []
    requires TooWide(current + [words[i]])
    ensures Placed(words, i + 1, rows + [current], [words[i]])
  {
    assert words[..i + 1] == words[..i] + [words[i]];
    FlattenSnoc(rows, current);
    CloseRow(rows, current);
  }

  /** A word that fits goes on the current row. */
  lemma PlaceOnRow(words: seq<string>, i: nat, rows: seq<seq<string>>, current: seq<string>)
    requires i < |words| && Placed(words, i, rows, current) && current != []
    requires !TooWide(current + [words[i]])
    ensures Placed(words, i + 1, rows, current + [words[i]])
  {
    assert words[..i + 1] == words[..i] + [words[i]];
    GrowRow(current, words[i]);
  }

  /** After the last word, closing the current row gives a greedy break. */
  lemma AllPlaced(words: seq<string>, rows: seq<seq<string>>, current: seq<string>)
    requires Placed(words, |words|, rows, current) && current != []
    ensures IsGreedyBreak(words, rows + [current])
  {
    assert words[..|words|] == words;
    FlattenSnoc(rows, current);
    CloseRow(rows, current);
  }

  lemma {:induction false} FlattenSnoc(rows: seq<seq<string>>, row: seq<string>)
    ensures Flatten(rows + [row]) == Flatten(rows) + row
    decreases |rows|
  {
    if rows == [] {
      assert Flatten([row]) == row + Flatten([row][1..]);
    } else {
      assert (rows + [row])[1..] == rows[1..] + [row];
      FlattenSnoc(rows[1..], row);
    }
  }

  /** A word that did not overflow the row keeps the row fitting. */
  lemma GrowRow(row: seq<string>, word: string)
    requires RowFits(row) && !TooWide(row + [word])
    ensures RowFits(row + [word])
  {
    var r := row + [word];
    forall j | 1 <= j < |r|
      ensures !TooWide(r[..j] + [r[j]])
    {
      if j < |row| {
        assert r[..j] == row[..j] && r[j] == row[j];
      } else {
        assert r[..j] == row;
      }
    }
  }

  /** Closing the current row keeps the rows breaking at overflow. */
  lemma CloseRow(rows: seq<seq<string>>, row: seq<string>)
    requires row != [] && RowsBreakAtOverflow(rows)
    requires rows != [] ==> TooWide(rows[|rows| - 1] + [row[0]])
    ensures RowsBreakAtOverflow(rows + [row])
  {
    var r := rows + [row];
    forall q | 1 <= q < |r|
      ensures r[q] != [] && TooWide(r[q - 1] + [r[q][0]])
    {
      if q < |rows| {
        assert r[q] == rows[q] && r[q - 1] == rows[q - 1];
      }
    }
  }

  /** The break is determined by the words: two greedy breaks of the same
      words are the same rows. */
  lemma {:induction false} GreedyBreakUnique(words: seq<string>, a: seq<seq<string>>, b: seq<seq<string>>)
    requires IsGreedyBreak(words, a) && IsGreedyBreak(words, b)
    ensures a == b
    decreases |a|
  {
    FlattenCons(a);
    FlattenCons(b);
    FirstRowNotShorter(words, a, b);
    FirstRowNotShorter(words, b, a);
    var n := |a[0]|;
    assert a[0] == words[..n] == b[0];
    var rest := words[n..];
    assert Flatten(a[1..]) == rest && Flatten(b[1..]) == rest;
    FlattenOfNonEmptyRows(a[1..]);
    FlattenOfNonEmptyRows(b[1..]);
    if rest != [] {
      TailIsGreedy(a);
      TailIsGreedy(b);
      GreedyBreakUnique(rest, a[1..], b[1..]);
    }
    assert a == [a[0]] + a[1..] && b == [b[0]] + b[1..];
  }

  lemma FlattenCons(rows: seq<seq<string>>)
    requires rows != []
    ensures Flatten(rows) == rows[0] + Flatten(rows[1..])
  {
  }

  /** Non-empty rows flatten to nothing only when there are none. */
  lemma FlattenOfNonEmptyRows(rows: seq<seq<string>>)
    requires forall q | 0 <= q < |rows| :: rows[q] != []
    ensures Flatten(rows) == [] <==> rows == []
  {
  }

  /** The rows after the first of a greedy break are a greedy break of the
      words after the first row. */
  lemma TailIsGreedy(rows: seq<seq<string>>)
    requires |rows| > 1
    requires forall q | 0 <= q < |rows| :: rows[q] != [] && RowFits(rows[q])
    requires RowsBreakAtOverflow(rows)
    ensures IsGreedyBreak(Flatten(rows[1..]), rows[1..])
  {
    var t := rows[1..];
    forall q | 1 <= q < |t|
      ensures t[q] != [] && TooWide(t[q - 1] + [t[q][0]])
    {
      assert t[q] == rows[q + 1] && t[q - 1] == rows[q];
    }
  }

  /** The first row of a break of `words` has n words and the row closed
      there: either no word was left, or word n overflowed it. */
  predicate ClosesAt(words: seq<string>, n: nat)
    requires n <= |words|
  {
    n < |words| ==> TooWide(words[..n] + [words[n]])
  }

  /** Words 1 to n - 1 each fitted behind the words before them. */
  predicate FitsUpTo(words: seq<string>, n: nat)
    requires n <= |words|
  {
    forall j | 1 <= j < n :: !TooWide(words[..j] + [words[j]])
  }

  /** The first row of a greedy break is a prefix of the words that fitted
      word by word and closed where it ended. */
  lemma FirstRowOfGreedyBreak(words: seq<string>, rows: seq<seq<string>>)
    requires IsGreedyBreak(words, rows)
    ensures 1 <= |rows[0]| <= |words| && rows[0] == words[..|rows[0]|]
    ensures FitsUpTo(words, |rows[0]|) && ClosesAt(words, |rows[0]|)
  {
    FlattenCons(rows);
    var n := |rows[0]|;
    assert rows[0] == words[..n];
    FlattenOfNonEmptyRows(rows[1..]);
    if |rows| > 1 {
      FlattenCons(rows[1..]);
      assert words[n] == rows[1][0];
    }
    forall j | 1 <= j < n
      ensures !TooWide(words[..j] + [words[j]])
    {
      assert words[..j] == rows[0][..j] && words[j] == rows[0][j];
    }
  }

  /** Of two greedy breaks of the same words, the first row of one is never
      shorter than the other's: where the shorter one closed, the longer one
      took the next word in without overflowing. */
  lemma FirstRowNotShorter(words: seq<string>, a: seq<seq<string>>, b: seq<seq<string>>)
    requires IsGreedyBreak(words, a) && IsGreedyBreak(words, b)
    ensures |b[0]| <= |a[0]|
  {
    FirstRowOfGreedyBreak(words, a);
    FirstRowOfGreedyBreak(words, b);
  }
}
