/** How the table path cuts the gloss and the secondary-language word lists
    at the source rows' boundaries (the slicing loop of `WordExporter.export`):
    the gloss is cut row for row; a secondary-language list keeps a row's
    slice only when it is not empty and holds every word of that slice. */
module TableSlices {
  import opened Text
  import opened LineBreaking

  /** The slices of `words` that line up with `rows`, from word `start` on:
      as many words as the row holds, row after row. */
  function Cut(rows: seq<seq<string>>, words: seq<string>, start: nat): seq<seq<string>>
    requires start + |Flatten(rows)| <= |words|
    decreases |rows|
  {
    if rows == [] then []
    else
      var end := start + |rows[0]|;
      [words[start..end]] + Cut(rows[1..], words, end)
  }

  /** The same cut where a slice is kept only when `words` is not empty and
      the slice ends within it; a row whose slice is cut short gets none. */
  function CompleteSlices(rows: seq<seq<string>>, words: seq<string>, start: nat): seq<seq<string>>
    decreases |rows|
  {
    if rows == [] then []
    else
      var end := start + |rows[0]|;
      KeptSlice(words, start, end) + CompleteSlices(rows[1..], words, end)
  }

  /** The word index where row q starts. */
  function Boundary(rows: seq<seq<string>>, q: nat): nat
    requires q <= |rows|
  {
    |Flatten(rows[..q])|
  }

  /** The state of the loop before row q: the running word index is row q's
      boundary, and the three lists hold the slices of the rows before q. */
  predicate SlicedBefore(rows: seq<seq<string>>, q: nat, wordIdx: nat,
                         glossWords: seq<string>, sourceCnWords: seq<string>, glossCnWords: seq<string>,
                         glossLines: seq<seq<string>>, sourceCnLines: seq<seq<string>>,
                         glossCnLines: seq<seq<string>>)
    requires q <= |rows| && |glossWords| == |Flatten(rows)|
  {
    && wordIdx + |Flatten(rows[q..])| == |Flatten(rows)|
    && glossLines + Cut(rows[q..], glossWords, wordIdx) == Cut(rows, glossWords, 0)
    && sourceCnLines + CompleteSlices(rows[q..], sourceCnWords, wordIdx) == CompleteSlices(rows, sourceCnWords, 0)
    && glossCnLines + CompleteSlices(rows[q..], glossCnWords, wordIdx) == CompleteSlices(rows, glossCnWords, 0)
  }

  /** The source's loop: one pass over the rows with a running word index. */
  method SliceAtBoundaries(rows: seq<seq<string>>, glossWords: seq<string>,
                           sourceCnWords: seq<string>, glossCnWords: seq<string>)
    returns (glossLines: seq<seq<string>>, sourceCnLines: seq<seq<string>>,
             glossCnLines: seq<seq<string>>)
    requires |glossWords| == |Flatten(rows)|
    ensures glossLines == Cut(rows, glossWords, 0)
    ensures sourceCnLines == CompleteSlices(rows, sourceCnWords, 0)
    ensures glossCnLines == CompleteSlices(rows, glossCnWords, 0)
  {
    glossLines, sourceCnLines, glossCnLines := [], [], [];
    var wordIdx: nat := 0;
    for q := 0 to |rows|
      invariant SlicedBefore(rows, q, wordIdx, glossWords, sourceCnWords, glossCnWords,
                             glossLines, sourceCnLines, glossCnLines)
    {
      var lineLen := |rows[q]|;
      SliceRowBounds(rows, q, wordIdx, glossWords, sourceCnWords, glossCnWords,
                     glossLines, sourceCnLines, glossCnLines);
      var g := glossLines + [glossWords[wordIdx..wordIdx + lineLen]];
      var s := sourceCnLines;
      if sourceCnWords != [] && wordIdx + lineLen <= |sourceCnWords| {
        s := s + [sourceCnWords[wordIdx..wordIdx + lineLen]];
      }
      var c := glossCnLines;
      if glossCnWords != [] && wordIdx + lineLen <= |glossCnWords| {
        c := c + [glossCnWords[wordIdx..wordIdx + lineLen]];
      }
      SliceRow(rows, q, wordIdx, glossWords, sourceCnWords, glossCnWords,
               glossLines, sourceCnLines, glossCnLines, g, s, c);
      glossLines, sourceCnLines, glossCnLines := g, s, c;
      wordIdx := wordIdx + lineLen;
    }
    assert rows[|rows|..] == [];
  }

  /** Row q's gloss slice lies within the gloss words. */
  lemma SliceRowBounds(rows: seq<seq<string>>, q: nat, wordIdx: nat,
                       glossWords: seq<string>, sourceCnWords: seq<string>, glossCnWords: seq<string>,
                       glossLines: seq<seq<string>>, sourceCnLines: seq<seq<string>>,
                       glossCnLines: seq<seq<string>>)
    requires q < |rows| && |glossWords| == |Flatten(rows)|
    requires SlicedBefore(rows, q, wordIdx, glossWords, sourceCnWords, glossCnWords,
                          glossLines, sourceCnLines, glossCnLines)
    ensures wordIdx + |rows[q]| <= |glossWords|
  {
    CutStep(rows, glossWords, q, wordIdx);
  }

  /** One turn of the loop keeps its state. */
  lemma SliceRow(rows: seq<seq<string>>, q: nat, wordIdx: nat,
                 glossWords: seq<string>, sourceCnWords: seq<string>, glossCnWords: seq<string>,
                 glossLines: seq<seq<string>>, sourceCnLines: seq<seq<string>>,
                 glossCnLines: seq<seq<string>>,
                 g: seq<seq<string>>, s: seq<seq<string>>, c: seq<seq<string>>)
    requires q < |rows| && |glossWords| == |Flatten(rows)|
    requires SlicedBefore(rows, q, wordIdx, glossWords, sourceCnWords, glossCnWords,
                          glossLines, sourceCnLines, glossCnLines)
    requires wordIdx + |rows[q]| <= |glossWords|
    requires g == glossLines + [glossWords[wordIdx..wordIdx + |rows[q]|]]
    requires s == sourceCnLines + KeptSlice(sourceCnWords, wordIdx, wordIdx + |rows[q]|)
    requires c == glossCnLines + KeptSlice(glossCnWords, wordIdx, wordIdx + |rows[q]|)
    ensures SlicedBefore(rows, q + 1, wordIdx + |rows[q]|, glossWords, sourceCnWords, glossCnWords, g, s, c)
  {
    CutStep(rows, glossWords, q, wordIdx);
    KeepStep(rows, sourceCnWords, q, wordIdx);
    KeepStep(rows, glossCnWords, q, wordIdx);
  }

  /** The slice from start to end when it is complete, else nothing. */
  function KeptSlice(words: seq<string>, start: nat, end: nat): seq<seq<string>>
    requires start <= end
  {
    if words != [] && end <= |words| then [words[start..end]] else []
  }

  /** One turn of the loop: the cut from row q on is row q's slice, then
      the cut from row q + 1 on. */
  lemma CutStep(rows: seq<seq<string>>, words: seq<string>, q: nat, start: nat)
    requires q < |rows| && start + |Flatten(rows[q..])| <= |words|
    ensures start + |rows[q]| + |Flatten(rows[q + 1..])| == start + |Flatten(rows[q..])|
    ensures Cut(rows[q..], words, start)
            == [words[start..start + |rows[q]|]] + Cut(rows[q + 1..], words, start + |rows[q]|)
  {
    assert rows[q..][0] == rows[q] && rows[q..][1..] == rows[q + 1..];
  }

  lemma KeepStep(rows: seq<seq<string>>, words: seq<string>, q: nat, start: nat)
    requires q < |rows|
    ensures CompleteSlices(rows[q..], words, start)
            == KeptSlice(words, start, start + |rows[q]|) + CompleteSlices(rows[q + 1..], words, start + |rows[q]|)
  {
    assert rows[q..][0] == rows[q] && rows[q..][1..] == rows[q + 1..];
  }

  /** The cut has one slice per row, of the row's length, and the slices
      read back as the words they cover. */
  lemma {:induction false} CutShape(rows: seq<seq<string>>, words: seq<string>, start: nat)
    requires start + |Flatten(rows)| <= |words|
    ensures |Cut(rows, words, start)| == |rows|
    ensures forall q | 0 <= q < |rows| :: |Cut(rows, words, start)[q]| == |rows[q]|
    ensures Flatten(Cut(rows, words, start)) == words[start..start + |Flatten(rows)|]
    decreases |rows|
  {
    if rows != [] {
      var end := start + |rows[0]|;
      var c := Cut(rows, words, start);
      CutShape(rows[1..], words, end);
      assert c[1..] == Cut(rows[1..], words, end);
      forall q | 1 <= q < |rows|
        ensures |c[q]| == |rows[q]|
      {
        assert c[q] == c[1..][q - 1] && rows[q] == rows[1..][q - 1];
      }
      assert words[start..start + |Flatten(rows)|] == words[start..end] + words[end..end + |Flatten(rows[1..])|];
    }
  }

  /** Cutting a row's own words at its boundaries gives the rows back: the
      cut is made exactly where the source rows break. */
  lemma {:induction false} CutOwnWords(rows: seq<seq<string>>, words: seq<string>, start: nat)
    requires start + |Flatten(rows)| <= |words|
    requires words[start..start + |Flatten(rows)|] == Flatten(rows)
    ensures Cut(rows, words, start) == rows
    decreases |rows|
  {
    if rows != [] {
      var end := start + |rows[0]|;
      var w := words[start..start + |Flatten(rows)|];
      assert w[..|rows[0]|] == words[start..end];
      assert w[|rows[0]|..] == words[end..end + |Flatten(rows[1..])|];
      CutOwnWords(rows[1..], words, end);
    }
  }

  /** Row q's slice holds the words from row q's boundary on. */
  lemma {:induction false} CutAt(rows: seq<seq<string>>, words: seq<string>, start: nat, q: nat)
    requires start + |Flatten(rows)| <= |words| && q < |rows|
    ensures start + Boundary(rows, q) + |rows[q]| <= |words|
    ensures q < |Cut(rows, words, start)|
    ensures Cut(rows, words, start)[q]
            == words[start + Boundary(rows, q)..start + Boundary(rows, q) + |rows[q]|]
    decreases q
  {
    CutShape(rows, words, start);
    var end := start + |rows[0]|;
    if q == 0 {
      assert rows[..0] == [];
    } else {
      CutAt(rows[1..], words, end, q - 1);
      assert rows[1..][..q - 1] == rows[..q][1..];
      assert rows[..q][0] == rows[0];
      assert rows[1..][q - 1] == rows[q];
      BoundaryBelowTotal(rows, q);
    }
  }

  /** When the rows are cut out of `words` themselves, word k of row q and
      word k of the same row's cut of `other` sit at one position of the two
      lists. */
  lemma CutColumn(rows: seq<seq<string>>, words: seq<string>, other: seq<string>, q: nat, k: nat)
    requires Flatten(rows) == words && |other| == |words|
    requires q < |rows| && k < |rows[q]|
    ensures Boundary(rows, q) + k < |words|
    ensures q < |Cut(rows, other, 0)| && k < |Cut(rows, other, 0)[q]|
    ensures rows[q][k] == words[Boundary(rows, q) + k]
    ensures Cut(rows, other, 0)[q][k] == other[Boundary(rows, q) + k]
  {
    assert words[0..|Flatten(rows)|] == Flatten(rows);
    CutOwnWords(rows, words, 0);
    CutAt(rows, words, 0, q);
    CutAt(rows, other, 0, q);
  }

  lemma BoundaryBelowTotal(rows: seq<seq<string>>, q: nat)
    requires q <= |rows|
    ensures Boundary(rows, q) + |Flatten(rows[q..])| == |Flatten(rows)|
  {
    FlattenAppend(rows[..q], rows[q..]);
    assert rows[..q] + rows[q..] == rows;
  }

  lemma {:induction false} FlattenAppend(a: seq<seq<string>>, b: seq<seq<string>>)
    ensures Flatten(a + b) == Flatten(a) + Flatten(b)
    decreases |a|
  {
    if a == [] {
      assert a + b == b;
    } else {
      assert (a + b)[0] == a[0] && (a + b)[1..] == a[1..] + b;
      FlattenAppend(a[1..], b);
    }
  }

  /** Past the end of the words, or with no words at all, nothing is kept. */
  lemma {:induction false} NothingKeptPastEnd(rows: seq<seq<string>>, words: seq<string>, start: nat)
    requires words == [] || start > |words|
    ensures CompleteSlices(rows, words, start) == []
    decreases |rows|
  {
    if rows != [] {
      NothingKeptPastEnd(rows[1..], words, start + |rows[0]|);
    }
  }

  /** The kept slices are the first k slices of the full cut, for some k;
      when a row gets none, its slice ran past the end of the words (or
      there were none), and so does every later one. */
  lemma {:induction false} CompleteSlicesArePrefix(rows: seq<seq<string>>, words: seq<string>, start: nat)
    requires start <= |words|
    ensures var k := |CompleteSlices(rows, words, start)|;
      && k <= |rows|
      && start + |Flatten(rows[..k])| <= |words|
      && CompleteSlices(rows, words, start) == Cut(rows[..k], words, start)
      && (k < |rows| ==> words == [] || start + |Flatten(rows[..k + 1])| > |words|)
    decreases |rows|
  {
    var c := CompleteSlices(rows, words, start);
    if rows == [] {
      assert rows[..0] == [];
    } else {
      var end := start + |rows[0]|;
      if words != [] && end <= |words| {
        CompleteSlicesArePrefix(rows[1..], words, end);
        var k := |CompleteSlices(rows[1..], words, end)|;
        assert |c| == k + 1;
        assert rows[..k + 1][1..] == rows[1..][..k] && rows[..k + 1][0] == rows[0];
        if k + 1 < |rows| {
          assert rows[..k + 2][1..] == rows[1..][..k + 1] && rows[..k + 2][0] == rows[0];
        }
      } else {
        NothingKeptPastEnd(rows[1..], words, end);
        assert c == [];
        assert rows[..0] == [];
        assert rows[..1] == [rows[0]];
        assert Flatten(rows[..1]) == rows[0] + Flatten(rows[..1][1..]);
      }
    }
  }

  /** The secondary-language rows of a table: the kept slices line up with
      the first k source rows word for word, so a kept row has exactly the
      words under the source row of the same index. */
  lemma KeptSliceAt(rows: seq<seq<string>>, words: seq<string>, q: nat)
    requires q < |CompleteSlices(rows, words, 0)|
    ensures q < |rows| && Boundary(rows, q) + |rows[q]| <= |words|
    ensures CompleteSlices(rows, words, 0)[q] == words[Boundary(rows, q)..Boundary(rows, q) + |rows[q]|]
  {
    CompleteSlicesArePrefix(rows, words, 0);
    var k := |CompleteSlices(rows, words, 0)|;
    var p := rows[..k];
    CutAt(p, words, 0, q);
    assert p[..q] == rows[..q] && p[q] == rows[q];
  }

  /** With no secondary-language words, no secondary-language rows. */
  lemma NoWordsNoSlices(rows: seq<seq<string>>)
    ensures CompleteSlices(rows, [], 0) == []
  {
    NothingKeptPastEnd(rows, [], 0);
  }
}
