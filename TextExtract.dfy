/** `extract_text_precise`: the text of the characters that fall inside a document-space
    rectangle, rebuilt in reading order. The page's `rawdict` blocks/lines/spans/chars are
    flattened into one sequence of characters with their bounding boxes. */
module TextExtract {
  import opened Annotations
  import opened Seqs
  import opened Strings

  /** One character of the page: its glyph `c` and its bounding box. The extractor reads
      the box's top-left corner as the character's position (`x`, `y`). */
  datatype Glyph = Glyph(c: char, bbox: Rect)
  {
    function X(): real { bbox.x0 }
    function Y(): real { bbox.y0 }
  }

  /** Strict overlap of a character box with the query rectangle, on the raw corners. */
  predicate Overlaps(b: Rect, rect: Rect)
  {
    b.x1 > rect.x0 && b.x0 < rect.x1 && b.y1 > rect.y0 && b.y0 < rect.y1
  }

  /** The characters the first loop collects, in page order. */
  function Kept(chars: seq<Glyph>, rect: Rect): seq<Glyph>
  {
    Filter(chars, (g: Glyph) => Overlaps(g.bbox, rect))
  }

  // ---------------------------------------------------------------- sorting

  /** Python's `round(v)`: to the nearest integer, ties to the even one. */
  function RoundHalfEven(v: real): (n: int)
    ensures Abs(v - n as real) <= 0.5
  {
    var f := v.Floor;
    var d := v - f as real;
    if d < 0.5 then f else if d > 0.5 then f + 1 else if f % 2 == 0 then f else f + 1
  }

  /** First component of the sort key, `round(y, 1)`, counted in tenths. */
  function RowKey(g: Glyph): int
  {
    RoundHalfEven(g.Y() * 10.0)
  }

  /** The sort key `(round(y, 1), x)` compared lexicographically. */
  predicate KeyLe(a: Glyph, b: Glyph)
  {
    RowKey(a) < RowKey(b) || (RowKey(a) == RowKey(b) && a.X() <= b.X())
  }

  ghost predicate Sorted(s: seq<Glyph>)
  {
    forall i, j :: 0 <= i < j < |s| ==> KeyLe(s[i], s[j])
  }

  /** Inserts `g` after every element whose key is at most its own (so equal keys keep
      their order, as Python's stable sort does). */
  function Insert(t: seq<Glyph>, g: Glyph): (r: seq<Glyph>)
    ensures multiset(r) == multiset(t) + multiset{g}
  {
    if t == [] then [g]
    else if !KeyLe(t[|t| - 1], g) then
      assert t == t[..|t| - 1] + [t[|t| - 1]];
      Insert(t[..|t| - 1], g) + [t[|t| - 1]]
    else t + [g]
  }

  /** Inserting into a sorted sequence keeps it sorted. */
  lemma {:induction false} InsertSorted(t: seq<Glyph>, g: Glyph)
    requires Sorted(t)
    ensures Sorted(Insert(t, g))
  {
    if t != [] {
      var last := t[|t| - 1];
      var front := t[..|t| - 1];
      if !KeyLe(last, g) {
        assert Sorted(front);
        InsertSorted(front, g);
        var r' := Insert(front, g);
        forall i | 0 <= i < |r'| ensures KeyLe(r'[i], last) {
          assert r'[i] in multiset(r');
          if r'[i] != g {
            assert r'[i] in multiset(front);
            var k :| 0 <= k < |front| && front[k] == r'[i];
            assert t[k] == front[k];
          }
        }
        assert Insert(t, g) == r' + [last];
        SortedSnoc(r', last);
      } else {
        forall i | 0 <= i < |t| ensures KeyLe(t[i], g) {
          if i < |t| - 1 {
            assert KeyLe(t[i], last);
          }
        }
        SortedSnoc(t, g);
      }
    }
  }

  /** A key at least every key of a sorted sequence can go at its end. */
  lemma SortedSnoc(r: seq<Glyph>, x: Glyph)
    requires Sorted(r)
    requires forall i :: 0 <= i < |r| ==> KeyLe(r[i], x)
    ensures Sorted(r + [x])
  {
    var s := r + [x];
    assert forall i :: 0 <= i < |r| ==> s[i] == r[i];
  }

  /** Equal sort keys. */
  predicate SameKey(a: Glyph, b: Glyph)
  {
    RowKey(a) == RowKey(b) && a.X() == b.X()
  }

  /** The characters of `s` whose sort key equals that of `h`, in their order in `s`. */
  function Ties(s: seq<Glyph>, h: Glyph): seq<Glyph>
  {
    Filter(s, (g: Glyph) => SameKey(g, h))
  }

  lemma TiesSnoc(s: seq<Glyph>, x: Glyph, h: Glyph)
    ensures Ties(s + [x], h) == Ties(s, h) + (if SameKey(x, h) then [x] else [])
  {
    FilterSnoc(s, x, (g: Glyph) => SameKey(g, h));
  }

  /** Insertion puts the new character after every character with the same key. */
  lemma {:induction false} InsertTies(t: seq<Glyph>, g: Glyph, h: Glyph)
    ensures Ties(Insert(t, g), h) == Ties(t, h) + (if SameKey(g, h) then [g] else [])
  {
    if t == [] {
      TiesSnoc([], g, h);
      assert [] + [g] == [g];
    } else {
      var front := t[..|t| - 1];
      var last := t[|t| - 1];
      assert t == front + [last];
      TiesSnoc(front, last, h);
      if !KeyLe(last, g) {
        InsertTies(front, g, h);
        TiesSnoc(Insert(front, g), last, h);
        assert SameKey(g, h) ==> !SameKey(last, h);
      } else {
        TiesSnoc(t, g, h);
      }
    }
  }

  /** `chars.sort(key=lambda c: (round(c["y"], 1), c["x"]))`: a stable insertion sort.
      The result is a sorted permutation in which characters with equal keys keep their
      order. */
  function SortGlyphs(s: seq<Glyph>): (r: seq<Glyph>)
    ensures multiset(r) == multiset(s)
    ensures Sorted(r)
    ensures forall h :: Ties(r, h) == Ties(s, h)
  {
    if s == [] then []
    else
      var front := s[..|s| - 1];
      var last := s[|s| - 1];
      assert s == front + [last];
      var sorted := SortGlyphs(front);
      InsertSorted(sorted, last);
      assert forall h :: Ties(Insert(sorted, last), h) == Ties(s, h) by {
        forall h ensures Ties(Insert(sorted, last), h) == Ties(s, h) {
          InsertTies(sorted, last, h);
          TiesSnoc(front, last, h);
        }
      }
      Insert(sorted, last)
  }

  // ---------------------------------------------------------------- duplicates

  /** Same glyph, less than 1.5 apart on both axes: a duplicate-layer artefact. */
  predicate Twin(last: Glyph, g: Glyph)
  {
    last.c == g.c && Abs(g.X() - last.X()) < 1.5 && Abs(g.Y() - last.Y()) < 1.5
  }

  ghost predicate NoAdjacentTwins(s: seq<Glyph>)
  {
    forall i :: 0 <= i < |s| - 1 ==> !Twin(s[i], s[i + 1])
  }

  /** The deduplicating loop: a character is dropped when it is a twin of the last one kept. */
  function Dedup(s: seq<Glyph>): (r: seq<Glyph>)
    ensures IsSubseq(r, s)
    ensures r == [] <==> s == []
    ensures NoAdjacentTwins(r)
  {
    if s == [] then []
    else
      var d := Dedup(s[..|s| - 1]);
      var g := s[|s| - 1];
      if d != [] && Twin(d[|d| - 1], g) then d
      else
        assert (d + [g])[..|d|] == d;
        d + [g]
  }

  /** Deduplication drops nothing from a sequence without adjacent twins. */
  lemma {:induction false} DedupKeepsTwinFree(s: seq<Glyph>)
    requires NoAdjacentTwins(s)
    ensures Dedup(s) == s
  {
    if s != [] {
      var front := s[..|s| - 1];
      assert NoAdjacentTwins(front) by {
        forall i | 0 <= i < |front| - 1 ensures !Twin(front[i], front[i + 1]) {
          assert front[i] == s[i] && front[i + 1] == s[i + 1];
        }
      }
      DedupKeepsTwinFree(front);
      if |s| >= 2 {
        assert !Twin(s[|s| - 2], s[|s| - 1]);
      }
      assert front + [s[|s| - 1]] == s;
    }
  }

  /** A character is dropped only as a twin of the last character kept before it, and
      otherwise it takes the next place of the result; the first character is always kept. */
  lemma {:induction false} DedupDropsOnlyTwins(s: seq<Glyph>)
    ensures s != [] ==> Dedup(s)[0] == s[0]
    ensures forall g :: g in s && g !in Dedup(s) ==>
      exists j :: 0 <= j < |Dedup(s)| && Twin(Dedup(s)[j], g)
    ensures forall i :: 0 <= i < |s| ==> DropRule(s, i)
  {
    forall i | 0 <= i < |s| ensures DropRule(s, i) {
      DedupDropRuleAt(s, i);
    }
    if s != [] {
      var front := s[..|s| - 1];
      var last := s[|s| - 1];
      var d := Dedup(front);
      DedupDropsOnlyTwins(front);
      var r := Dedup(s);
      assert d == [] ==> r == [last];
      assert |d| <= |r| && r[..|d|] == d;
      forall g | g in s && g !in r
        ensures exists j :: 0 <= j < |r| && Twin(r[j], g)
      {
        if g == last && r == d {
          assert Twin(r[|d| - 1], g);
        } else {
          assert g in front by {
            assert s == front + [last];
          }
          assert g !in d;
          var j :| 0 <= j < |d| && Twin(d[j], g);
          assert r[j] == d[j];
        }
      }
    }
  }

  /** Deduplicating a prefix gives a prefix of the result. */
  lemma {:induction false} DedupPrefix(s: seq<Glyph>, j: nat)
    requires j <= |s|
    ensures |Dedup(s[..j])| <= |Dedup(s)| && Dedup(s)[..|Dedup(s[..j])|] == Dedup(s[..j])
  {
    if j == |s| {
      assert s[..j] == s;
    } else {
      var front := s[..|s| - 1];
      assert s[..j] == front[..j];
      DedupPrefix(front, j);
      var d := Dedup(front);
      assert |d| <= |Dedup(s)| && Dedup(s)[..|d|] == d;
    }
  }

  /** The fate of `s[i]`: with `d` the characters kept before it, either `s[i]` is a twin
      of the last of them and is dropped, or it is the next character of the result. */
  predicate DropRule(s: seq<Glyph>, i: nat)
    requires i < |s|
  {
    var d := Dedup(s[..i]);
    var r := Dedup(s);
    |d| <= |r| && r[..|d|] == d &&
    if d != [] && Twin(d[|d| - 1], s[i]) then Dedup(s[..i + 1]) == d
    else |d| < |r| && r[|d|] == s[i]
  }

  lemma DedupDropRuleAt(s: seq<Glyph>, i: nat)
    requires i < |s|
    ensures DropRule(s, i)
  {
    assert s[..i + 1][..i] == s[..i];
    DedupPrefix(s, i);
    DedupPrefix(s, i + 1);
  }

  /** A subsequence of a sorted sequence is sorted. */
  lemma {:induction false} SubseqOfSorted(a: seq<Glyph>, b: seq<Glyph>)
    requires IsSubseq(a, b) && Sorted(b)
    ensures Sorted(a)
    decreases |b|
  {
    if a != [] {
      var b' := b[..|b| - 1];
      assert Sorted(b');
      if IsSubseq(a, b') {
        SubseqOfSorted(a, b');
      } else {
        var a' := a[..|a| - 1];
        SubseqOfSorted(a', b');
        SubseqMembers(a', b');
        forall i | 0 <= i < |a'| ensures KeyLe(a'[i], b[|b| - 1]) {
          assert a'[i] in multiset(b');
          var k :| 0 <= k < |b'| && b'[k] == a'[i];
        }
      }
    }
  }

  // ---------------------------------------------------------------- lines

  ghost predicate LineStartSplit(lines: seq<seq<Glyph>>)
  {
    (forall i :: 0 <= i < |lines| ==> lines[i] != []) &&
    // every character of a line lies within 3 of the line's anchor (its first character)
    (forall i, k :: 0 <= i < |lines| && 0 <= k < |lines[i]| ==>
       Abs(lines[i][k].Y() - lines[i][0].Y()) <= 3.0) &&
    // every line after the first starts more than 3 away from the previous anchor
    (forall i :: 0 <= i < |lines| - 1 ==> Abs(lines[i + 1][0].Y() - lines[i][0].Y()) > 3.0)
  }

  /** One step of the line-grouping loop: a character more than 3 away from the current
      line's anchor y (the y of the line's first character) starts a new line; otherwise
      it joins the current line. */
  function AddGlyph(ls: seq<seq<Glyph>>, g: Glyph): (r: seq<seq<Glyph>>)
    requires ls == [] || ls[|ls| - 1] != []
    ensures r != [] && r[|r| - 1] != []
  {
    if ls == [] then [[g]]
    else if Abs(g.Y() - ls[|ls| - 1][0].Y()) > 3.0 then ls + [[g]]
    else ls[..|ls| - 1] + [ls[|ls| - 1] + [g]]
  }

  /** The line-grouping loop over all characters. */
  function Group(s: seq<Glyph>): (lines: seq<seq<Glyph>>)
    ensures lines == [] <==> s == []
    ensures lines == [] || lines[|lines| - 1] != []
  {
    if s == [] then [] else AddGlyph(Group(s[..|s| - 1]), s[|s| - 1])
  }

  /** Adding a character to the lines adds it to the end of their concatenation. */
  lemma FlattenAddGlyph(ls: seq<seq<Glyph>>, g: Glyph)
    requires ls == [] || ls[|ls| - 1] != []
    ensures Flatten(AddGlyph(ls, g)) == Flatten(ls) + [g]
  {
    if ls == [] || Abs(g.Y() - ls[|ls| - 1][0].Y()) > 3.0 {
      assert AddGlyph(ls, g) == ls + [[g]];
      FlattenSnoc(ls, [g]);
    } else {
      var cur := ls[|ls| - 1];
      var before := ls[..|ls| - 1];
      assert AddGlyph(ls, g) == before + [cur + [g]];
      FlattenLast(ls);
      FlattenSnoc(before, cur + [g]);
      AppendAssoc(Flatten(before), cur, [g]);
    }
  }

  /** Read end to end, the lines are exactly the input characters, in order. */
  lemma {:induction false} GroupFlattens(s: seq<Glyph>)
    ensures Flatten(Group(s)) == s
  {
    if s != [] {
      var front := s[..|s| - 1];
      GroupFlattens(front);
      FlattenAddGlyph(Group(front), s[|s| - 1]);
      assert s == front + [s[|s| - 1]];
    }
  }

  /** Adding a character keeps the lines well formed. */
  lemma AddGlyphSplits(ls: seq<seq<Glyph>>, g: Glyph)
    requires LineStartSplit(ls)
    ensures LineStartSplit(AddGlyph(ls, g))
  {
    if ls == [] {
      assert AddGlyph(ls, g) == [[g]];
    } else if Abs(g.Y() - ls[|ls| - 1][0].Y()) > 3.0 {
      SnocLine(ls, [g]);
    } else {
      ExtendLine(ls, g);
    }
  }

  /** The lines are non-empty, every character lies within 3 of its line's anchor, and each
      line after the first is anchored more than 3 away from the previous anchor. */
  lemma {:induction false} GroupSplitsAtGaps(s: seq<Glyph>)
    ensures LineStartSplit(Group(s))
  {
    if s != [] {
      GroupSplitsAtGaps(s[..|s| - 1]);
      AddGlyphSplits(Group(s[..|s| - 1]), s[|s| - 1]);
    }
  }

  /** Adding a character close to the last line's anchor to that line keeps the lines
      well formed. */
  lemma ExtendLine(ls: seq<seq<Glyph>>, g: Glyph)
    requires LineStartSplit(ls) && ls != []
    requires Abs(g.Y() - ls[|ls| - 1][0].Y()) <= 3.0
    ensures LineStartSplit(ls[..|ls| - 1] + [ls[|ls| - 1] + [g]])
  {
    var before := ls[..|ls| - 1];
    var line := ls[|ls| - 1] + [g];
    assert LineStartSplit(before);
    assert forall k :: 0 <= k < |line| ==> Abs(line[k].Y() - line[0].Y()) <= 3.0;
    assert |before| > 0 ==> Abs(line[0].Y() - before[|before| - 1][0].Y()) > 3.0;
    SnocLine(before, line);
  }

  /** Adding a well-formed line after well-formed lines keeps them well formed. */
  lemma SnocLine(ls: seq<seq<Glyph>>, line: seq<Glyph>)
    requires LineStartSplit(ls)
    requires line != [] && forall k :: 0 <= k < |line| ==> Abs(line[k].Y() - line[0].Y()) <= 3.0
    requires ls != [] ==> Abs(line[0].Y() - ls[|ls| - 1][0].Y()) > 3.0
    ensures LineStartSplit(ls + [line])
  {
    var r := ls + [line];
    assert forall i :: 0 <= i < |ls| ==> r[i] == ls[i];
    assert r[|ls|] == line;
    forall i | 0 <= i < |r| ensures r[i] != [] {
      if i < |ls| { assert ls[i] != []; }
    }
    forall i, k | 0 <= i < |r| && 0 <= k < |r[i]| ensures Abs(r[i][k].Y() - r[i][0].Y()) <= 3.0 {
      if i < |ls| { assert r[i][k] == ls[i][k]; }
    }
    forall i | 0 <= i < |r| - 1 ensures Abs(r[i + 1][0].Y() - r[i][0].Y()) > 3.0 {
      if i < |ls| - 1 { assert r[i + 1] == ls[i + 1]; }
    }
  }

  /** `"".join(ch["char"] for ch in line)`. */
  function LineText(line: seq<Glyph>): (t: string)
    ensures |t| == |line| && forall k :: 0 <= k < |line| ==> t[k] == line[k].c
  {
    if line == [] then "" else LineText(line[..|line| - 1]) + [line[|line| - 1].c]
  }

  function LineTexts(lines: seq<seq<Glyph>>): (ts: seq<string>)
    ensures |ts| == |lines| && forall i :: 0 <= i < |lines| ==> ts[i] == LineText(lines[i])
  {
    if lines == [] then [] else LineTexts(lines[..|lines| - 1]) + [LineText(lines[|lines| - 1])]
  }

  // ---------------------------------------------------------------- the whole extractor

  /** The lines the extractor builds for `rect`: collect, sort, deduplicate, group. */
  function ExtractedLines(chars: seq<Glyph>, rect: Rect): seq<seq<Glyph>>
  {
    Group(Dedup(SortGlyphs(Kept(chars, rect))))
  }

  /** What `extract_text_precise(page, rect)` returns. */
  function ExtractedText(chars: seq<Glyph>, rect: Rect): string
  {
    if Kept(chars, rect) == [] then ""
    else Strip(Join(LineTexts(ExtractedLines(chars, rect)), "\n"))
  }

  /** With no character strictly overlapping the rectangle the result is empty. */
  lemma NoOverlapGivesEmpty(chars: seq<Glyph>, rect: Rect)
    requires forall k :: 0 <= k < |chars| ==> !Overlaps(chars[k].bbox, rect)
    ensures ExtractedText(chars, rect) == ""
  {
    if Kept(chars, rect) != [] {
      var g := Kept(chars, rect)[0];
      FilterMembership(chars, (g: Glyph) => Overlaps(g.bbox, rect), g);
    }
  }

  /** The lines neither invent nor reorder characters: read end to end they are the sorted
      overlapping characters with some duplicates removed, each one a page character that
      overlaps the rectangle, in `(round(y, 1), x)` order, and no two neighbours are twins. */
  lemma ExtractedLinesSound(chars: seq<Glyph>, rect: Rect)
    ensures var flat := Flatten(ExtractedLines(chars, rect));
      IsSubseq(flat, SortGlyphs(Kept(chars, rect))) &&
      Sorted(flat) && NoAdjacentTwins(flat) &&
      forall g :: g in flat ==> g in chars && Overlaps(g.bbox, rect)
  {
    var sorted := SortGlyphs(Kept(chars, rect));
    var flat := Dedup(sorted);
    GroupFlattens(flat);
    SubseqOfSorted(flat, sorted);
    SubseqMembers(flat, sorted);
    forall g | g in flat ensures g in chars && Overlaps(g.bbox, rect) {
      assert g in multiset(sorted);
      assert g in multiset(Kept(chars, rect));
      FilterMembership(chars, (g: Glyph) => Overlaps(g.bbox, rect), g);
    }
  }

  /** No overlapping character is lost: each one is in the lines, or it is a twin of a
      character that is. More precisely, it holds some place `i` of the sorted characters,
      the lines read end to end are their deduplication, and `DropRule` says that the
      character is dropped only as a twin of the last character kept before it. */
  lemma ExtractedLinesComplete(chars: seq<Glyph>, rect: Rect, g: Glyph)
    requires g in chars && Overlaps(g.bbox, rect)
    ensures var flat := Flatten(ExtractedLines(chars, rect));
      g in flat || exists j :: 0 <= j < |flat| && Twin(flat[j], g)
    ensures var sorted := SortGlyphs(Kept(chars, rect));
      Flatten(ExtractedLines(chars, rect)) == Dedup(sorted) &&
      exists i :: 0 <= i < |sorted| && sorted[i] == g && DropRule(sorted, i)
  {
    var kept := Kept(chars, rect);
    var sorted := SortGlyphs(kept);
    var flat := Dedup(sorted);
    assert g in kept by { FilterMembership(chars, (g: Glyph) => Overlaps(g.bbox, rect), g); }
    assert g in multiset(sorted);
    GroupFlattens(flat);
    DedupDropsOnlyTwins(sorted);
    var i :| 0 <= i < |sorted| && sorted[i] == g;
    assert DropRule(sorted, i);
  }

  // ---------------------------------------------------------------- the method

  /** The collecting loop over the page's characters. */
  method CollectOverlapping(chars: seq<Glyph>, rect: Rect) returns (kept: seq<Glyph>)
    ensures kept == Kept(chars, rect)
  {
    kept := [];
    for i := 0 to |chars|
      invariant kept == Kept(chars[..i], rect)
    {
      assert chars[..i + 1][..i] == chars[..i];
      if Overlaps(chars[i].bbox, rect) {
        kept := kept + [chars[i]];
      }
    }
    assert chars[..|chars|] == chars;
  }

  /** The deduplicating loop, with `last_x`, `last_y`, `last_char` read off the last kept
      character. */
  method DropTwins(sorted: seq<Glyph>) returns (filtered: seq<Glyph>)
    ensures filtered == Dedup(sorted)
  {
    filtered := [];
    for i := 0 to |sorted|
      invariant filtered == Dedup(sorted[..i])
    {
      assert sorted[..i + 1][..i] == sorted[..i];
      var g := sorted[i];
      if filtered != [] && Twin(filtered[|filtered| - 1], g) {
        continue;
      }
      filtered := filtered + [g];
    }
    assert sorted[..|sorted|] == sorted;
  }

  /** Grouping one more character is one more step. */
  lemma GroupSnoc(s: seq<Glyph>, g: Glyph)
    ensures Group(s + [g]) == AddGlyph(Group(s), g)
  {
    assert (s + [g])[..|s|] == s;
  }

  lemma LineTextsSnoc(ls: seq<seq<Glyph>>, line: seq<Glyph>)
    ensures LineTexts(ls + [line]) == LineTexts(ls) + [LineText(line)]
  {
    assert (ls + [line])[..|ls|] == ls;
  }

  /** The line-grouping loop with its running `current_line` and `current_y`. */
  method GroupIntoLines(filtered: seq<Glyph>) returns (lines: seq<string>)
    requires filtered != []
    ensures lines == LineTexts(Group(filtered))
  {
    lines := [];
    var currentLine: seq<Glyph> := [];
    var currentY := filtered[0].Y();
    ghost var done: seq<seq<Glyph>> := [];   // the finished lines
    for i := 0 to |filtered|
      invariant i == 0 ==> currentLine == [] && done == [] && currentY == filtered[0].Y()
      invariant i > 0 ==> currentLine != [] && currentY == currentLine[0].Y()
      invariant i > 0 ==> Group(filtered[..i]) == done + [currentLine]
      invariant lines == LineTexts(done)
    {
      var g := filtered[i];
      assert filtered[..i + 1] == filtered[..i] + [g];
      GroupSnoc(filtered[..i], g);
      if Abs(g.Y() - currentY) > 3.0 {
        LineTextsSnoc(done, currentLine);
        lines := lines + [LineText(currentLine)];
        done := done + [currentLine];
        currentLine := [g];
        currentY := g.Y();
      } else {
        assert i == 0 ==> filtered[..i] == [];
        currentLine := currentLine + [g];
      }
    }
    assert filtered[..|filtered|] == filtered;
    LineTextsSnoc(done, currentLine);
    lines := lines + [LineText(currentLine)];
  }

  method ExtractTextPrecise(chars: seq<Glyph>, rect: Rect) returns (text: string)
    ensures text == ExtractedText(chars, rect)
  {
    var kept := CollectOverlapping(chars, rect);
    if kept == [] {
      return "";
    }
    var sorted := SortGlyphs(kept);
    var filtered := DropTwins(sorted);
    var lines := GroupIntoLines(filtered);
    text := Strip(Join(lines, "\n"));
  }
}
