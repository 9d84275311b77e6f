/** `create_safe_filename` of the PDF downloader: the file name a downloaded document is
    saved under, built from its running number, its document type and its title. */
module Downloader {
  import opened Seqs
  import opened Strings

  /** Python's `str.isalnum` on ASCII and Latin-1: decimal digits, letters, the letter-like
      Latin-1 signs ª, µ, º and the numeric signs ², ³, ¹, ¼, ½, ¾. */
  predicate IsAlnum(c: char)
  {
    ('0' <= c <= '9') || ('A' <= c <= 'Z') || ('a' <= c <= 'z') ||
    c == '\U{AA}' || c == '\U{B2}' || c == '\U{B3}' || c == '\U{B5}' || c == '\U{B9}' ||
    c == '\U{BA}' || ('\U{BC}' <= c <= '\U{BE}') || ('\U{C0}' <= c <= '\U{D6}') ||
    ('\U{D8}' <= c <= '\U{F6}') || ('\U{F8}' <= c <= '\U{FF}')
  }

  /** The characters a title keeps. */
  predicate TitleChar(c: char)
  {
    IsAlnum(c) || c == ' ' || c == '-' || c == '_'
  }

  /** The longest title kept, in characters. */
  const MaxTitleLength: nat := 40

  /** The title with every other character dropped, stripped, then cut to 40 characters. */
  function SafeTitle(title: string): (r: string)
    ensures |r| <= MaxTitleLength
    ensures forall k :: 0 <= k < |r| ==> TitleChar(r[k]) && r[k] in title
    ensures r != [] ==> r[0] != ' '
  {
    var kept := Filter(title, TitleChar);
    var s := Strip(kept);
    assert forall k :: 0 <= k < |s| ==> s[k] in kept;
    if |s| <= MaxTitleLength then s else s[..MaxTitleLength]
  }

  /** `r` is the run of at most 40 characters of `kept` that starts after its leading
      spaces. When `r` is shorter than 40 characters, only spaces follow it in `kept` and it
      ends in a non-space. A non-empty `r` is not followed by spaces alone from its last
      character on, so stripping would not have shortened it. */
  predicate TitleRun(kept: string, r: string)
  {
    var i := LeadingSpaces(kept);
    |r| <= MaxTitleLength &&
    i + |r| <= |kept| && r == kept[i..i + |r|] &&
    (forall k :: 0 <= k < i ==> kept[k] == ' ') &&
    (|r| < MaxTitleLength ==>
       (forall k :: i + |r| <= k < |kept| ==> kept[k] == ' ') &&
       (r != [] ==> r[|r| - 1] != ' ')) &&
    (r != [] ==> exists k :: i + |r| - 1 <= k < |kept| && kept[k] != ' ')
  }

  /** Of its allowed characters the title keeps the contiguous run that starts after the
      leading spaces, cut to 40 characters. */
  lemma SafeTitleIsRun(title: string)
    ensures TitleRun(Filter(title, TitleChar), SafeTitle(title))
  {
    KeptIsPlain(title);
    CutRun(Filter(title, TitleChar), SafeTitle(title));
  }

  /** The allowed characters of a title hold no whitespace other than the space. */
  lemma KeptIsPlain(title: string)
    ensures OnlyPlainSpaces(Filter(title, TitleChar))
  {
    var kept := Filter(title, TitleChar);
    forall k | 0 <= k < |kept| ensures kept[k] == ' ' || !IsSpace(kept[k]) {
      if kept[k] != ' ' { TitleCharNotSpace(kept[k]); }
    }
  }

  /** The only whitespace in `s` is the plain space. */
  predicate OnlyPlainSpaces(s: string)
  {
    forall k :: 0 <= k < |s| ==> s[k] == ' ' || !IsSpace(s[k])
  }

  /** Stripping and cutting to 40 characters a string whose only whitespace is the space
      keeps a run of it. */
  lemma CutRun(kept: string, r: string)
    requires OnlyPlainSpaces(kept)
    requires r == if |Strip(kept)| <= MaxTitleLength then Strip(kept)
                  else Strip(kept)[..MaxTitleLength]
    ensures TitleRun(kept, r)
  {
    var i := LeadingSpaces(kept);
    var t := Strip(kept);
    assert r == kept[i..i + |r|] by {
      assert t == kept[i..i + |t|];
    }
    assert forall k :: 0 <= k < i ==> kept[k] == ' ' by {
      assert OnlyPlainSpaces(kept);
    }
    if |r| < MaxTitleLength {
      assert r == t;
      assert forall k :: i + |r| <= k < |kept| ==> kept[k] == ' ' by {
        assert OnlyPlainSpaces(kept);
      }
    }
    if r != [] {
      var k := i + |t| - 1;
      assert kept[k] == t[|t| - 1] && !IsSpace(t[|t| - 1]);
    }
  }

  /** The title keeps its characters in their original order. */
  lemma SafeTitleIsSubseq(title: string)
    ensures IsSubseq(SafeTitle(title), title)
  {
    var kept := Filter(title, TitleChar);
    var i := LeadingSpaces(kept);
    var r := SafeTitle(title);
    SafeTitleIsRun(title);
    assert TitleRun(kept, r);
    SliceIsSubseq(kept, i, i + |r|);
    FilterIsSubseq(title, TitleChar);
    SubseqTrans(r, kept, title);
  }

  /** A title that is already clean and short enough is kept as it is. */
  lemma SafeTitleKeepsCleanTitle(title: string)
    requires forall k :: 0 <= k < |title| ==> TitleChar(title[k])
    requires title != [] ==> title[0] != ' ' && title[|title| - 1] != ' '
    requires |title| <= MaxTitleLength
    ensures SafeTitle(title) == title
  {
    FilterKeepsAll(title, TitleChar);
    if title != [] {
      TitleCharNotSpace(title[0]);
      TitleCharNotSpace(title[|title| - 1]);
    }
    StripKeepsTrimmed(title);
  }

  /** The only whitespace a title keeps is the plain space. */
  lemma TitleCharNotSpace(c: char)
    requires TitleChar(c) && c != ' '
    ensures !IsSpace(c)
  {
    if c <= '\U{7F}' {
      assert IsAlnum(c) || c == '-' || c == '_';
    } else {
      assert '\U{AA}' <= c <= '\U{FF}';
    }
  }

  /** The document type with ` & ` turned into `_`, then every space into `_`, then every
      remaining `&` into `and`. */
  function SafeDocType(docType: string): (r: string)
    ensures ' ' !in r && '&' !in r
  {
    var a := Replace(docType, " & ", "_");
    var b := Replace(a, " ", "_");
    var c := Replace(b, "&", "and");
    ReplaceRemovesChar(a, ' ', "_");
    ReplaceKeepsAbsent(b, "&", "and", ' ');
    ReplaceRemovesChar(b, '&', "and");
    c
  }

  /** `f"{index:02d}_{safe_doc_type}_{safe_title}.pdf"`. */
  function CreateSafeFilename(title: string, docType: string, index: int): (name: string)
    ensures |name| >= 2 + 1 + 1 + 4
  {
    Format02(index) + Middle(title, docType) + ".pdf"
  }

  /** The part between the running number and the extension. */
  function Middle(title: string, docType: string): (m: string)
    ensures |m| >= 2 && m[0] == '_'
  {
    "_" + SafeDocType(docType) + "_" + SafeTitle(title)
  }

  /** The name starts with the two or more digits of the running number, readable back,
      followed by `_`, and it ends in `.pdf`. */
  lemma FilenameIndexRoundTrip(title: string, docType: string, index: int)
    requires index >= 0
    ensures var name := CreateSafeFilename(title, docType, index);
      var n := |Format02(index)|;
      n >= 2 && n < |name| && name[n] == '_' &&
      (forall k :: 0 <= k < n ==> IsDigit(name[k])) &&
      DecimalValue(name[..n]) == index &&
      name[|name| - 4..] == ".pdf"
  {
    var f := Format02(index);
    var m := Middle(title, docType);
    assert (f + m + ".pdf")[..|f|] == f;
    assert (f + m + ".pdf")[|f|] == m[0];
  }

  /** Cleaning the document type adds no character other than `_`, `a`, `n` and `d`. */
  lemma SafeDocTypeKeepsAbsent(docType: string, c: char)
    requires c !in docType && c !in "_and"
    ensures c !in SafeDocType(docType)
  {
    var a := Replace(docType, " & ", "_");
    var b := Replace(a, " ", "_");
    ReplaceKeepsAbsent(docType, " & ", "_", c);
    ReplaceKeepsAbsent(a, " ", "_", c);
    ReplaceKeepsAbsent(b, "&", "and", c);
  }

  /** A title keeps no character outside the allowed set. */
  lemma SafeTitleExcludes(title: string, c: char)
    requires !TitleChar(c)
    ensures c !in SafeTitle(title)
  {
  }

  /** The running number is written with digits and perhaps a minus sign. */
  lemma Format02Excludes(index: int, c: char)
    requires !IsDigit(c) && c != '-'
    ensures c !in Format02(index)
  {
    var f := Format02(index);
    if index >= 0 {
      assert forall k :: 0 <= k < |f| ==> IsDigit(f[k]);
    } else {
      var digits := NatToString(-index);
      assert forall k :: 0 <= k < |digits| ==> IsDigit(digits[k]);
      assert f == "-" + digits;
    }
  }

  /** Neither the title nor the cleaning introduces a path separator: the name holds `/` or
      `\` only when the document type does. */
  lemma FilenameHasNoSeparator(title: string, docType: string, index: int, sep: char)
    requires sep == '/' || sep == '\\'
    requires sep !in docType
    ensures sep !in CreateSafeFilename(title, docType, index)
  {
    assert sep !in SafeDocType(docType) by { SafeDocTypeKeepsAbsent(docType, sep); }
    assert sep !in SafeTitle(title) by { SafeTitleExcludes(title, sep); }
    assert sep !in Format02(index) by { Format02Excludes(index, sep); }
    AbsentFromParts(sep, Format02(index), SafeDocType(docType), SafeTitle(title));
  }

  /** A character outside every part of a name, other than `_` and not in `.pdf`, is
      outside the name. */
  lemma AbsentFromParts(c: char, f: string, d: string, t: string)
    requires c !in f && c !in d && c !in t && c != '_' && c !in ".pdf"
    ensures c !in f + ("_" + d + "_" + t) + ".pdf"
  {
  }

  /** A document type of the form `X & Y` (as "Maps & Atlases"), with no space or `&` in
      either word, becomes `X_Y`. */
  lemma SafeDocTypeOfPair(x: string, y: string)
    requires ' ' !in x && '&' !in x && ' ' !in y && '&' !in y
    ensures SafeDocType(x + " & " + y) == x + "_" + y
  {
    var amp := " & ";
    var tail := amp + y;
    assert x + amp + y == x + tail;
    ReplaceAfterClean(x, tail, amp, "_");
    assert tail[..|amp|] == amp && tail[|amp|..] == y;
    ReplaceAfterClean(y, [], amp, "_");
    assert y + [] == y;
    var clean := x + "_" + y;
    assert Replace(x + amp + y, amp, "_") == clean;
    ReplaceAfterClean(clean, [], " ", "_");
    ReplaceAfterClean(clean, [], "&", "and");
    assert clean + [] == clean;
  }
}
