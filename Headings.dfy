/** `auto_detect_headings`: every text span of the current page whose stripped text is
    longer than two characters becomes an annotation, labelled by font size. */
module Headings {
  import opened Annotations
  import opened Labels
  import opened Seqs
  import opened Strings

  /** A span of the page's text layout: its box (document space), font size and text. */
  datatype Span = Span(bbox: Rect, size: real, text: string)

  /** The size thresholds, largest first. */
  function Classify(size: real): (name: string)
    ensures name in LabelOptions
    ensures name != "H3" && name != "H4"
    ensures name == "TITLE" <==> size > 18.0
    ensures name == "BODY" <==> size <= 12.0
    ensures name == "H1" <==> 14.0 < size <= 18.0
    ensures name == "H2" <==> 12.0 < size <= 14.0
  {
    if size > 18.0 then "TITLE"
    else if size > 14.0 then "H1"
    else if size > 12.0 then "H2"
    else "BODY"
  }

  /** A larger font never gets a label further down the catalog. */
  lemma ClassifyMonotone(small: real, large: real)
    requires small <= large
    ensures LabelId(Classify(large)).value <= LabelId(Classify(small)).value
  {
  }

  predicate Qualifies(s: Span)
  {
    |Strip(s.text)| > 2
  }

  function RecordOf(s: Span, page: nat): Annotation
  {
    Annotation(page, s.bbox, Classify(s.size), Strip(s.text))
  }

  /** The `detected` list, built left to right over the spans. */
  function Detect(spans: seq<Span>, page: nat): (rs: seq<Annotation>)
    ensures |rs| <= |spans|
    ensures forall k :: 0 <= k < |rs| ==>
      rs[k].page == page && |rs[k].text| > 2 &&
      rs[k].labelName in LabelOptions && rs[k].labelName != "H3" && rs[k].labelName != "H4"
  {
    if spans == [] then []
    else
      var s := spans[|spans| - 1];
      Detect(spans[..|spans| - 1], page) + (if Qualifies(s) then [RecordOf(s, page)] else [])
  }

  function Records(q: seq<Span>, page: nat): (rs: seq<Annotation>)
    ensures |rs| == |q| && forall k :: 0 <= k < |q| ==> rs[k] == RecordOf(q[k], page)
  {
    if q == [] then [] else Records(q[..|q| - 1], page) + [RecordOf(q[|q| - 1], page)]
  }

  /** Exactly one record per qualifying span, in span order: with `FilterIsSubseq` and
      `FilterMembership` this says no qualifying span is skipped and none is reordered. */
  lemma {:induction false} DetectIsRecordsOfQualifying(spans: seq<Span>, page: nat)
    ensures Detect(spans, page) == Records(Filter(spans, Qualifies), page)
  {
    if spans != [] {
      var front := spans[..|spans| - 1];
      var s := spans[|spans| - 1];
      DetectIsRecordsOfQualifying(front, page);
      var q := Filter(front, Qualifies);
      if Qualifies(s) {
        assert Filter(spans, Qualifies) == q + [s];
        assert (q + [s])[..|q|] == q;
      }
    }
  }

  /** Detecting over two runs of spans is detecting over each in turn. */
  lemma {:induction false} DetectAppend(a: seq<Span>, b: seq<Span>, page: nat)
    ensures Detect(a + b, page) == Detect(a, page) + Detect(b, page)
    decreases |b|
  {
    if b == [] {
      assert a + b == a;
    } else {
      var b' := b[..|b| - 1];
      assert (a + b)[..|a + b| - 1] == a + b';
      assert (a + b)[|a + b| - 1] == b[|b| - 1];
      DetectAppend(a, b', page);
    }
  }
}
