/** The dataset exporters `export_coco` and `export_yolo`: pages are visited document by
    document, page by page; every stored annotation of a page becomes one COCO record or one
    YOLO line. Rendering the page images and writing the files are left to the caller: each
    page is given by its image size, and each document by its base name, its pages and its
    stored annotations (empty when it has no annotation file). */
module DatasetExport {
  import opened Wrappers
  import opened Annotations
  import opened Labels
  import opened Seqs
  import opened Strings

  /** The size of a rendered page image (`pix.width`, `pix.height`). */
  datatype PageSize = PageSize(width: nat, height: nat)

  datatype DocInput = DocInput(baseName: string, pages: seq<PageSize>, annotations: seq<Annotation>)

  /** One page in export order, with the annotations of its document. */
  datatype PageRef = PageRef(baseName: string, index: nat, size: PageSize, annotations: seq<Annotation>)

  /** The exceptions that end an export: `LABEL_MAP[...]` on a name outside the catalog
      (`KeyError`) and a division by an image size of zero (`ZeroDivisionError`). */
  datatype ExportError = UnknownLabel(name: string) | DivisionByZero

  // ---------------------------------------------------------------- page order

  /** The first `n` pages of a document. */
  function DocPages(d: DocInput, n: nat): (ps: seq<PageRef>)
    requires n <= |d.pages|
    ensures |ps| == n
    ensures forall p :: 0 <= p < n ==> ps[p] == PageRef(d.baseName, p, d.pages[p], d.annotations)
  {
    if n == 0 then []
    else DocPages(d, n - 1) + [PageRef(d.baseName, n - 1, d.pages[n - 1], d.annotations)]
  }

  /** Every page of every document, in the order the exporters visit them. */
  function AllPages(docs: seq<DocInput>): seq<PageRef>
  {
    if docs == [] then []
    else
      var d := docs[|docs| - 1];
      AllPages(docs[..|docs| - 1]) + DocPages(d, |d.pages|)
  }

  lemma {:induction false} AllPagesAppend(a: seq<DocInput>, b: seq<DocInput>)
    ensures AllPages(a + b) == AllPages(a) + AllPages(b)
    decreases |b|
  {
    if b == [] {
      assert a + b == a;
    } else {
      var b' := b[..|b| - 1];
      var last := b[|b| - 1];
      assert (a + b)[..|a + b| - 1] == a + b';
      assert (a + b)[|a + b| - 1] == last;
      assert AllPages(a + b) == AllPages(a + b') + DocPages(last, |last.pages|);
      AllPagesAppend(a, b');
      AppendAssoc(AllPages(a), AllPages(b'), DocPages(last, |last.pages|));
    }
  }

  /** The pages visited before page `p` of document `i` (that page included when
      `p` counts it) are a prefix of the whole visit. */
  lemma AllPagesPrefix(docs: seq<DocInput>, i: nat, p: nat)
    requires i < |docs| && p <= |docs[i].pages|
    ensures var pre := AllPages(docs[..i]) + DocPages(docs[i], p);
      |pre| <= |AllPages(docs)| && AllPages(docs)[..|pre|] == pre
  {
    var d := docs[i];
    assert docs == docs[..i + 1] + docs[i + 1..];
    AllPagesAppend(docs[..i + 1], docs[i + 1..]);
    assert docs[..i + 1][..i] == docs[..i];
    assert AllPages(docs[..i + 1]) == AllPages(docs[..i]) + DocPages(d, |d.pages|);
    assert DocPages(d, |d.pages|)[..p] == DocPages(d, p);
  }

  /** Documents are visited in order and each document's pages in order: page `p` of
      document `k` comes right after all pages of the documents before it. */
  lemma AllPagesAt(docs: seq<DocInput>, k: nat, p: nat)
    requires k < |docs| && p < |docs[k].pages|
    ensures var off := |AllPages(docs[..k])|;
      off + p < |AllPages(docs)| &&
      AllPages(docs)[off + p] == PageRef(docs[k].baseName, p, docs[k].pages[p], docs[k].annotations)
  {
    AllPagesPrefix(docs, k, p + 1);
    var pre := AllPages(docs[..k]) + DocPages(docs[k], p + 1);
    assert AllPages(docs)[|AllPages(docs[..k])| + p] == pre[|AllPages(docs[..k])| + p];
  }

  // ---------------------------------------------------------------- file names

  /** `f"{base_name}_page_{page_idx+1}.jpg"`. */
  function ImageName(base: string, index: nat): string
  {
    base + "_page_" + NatToString(index + 1) + ".jpg"
  }

  /** The label file name: `.jpg` replaced by `.txt` everywhere in the image name. */
  function LabelFileName(base: string, index: nat): string
  {
    Replace(ImageName(base, index), ".jpg", ".txt")
  }

  /** Two pages of one document never share an image name. */
  lemma ImageNamesDistinct(base: string, i: nat, j: nat)
    requires ImageName(base, i) == ImageName(base, j)
    ensures i == j
  {
    var pre := base + "_page_";
    var si, sj := NatToString(i + 1), NatToString(j + 1);
    assert ImageName(base, i) == pre + si + ".jpg";
    assert ImageName(base, j) == pre + sj + ".jpg";
    assert |si| == |sj|;
    assert si == ImageName(base, i)[|pre|..|pre| + |si|];
    assert sj == ImageName(base, j)[|pre|..|pre| + |sj|];
    NatToStringRoundTrip(i + 1);
    NatToStringRoundTrip(j + 1);
  }

  /** When the base name has no dot, only the extension is replaced. */
  lemma LabelFileNameOfPlainBase(base: string, index: nat)
    requires '.' !in base
    ensures LabelFileName(base, index) == base + "_page_" + NatToString(index + 1) + ".txt"
  {
    var s := base + "_page_" + NatToString(index + 1);
    var digits := NatToString(index + 1);
    assert '.' !in s by {
      assert forall k :: 0 <= k < |digits| ==> IsDigit(digits[k]);
    }
    assert ImageName(base, index) == s + ".jpg";
    ReplaceAfterClean(s, ".jpg", ".jpg", ".txt");
    assert ".jpg"[..4] == ".jpg" && ".jpg"[4..] == [];
    assert Replace(".jpg", ".jpg", ".txt") == ".txt" + Replace([], ".jpg", ".txt");
  }

  // ---------------------------------------------------------------- the page's annotations

  function OnPage(index: nat): Annotation -> bool
  {
    (a: Annotation) => a.page == index
  }

  /** The stored annotations whose page number is this page's index, in stored order. */
  function PageAnnotations(pr: PageRef): seq<Annotation>
  {
    Filter(pr.annotations, OnPage(pr.index))
  }

  /** After the annotations `anns[..j + 1]`, what the page has collected so far is a prefix
      of what it collects from all of them. */
  lemma PageFilterPrefix(anns: seq<Annotation>, j: nat, index: nat)
    requires j < |anns|
    ensures var pre := Filter(anns[..j + 1], OnPage(index));
      |pre| <= |Filter(anns, OnPage(index))| && Filter(anns, OnPage(index))[..|pre|] == pre
  {
    assert anns == anns[..j + 1] + anns[j + 1..];
    FilterAppend(anns[..j + 1], anns[j + 1..], OnPage(index));
  }

  // ---------------------------------------------------------------- COCO

  datatype ImageRecord = ImageRecord(id: nat, fileName: string, width: nat, height: nat)
  datatype CocoAnnotation =
    CocoAnnotation(id: nat, imageId: nat, bbox: seq<real>, categoryId: nat, iscrowd: nat)
  datatype Category = Category(id: nat, name: string)
  datatype CocoDataset =
    CocoDataset(images: seq<ImageRecord>, annotations: seq<CocoAnnotation>, categories: seq<Category>)

  /** The first `n` entries of `LABEL_MAP` in its insertion order, the catalog order. */
  function CategoriesUpTo(n: nat): (cs: seq<Category>)
    requires n <= |LabelOptions|
    ensures |cs| == n
    ensures forall k :: 0 <= k < n ==> cs[k].id == k + 1 && cs[k].name == LabelOptions[k]
  {
    if n == 0 then [] else CategoriesUpTo(n - 1) + [Category(n, LabelOptions[n - 1])]
  }

  function Categories(): seq<Category>
  {
    CategoriesUpTo(|LabelOptions|)
  }

  /** One image record per page, numbered from 1 in visiting order. */
  function Images(ps: seq<PageRef>): (imgs: seq<ImageRecord>)
    ensures |imgs| == |ps|
    ensures forall k :: 0 <= k < |ps| ==>
      imgs[k] == ImageRecord(k + 1, ImageName(ps[k].baseName, ps[k].index), ps[k].size.width, ps[k].size.height)
  {
    if ps == [] then []
    else
      var pr := ps[|ps| - 1];
      Images(ps[..|ps| - 1]) + [ImageRecord(|ps|, ImageName(pr.baseName, pr.index), pr.size.width, pr.size.height)]
  }

  /** An annotation together with the id of the image it is exported under. */
  datatype Emitted = Emitted(imageId: nat, ann: Annotation)

  function Tagged(imageId: nat, anns: seq<Annotation>): (es: seq<Emitted>)
    ensures |es| == |anns| && forall k :: 0 <= k < |anns| ==> es[k] == Emitted(imageId, anns[k])
  {
    if anns == [] then [] else Tagged(imageId, anns[..|anns| - 1]) + [Emitted(imageId, anns[|anns| - 1])]
  }

  /** The annotations exported, in order: page by page, each page's own annotations in
      stored order. Each is tagged with its page's image id, and lies on that page. */
  function Emissions(ps: seq<PageRef>): seq<Emitted>
  {
    if ps == [] then []
    else Emissions(ps[..|ps| - 1]) + Tagged(|ps|, PageAnnotations(ps[|ps| - 1]))
  }

  /** Every exported annotation comes from the page its image id names and lies on it. */
  lemma {:induction false} EmissionsSound(ps: seq<PageRef>)
    ensures var es := Emissions(ps);
      forall k :: 0 <= k < |es| ==>
        1 <= es[k].imageId <= |ps| && es[k].ann in ps[es[k].imageId - 1].annotations &&
        es[k].ann.page == ps[es[k].imageId - 1].index
    decreases |ps|
  {
    if ps != [] {
      var front := ps[..|ps| - 1];
      EmissionsSound(front);
      var pr := ps[|ps| - 1];
      var q := PageAnnotations(pr);
      var es := Emissions(ps);
      assert es == Emissions(front) + Tagged(|ps|, q);
      forall k | 0 <= k < |es|
        ensures 1 <= es[k].imageId <= |ps| && es[k].ann in ps[es[k].imageId - 1].annotations &&
                es[k].ann.page == ps[es[k].imageId - 1].index
      {
        if k >= |Emissions(front)| {
          var m := k - |Emissions(front)|;
          assert es[k] == Emitted(|ps|, q[m]);
          assert OnPage(pr.index)(q[m]);
        } else {
          assert es[k] == Emissions(front)[k];
        }
      }
    }
  }

  /** `EmissionsSound` for one exported annotation. */
  lemma EmittedFrom(ps: seq<PageRef>, k: nat)
    requires k < |Emissions(ps)|
    ensures var e := Emissions(ps)[k];
      1 <= e.imageId <= |ps| && e.ann in ps[e.imageId - 1].annotations &&
      e.ann.page == ps[e.imageId - 1].index
  {
    EmissionsSound(ps);
  }

  /** No annotation of a visited page is skipped. */
  lemma {:induction false} EmissionsComplete(ps: seq<PageRef>, k: nat, a: Annotation)
    requires k < |ps| && a in ps[k].annotations && a.page == ps[k].index
    ensures Emitted(k + 1, a) in Emissions(ps)
    decreases |ps|
  {
    var front := ps[..|ps| - 1];
    if k < |ps| - 1 {
      EmissionsComplete(front, k, a);
    } else {
      FilterMembership(ps[k].annotations, OnPage(ps[k].index), a);
      var q := PageAnnotations(ps[k]);
      var i :| 0 <= i < |q| && q[i] == a;
      assert Tagged(|ps|, q)[i] == Emitted(k + 1, a);
    }
  }

  lemma {:induction false} EmissionsPrefix(ps: seq<PageRef>, qs: seq<PageRef>)
    ensures |Emissions(ps)| <= |Emissions(ps + qs)|
    ensures Emissions(ps + qs)[..|Emissions(ps)|] == Emissions(ps)
    decreases |qs|
  {
    if qs == [] {
      assert ps + qs == ps;
    } else {
      var qs' := qs[..|qs| - 1];
      assert (ps + qs)[..|ps + qs| - 1] == ps + qs';
      EmissionsPrefix(ps, qs');
    }
  }

  /** A record: `[x0, y0, w, h]` with the category id of the annotation's label. */
  function CocoRecord(id: nat, e: Emitted, categoryId: nat): (r: CocoAnnotation)
    ensures r.id == id && r.imageId == e.imageId && r.categoryId == categoryId && r.iscrowd == 0
    ensures |r.bbox| == 4 && r.bbox[0] == e.ann.bbox.x0 && r.bbox[1] == e.ann.bbox.y0
    ensures r.bbox[0] + r.bbox[2] == e.ann.bbox.x1 && r.bbox[1] + r.bbox[3] == e.ann.bbox.y1
  {
    var b := e.ann.bbox;
    CocoAnnotation(id, e.imageId, [b.x0, b.y0, b.x1 - b.x0, b.y1 - b.y0], categoryId, 0)
  }

  lemma CocoRecordOfBox(id: nat, imageId: nat, a: Annotation, categoryId: nat)
    ensures var b := a.bbox;
      CocoAnnotation(id, imageId, [b.x0, b.y0, b.x1 - b.x0, b.y1 - b.y0], categoryId, 0) ==
      CocoRecord(id, Emitted(imageId, a), categoryId)
  {
  }

  /** The records for `es`, numbered from 1; the first annotation whose label is outside
      the catalog ends the export. */
  function CocoRecords(es: seq<Emitted>): Result<seq<CocoAnnotation>, ExportError>
  {
    if es == [] then Success([])
    else
      var e := es[|es| - 1];
      match CocoRecords(es[..|es| - 1])
      case Failure(err) => Failure(err)
      case Success(rs) =>
        match LabelId(e.ann.labelName)
        case None => Failure(UnknownLabel(e.ann.labelName))
        case Some(cat) => Success(rs + [CocoRecord(|es|, e, cat)])
  }

  /** Every exported annotation has a label in the catalog. */
  predicate AllKnown(es: seq<Emitted>)
  {
    forall k :: 0 <= k < |es| ==> LabelId(es[k].ann.labelName).Some?
  }

  /** `es[k]` is the first exported annotation whose label is outside the catalog. */
  predicate FirstUnknown(es: seq<Emitted>, k: nat)
  {
    k < |es| && LabelId(es[k].ann.labelName).None? &&
    forall j :: 0 <= j < k ==> LabelId(es[j].ann.labelName).Some?
  }

  /** The records exist exactly when every label is in the catalog; then record k is
      numbered k + 1 and carries annotation k's category; otherwise the error names the first
      label outside the catalog. */
  lemma {:induction false} CocoRecordsSpec(es: seq<Emitted>)
    ensures var r := CocoRecords(es);
      (r.Success? <==> AllKnown(es)) &&
      (r.Success? ==> |r.value| == |es| && forall k :: 0 <= k < |es| ==>
         r.value[k] == CocoRecord(k + 1, es[k], LabelId(es[k].ann.labelName).value)) &&
      (r.Failure? ==> exists k: nat :: FirstUnknown(es, k) && r.error == UnknownLabel(es[k].ann.labelName))
    decreases |es|
  {
    if es != [] {
      var front := es[..|es| - 1];
      var e := es[|es| - 1];
      CocoRecordsSpec(front);
      match CocoRecords(front)
      case Failure(err) =>
        var k: nat :| FirstUnknown(front, k) && err == UnknownLabel(front[k].ann.labelName);
        assert FirstUnknown(es, k);
      case Success(rs) =>
        if LabelId(e.ann.labelName).None? {
          assert FirstUnknown(es, |es| - 1);
        }
    }
  }

  lemma CocoRecordsSnoc(es: seq<Emitted>, e: Emitted, rs: seq<CocoAnnotation>)
    requires CocoRecords(es) == Success(rs)
    ensures LabelId(e.ann.labelName).None? ==>
      CocoRecords(es + [e]) == Failure(UnknownLabel(e.ann.labelName))
    ensures LabelId(e.ann.labelName).Some? ==>
      CocoRecords(es + [e]) == Success(rs + [CocoRecord(|es| + 1, e, LabelId(e.ann.labelName).value)])
  {
    assert (es + [e])[..|es|] == es;
  }

  /** Once the export has failed, later annotations do not change the outcome. */
  lemma {:induction false} CocoRecordsSticks(es: seq<Emitted>, fs: seq<Emitted>)
    requires |es| <= |fs| && fs[..|es|] == es && CocoRecords(es).Failure?
    ensures CocoRecords(fs) == CocoRecords(es)
    decreases |fs|
  {
    if |fs| > |es| {
      var fs' := fs[..|fs| - 1];
      assert fs'[..|es|] == es;
      CocoRecordsSticks(es, fs');
    } else {
      assert fs == fs[..|es|];
    }
  }

  /** What `export_coco` writes to `coco.json`, or the exception that stops it. */
  function CocoExport(docs: seq<DocInput>): (r: Result<CocoDataset, ExportError>)
  {
    var ps := AllPages(docs);
    match CocoRecords(Emissions(ps))
    case Failure(err) => Failure(err)
    case Success(rs) => Success(CocoDataset(Images(ps), rs, Categories()))
  }

  /** The export succeeds exactly when every annotation of a visited page has a catalog
      label; otherwise it reports the first one that does not. */
  lemma CocoExportSucceedsIff(docs: seq<DocInput>)
    ensures CocoExport(docs).Success? <==> AllKnown(Emissions(AllPages(docs)))
    ensures var es := Emissions(AllPages(docs));
      CocoExport(docs).Failure? ==>
        exists k: nat :: FirstUnknown(es, k) && CocoExport(docs).error == UnknownLabel(es[k].ann.labelName)
  {
    var es := Emissions(AllPages(docs));
    CocoRecordsSpec(es);
    match CocoRecords(es)
    case Failure(err) =>
      assert CocoExport(docs) == Failure(err);
    case Success(rs) =>
      assert CocoExport(docs).Success?;
  }

  /** Record `k` of the dataset's annotation records is numbered `k + 1`, points at an
      existing image whose page holds exported annotation `k`, carries that annotation's label
      as its category and gives back its stored box. */
  predicate RecordTraces(images: seq<ImageRecord>, records: seq<CocoAnnotation>, ps: seq<PageRef>,
                         es: seq<Emitted>, k: nat)
  {
    k < |records| && k < |es| &&
    var c := records[k];
    var im := c.imageId;
    var a := es[k].ann;
    c.id == k + 1 && 1 <= im <= |images| && im <= |ps| && images[im - 1].id == im &&
    a in ps[im - 1].annotations && a.page == ps[im - 1].index &&
    1 <= c.categoryId <= |LabelOptions| && LabelOptions[c.categoryId - 1] == a.labelName &&
    |c.bbox| == 4 && c.bbox[0] == a.bbox.x0 && c.bbox[1] == a.bbox.y0 &&
    c.bbox[0] + c.bbox[2] == a.bbox.x1 && c.bbox[1] + c.bbox[3] == a.bbox.y1
  }

  /** In a written dataset image and annotation ids run 1, 2, 3, ...; every annotation
      traces back to the annotation it came from; the categories are the catalog in order
      with ids 1 to 6. */
  lemma CocoExportConsistent(docs: seq<DocInput>)
    requires CocoExport(docs).Success?
    ensures var ds := CocoExport(docs).value; var ps := AllPages(docs);
      var es := Emissions(ps);
      |ds.images| == |ps| && |ds.annotations| == |es| && |ds.categories| == |LabelOptions| &&
      (forall k :: 0 <= k < |ds.images| ==> ds.images[k].id == k + 1) &&
      (forall k :: 0 <= k < |ds.categories| ==>
         ds.categories[k].id == k + 1 && ds.categories[k].name == LabelOptions[k]) &&
      forall k: nat :: k < |ds.annotations| ==> RecordTraces(ds.images, ds.annotations, ps, es, k)
  {
    var ps := AllPages(docs);
    var es := Emissions(ps);
    CocoRecordsSpec(es);
    assert CocoRecords(es).Success?;
    var rs := CocoRecords(es).value;
    assert |rs| == |es|;
    var ds := CocoDataset(Images(ps), rs, Categories());
    assert CocoExport(docs).value == ds;
    forall k: nat | k < |rs|
      ensures RecordTraces(ds.images, ds.annotations, ps, es, k)
    {
      RecordTracesAt(ps, rs, k);
    }
  }

  lemma RecordTracesAt(ps: seq<PageRef>, rs: seq<CocoAnnotation>, k: nat)
    requires k < |rs| == |Emissions(ps)|
    requires var e := Emissions(ps)[k];
      LabelId(e.ann.labelName).Some? &&
      rs[k] == CocoRecord(k + 1, e, LabelId(e.ann.labelName).value)
    ensures RecordTraces(Images(ps), rs, ps, Emissions(ps), k)
  {
    var e := Emissions(ps)[k];
    EmittedFrom(ps, k);
    var cat := LabelId(e.ann.labelName).value;
    var c := rs[k];
    assert c.id == k + 1 && c.imageId == e.imageId && c.categoryId == cat;
    var images := Images(ps);
    assert |images| == |ps| && images[e.imageId - 1].id == e.imageId;
    assert 1 <= cat <= |LabelOptions| && LabelOptions[cat - 1] == e.ann.labelName;
    var im := c.imageId;
    assert e.ann in ps[im - 1].annotations && e.ann.page == ps[im - 1].index;
  }

  /** The `categories` list, from `LABEL_MAP`'s entries in order. */
  method CocoCategories() returns (cats: seq<Category>)
    ensures cats == Categories()
  {
    LabelMapEnumeratesOptions();
    cats := [];
    for k := 0 to |LabelOptions|
      invariant cats == CategoriesUpTo(k)
    {
      var name := LabelOptions[k];
      cats := cats + [Category(LabelMap[name], name)];
    }
  }

  lemma TaggedSnoc(imageId: nat, anns: seq<Annotation>, a: Annotation)
    ensures Tagged(imageId, anns + [a]) == Tagged(imageId, anns) + [Emitted(imageId, a)]
  {
    assert (anns + [a])[..|anns|] == anns;
  }

  /** A failure on a page's first `j + 1` annotations is the failure of the whole page. */
  lemma CocoPageStops(es: seq<Emitted>, imageId: nat, anns: seq<Annotation>, j: nat, index: nat)
    requires j < |anns|
    requires CocoRecords(es + Tagged(imageId, Filter(anns[..j + 1], OnPage(index)))).Failure?
    ensures CocoRecords(es + Tagged(imageId, Filter(anns, OnPage(index)))) ==
            CocoRecords(es + Tagged(imageId, Filter(anns[..j + 1], OnPage(index))))
  {
    PageFilterPrefix(anns, j, index);
    var xs := Filter(anns[..j + 1], OnPage(index));
    var ys := Filter(anns, OnPage(index));
    var pre := es + Tagged(imageId, xs);
    var full := es + Tagged(imageId, ys);
    assert full[..|pre|] == pre;
    CocoRecordsSticks(pre, full);
  }

  /** The body of `export_coco`'s innermost loop for an annotation on the page: one record,
      or the `KeyError` of its label lookup. */
  method CocoStep(a: Annotation, imgId: nat, acc: seq<CocoAnnotation>, annId: nat, ghost before: seq<Emitted>)
    returns (r: Result<seq<CocoAnnotation>, ExportError>)
    requires CocoRecords(before) == Success(acc) && annId == |before| + 1
    ensures r == CocoRecords(before + [Emitted(imgId, a)])
    ensures r.Success? ==> |r.value| == |before| + 1
  {
    CocoRecordsSnoc(before, Emitted(imgId, a), acc);
    CocoRecordsSpec(before);
    var b := a.bbox;
    var w, h := b.x1 - b.x0, b.y1 - b.y0;
    match LabelId(a.labelName)
    case None =>
      r := Failure(UnknownLabel(a.labelName));
    case Some(cat) =>
      CocoRecordOfBox(annId, imgId, a, cat);
      r := Success(acc + [CocoAnnotation(annId, imgId, [b.x0, b.y0, w, h], cat, 0)]);
  }

  /** The loop of `export_coco` over one page's annotations: `recs` are the records so far
      (those of `es`), `annId` the next annotation id. */
  method CocoPage(pr: PageRef, imgId: nat, recs: seq<CocoAnnotation>, annId: nat, ghost es: seq<Emitted>)
    returns (r: Result<seq<CocoAnnotation>, ExportError>)
    requires CocoRecords(es) == Success(recs) && |recs| == |es| && annId == |es| + 1
    ensures r == CocoRecords(es + Tagged(imgId, PageAnnotations(pr)))
    ensures r.Success? ==> |r.value| == |es + Tagged(imgId, PageAnnotations(pr))|
  {
    var anns := pr.annotations;
    var acc := recs;
    var nextId := annId;
    ghost var seen: seq<Annotation> := [];
    assert anns[..0] == [] && es + Tagged(imgId, []) == es;
    for j := 0 to |anns|
      invariant seen == Filter(anns[..j], OnPage(pr.index))
      invariant CocoRecords(es + Tagged(imgId, seen)) == Success(acc)
      invariant nextId == |es + Tagged(imgId, seen)| + 1 && |acc| == nextId - 1
    {
      var a := anns[j];
      assert anns[..j + 1] == anns[..j] + [a];
      FilterSnoc(anns[..j], a, OnPage(pr.index));
      if a.page == pr.index {
        ghost var before := es + Tagged(imgId, seen);
        var res := CocoStep(a, imgId, acc, nextId, before);
        TaggedSnoc(imgId, seen, a);
        AppendAssoc(es, Tagged(imgId, seen), [Emitted(imgId, a)]);
        seen := seen + [a];
        if res.Failure? {
          CocoPageStops(es, imgId, anns, j, pr.index);
          return res;
        }
        acc := res.value;
        nextId := nextId + 1;
      }
    }
    assert anns[..|anns|] == anns;
    r := Success(acc);
  }

  /** Visiting one more page adds its image and its annotations at the end. */
  lemma VisitSnoc(ps: seq<PageRef>, pr: PageRef)
    ensures Emissions(ps + [pr]) == Emissions(ps) + Tagged(|ps| + 1, PageAnnotations(pr))
    ensures Images(ps + [pr]) ==
      Images(ps) + [ImageRecord(|ps| + 1, ImageName(pr.baseName, pr.index), pr.size.width, pr.size.height)]
  {
    var qs := ps + [pr];
    assert qs[..|qs| - 1] == ps && qs[|qs| - 1] == pr && qs != [];
  }

  /** A failure on page `p` of document `i` is the outcome of the whole export. */
  lemma CocoStopsAtPage(docs: seq<DocInput>, i: nat, p: nat)
    requires i < |docs| && p < |docs[i].pages|
    requires CocoRecords(Emissions(AllPages(docs[..i]) + DocPages(docs[i], p + 1))).Failure?
    ensures CocoExport(docs) ==
      Failure(CocoRecords(Emissions(AllPages(docs[..i]) + DocPages(docs[i], p + 1))).error)
  {
    var next := AllPages(docs[..i]) + DocPages(docs[i], p + 1);
    AllPagesPrefix(docs, i, p + 1);
    var all := AllPages(docs);
    PrefixSplit(next, all);
    EmissionsPrefix(next, all[|next|..]);
    CocoRecordsSticks(Emissions(next), Emissions(all));
  }

  /** `export_coco`. */
  method ExportCoco(docs: seq<DocInput>) returns (r: Result<CocoDataset, ExportError>)
    ensures r == CocoExport(docs)
  {
    var cats := CocoCategories();
    var images: seq<ImageRecord> := [];
    var recs: seq<CocoAnnotation> := [];
    var annId := 1;
    var imgId := 1;
    ghost var done: seq<PageRef> := [];
    for i := 0 to |docs|
      invariant done == AllPages(docs[..i])
      invariant images == Images(done) && imgId == |done| + 1
      invariant CocoRecords(Emissions(done)) == Success(recs) && annId == |Emissions(done)| + 1
      invariant |recs| == annId - 1
    {
      var d := docs[i];
      assert docs[..i + 1][..i] == docs[..i];
      for p := 0 to |d.pages|
        invariant done == AllPages(docs[..i]) + DocPages(d, p)
        invariant images == Images(done) && imgId == |done| + 1
        invariant CocoRecords(Emissions(done)) == Success(recs) && annId == |Emissions(done)| + 1
        invariant |recs| == annId - 1
      {
        var pr := PageRef(d.baseName, p, d.pages[p], d.annotations);
        var size := d.pages[p];
        images := images + [ImageRecord(imgId, ImageName(d.baseName, p), size.width, size.height)];
        var res := CocoPage(pr, imgId, recs, annId, Emissions(done));
        ghost var next := done + [pr];
        VisitSnoc(done, pr);
        AppendAssoc(AllPages(docs[..i]), DocPages(d, p), [pr]);
        match res
        case Failure(err) =>
          CocoStopsAtPage(docs, i, p);
          return Failure(err);
        case Success(rs) =>
          recs := rs;
          annId := |recs| + 1;
        done := next;
        imgId := imgId + 1;
      }
    }
    assert docs[..|docs|] == docs;
    r := Success(CocoDataset(images, recs, cats));
  }

  // ---------------------------------------------------------------- YOLO

  /** One line of a label file: class index, then the box's centre and size divided by the
      image size. */
  datatype YoloLine = YoloLine(classId: nat, xCenter: real, yCenter: real, width: real, height: real)
  datatype LabelFile = LabelFile(name: string, lines: seq<YoloLine>)

  /** What an interrupted loop has produced, and the exception that interrupted it. */
  datatype Partial<T> = Partial(done: seq<T>, error: Option<ExportError>)

  /** A line for one annotation; the divisions come before the label lookup. */
  function YoloLineOf(a: Annotation, size: PageSize): (r: Result<YoloLine, ExportError>)
    ensures size.width == 0 || size.height == 0 ==> r == Failure(DivisionByZero)
    ensures size.width > 0 && size.height > 0 ==>
      (r.Failure? <==> a.labelName !in LabelOptions) &&
      (r.Failure? ==> r.error == UnknownLabel(a.labelName))
    ensures r.Success? ==> r.value.classId < |LabelOptions| && LabelOptions[r.value.classId] == a.labelName
    ensures r.Success? ==> LabelId(a.labelName) == Some(r.value.classId + 1)
  {
    if size.width == 0 || size.height == 0 then Failure(DivisionByZero)
    else
      var b := a.bbox;
      var w := b.x1 - b.x0;
      var h := b.y1 - b.y0;
      var xc := b.x0 + w / 2.0;
      var yc := b.y0 + h / 2.0;
      var W := size.width as real;
      var H := size.height as real;
      match LabelId(a.labelName)
      case None => Failure(UnknownLabel(a.labelName))
      case Some(id) => Success(YoloLine(id - 1, xc / W, yc / H, w / W, h / H))
  }

  /** A line gives back the box it was made from. */
  lemma YoloLineRoundTrip(a: Annotation, size: PageSize)
    requires YoloLineOf(a, size).Success?
    ensures var l := YoloLineOf(a, size).value;
      var W := size.width as real; var H := size.height as real;
      (l.xCenter - l.width / 2.0) * W == a.bbox.x0 && (l.xCenter + l.width / 2.0) * W == a.bbox.x1 &&
      (l.yCenter - l.height / 2.0) * H == a.bbox.y0 && (l.yCenter + l.height / 2.0) * H == a.bbox.y1
  {
    var l := YoloLineOf(a, size).value;
    var W := size.width as real;
    var H := size.height as real;
    var b := a.bbox;
    assert l.xCenter * W == b.x0 + (b.x1 - b.x0) / 2.0;
    assert l.width * W == b.x1 - b.x0;
    assert l.yCenter * H == b.y0 + (b.y1 - b.y0) / 2.0;
    assert l.height * H == b.y1 - b.y0;
  }

  /** A normalised box inside the image has all four numbers between 0 and 1. */
  lemma YoloLineInUnitRange(a: Annotation, size: PageSize)
    requires YoloLineOf(a, size).Success?
    requires 0.0 <= a.bbox.x0 <= a.bbox.x1 <= size.width as real
    requires 0.0 <= a.bbox.y0 <= a.bbox.y1 <= size.height as real
    ensures var l := YoloLineOf(a, size).value;
      0.0 <= l.xCenter <= 1.0 && 0.0 <= l.yCenter <= 1.0 &&
      0.0 <= l.width <= 1.0 && 0.0 <= l.height <= 1.0
  {
    var W := size.width as real;
    var H := size.height as real;
    var b := a.bbox;
    UnitFraction(b.x0 + (b.x1 - b.x0) / 2.0, W);
    UnitFraction(b.x1 - b.x0, W);
    UnitFraction(b.y0 + (b.y1 - b.y0) / 2.0, H);
    UnitFraction(b.y1 - b.y0, H);
  }

  lemma UnitFraction(v: real, d: real)
    requires 0.0 <= v <= d && d > 0.0
    ensures 0.0 <= v / d <= 1.0
  {
  }

  /** The lines of one label file: one per annotation of the page, until the first exception. */
  function YoloLines(anns: seq<Annotation>, size: PageSize): Partial<YoloLine>
  {
    if anns == [] then Partial([], None)
    else
      var r := YoloLines(anns[..|anns| - 1], size);
      if r.error.Some? then r
      else
        match YoloLineOf(anns[|anns| - 1], size)
        case Failure(err) => Partial(r.done, Some(err))
        case Success(l) => Partial(r.done + [l], None)
  }

  /** Line k is annotation k's line; without an error every annotation has its line, and
      with one the error is that of the first annotation after the written lines. */
  lemma {:induction false} YoloLinesSpec(anns: seq<Annotation>, size: PageSize)
    ensures var r := YoloLines(anns, size);
      |r.done| <= |anns| &&
      (forall k :: 0 <= k < |r.done| ==> YoloLineOf(anns[k], size) == Success(r.done[k])) &&
      (r.error.None? ==> |r.done| == |anns|) &&
      (r.error.Some? ==> |r.done| < |anns| && YoloLineOf(anns[|r.done|], size) == Failure(r.error.value))
    decreases |anns|
  {
    if anns != [] {
      YoloLinesSpec(anns[..|anns| - 1], size);
    }
  }

  lemma YoloLinesSnoc(anns: seq<Annotation>, a: Annotation, size: PageSize, lines: seq<YoloLine>)
    requires YoloLines(anns, size) == Partial(lines, None)
    ensures YoloLineOf(a, size).Failure? ==>
      YoloLines(anns + [a], size) == Partial(lines, Some(YoloLineOf(a, size).error))
    ensures YoloLineOf(a, size).Success? ==>
      YoloLines(anns + [a], size) == Partial(lines + [YoloLineOf(a, size).value], None)
  {
    assert (anns + [a])[..|anns|] == anns;
  }

  lemma {:induction false} YoloLinesSticks(anns: seq<Annotation>, more: seq<Annotation>, size: PageSize)
    requires |anns| <= |more| && more[..|anns|] == anns && YoloLines(anns, size).error.Some?
    ensures YoloLines(more, size) == YoloLines(anns, size)
    decreases |more|
  {
    if |more| > |anns| {
      var more' := more[..|more| - 1];
      assert more'[..|anns|] == anns;
      YoloLinesSticks(anns, more', size);
    } else {
      assert more == more[..|anns|];
    }
  }

  /** An exception on a page's first `j + 1` annotations ends that page's file. */
  lemma YoloPageStops(anns: seq<Annotation>, j: nat, index: nat, size: PageSize)
    requires j < |anns|
    requires YoloLines(Filter(anns[..j + 1], OnPage(index)), size).error.Some?
    ensures YoloLines(Filter(anns, OnPage(index)), size) ==
            YoloLines(Filter(anns[..j + 1], OnPage(index)), size)
  {
    PageFilterPrefix(anns, j, index);
    YoloLinesSticks(Filter(anns[..j + 1], OnPage(index)), Filter(anns, OnPage(index)), size);
  }

  /** The label files `export_yolo` writes, page by page, and the exception that stopped it,
      if any; the file being written when it stopped keeps the lines before the failure. */
  function YoloRun(ps: seq<PageRef>): Partial<LabelFile>
  {
    if ps == [] then Partial([], None)
    else
      var r := YoloRun(ps[..|ps| - 1]);
      if r.error.Some? then r
      else
        var pr := ps[|ps| - 1];
        var pl := YoloLines(PageAnnotations(pr), pr.size);
        Partial(r.done + [LabelFile(LabelFileName(pr.baseName, pr.index), pl.done)], pl.error)
  }

  /** One file per page up to the one where an exception occurred; every file but that
      one holds all the lines of its page. */
  lemma {:induction false} YoloRunSpec(ps: seq<PageRef>)
    ensures var r := YoloRun(ps);
      |r.done| <= |ps| &&
      (r.error.None? ==> |r.done| == |ps|) &&
      (r.error.Some? ==> |r.done| > 0) &&
      forall k :: 0 <= k < |r.done| ==>
        r.done[k].name == LabelFileName(ps[k].baseName, ps[k].index) &&
        YoloLines(PageAnnotations(ps[k]), ps[k].size) ==
          Partial(r.done[k].lines, if k == |r.done| - 1 then r.error else None)
    decreases |ps|
  {
    if ps != [] {
      YoloRunSpec(ps[..|ps| - 1]);
    }
  }

  lemma YoloRunSnoc(ps: seq<PageRef>, pr: PageRef, files: seq<LabelFile>)
    requires YoloRun(ps) == Partial(files, None)
    ensures var pl := YoloLines(PageAnnotations(pr), pr.size);
      YoloRun(ps + [pr]) ==
        Partial(files + [LabelFile(LabelFileName(pr.baseName, pr.index), pl.done)], pl.error)
  {
    var qs := ps + [pr];
    assert qs[..|qs| - 1] == ps && qs[|qs| - 1] == pr && qs != [];
  }

  lemma {:induction false} YoloRunSticks(ps: seq<PageRef>, more: seq<PageRef>)
    requires |ps| <= |more| && more[..|ps|] == ps && YoloRun(ps).error.Some?
    ensures YoloRun(more) == YoloRun(ps)
    decreases |more|
  {
    if |more| > |ps| {
      var more' := more[..|more| - 1];
      assert more'[..|ps|] == ps;
      YoloRunSticks(ps, more');
    } else {
      assert more == more[..|ps|];
    }
  }

  /** An exception on page `p` of document `i` is the outcome of the whole export. */
  lemma YoloStopsAtPage(docs: seq<DocInput>, i: nat, p: nat)
    requires i < |docs| && p < |docs[i].pages|
    requires YoloRun(AllPages(docs[..i]) + DocPages(docs[i], p + 1)).error.Some?
    ensures YoloExport(docs) == YoloRun(AllPages(docs[..i]) + DocPages(docs[i], p + 1))
  {
    AllPagesPrefix(docs, i, p + 1);
    YoloRunSticks(AllPages(docs[..i]) + DocPages(docs[i], p + 1), AllPages(docs));
  }

  function YoloExport(docs: seq<DocInput>): Partial<LabelFile>
  {
    YoloRun(AllPages(docs))
  }

  /** Without an exception there is one label file per page, and each has one line per
      annotation of its page; every line is that annotation's class and normalised box. */
  lemma YoloExportComplete(docs: seq<DocInput>)
    requires YoloExport(docs).error.None?
    ensures var fs := YoloExport(docs).done; var ps := AllPages(docs);
      |fs| == |ps| &&
      forall k :: 0 <= k < |fs| ==>
        fs[k].name == LabelFileName(ps[k].baseName, ps[k].index) &&
        |fs[k].lines| == |PageAnnotations(ps[k])| &&
        LinesMatch(fs[k].lines, PageAnnotations(ps[k]), ps[k].size)
  {
    var fs := YoloExport(docs).done;
    var ps := AllPages(docs);
    YoloRunSpec(ps);
    forall k | 0 <= k < |fs|
      ensures |fs[k].lines| == |PageAnnotations(ps[k])| && LinesMatch(fs[k].lines, PageAnnotations(ps[k]), ps[k].size)
    {
      CompleteFileMatches(PageAnnotations(ps[k]), ps[k].size, fs[k].lines);
    }
  }

  /** Line m is the conversion of annotation m on a page of that size: its class plus one is
      the label's id, and its centre and size are the box's, normalised. */
  predicate LinesMatch(lines: seq<YoloLine>, anns: seq<Annotation>, size: PageSize)
  {
    |lines| <= |anns| &&
    forall m :: 0 <= m < |lines| ==>
      LabelId(anns[m].labelName) == Some(lines[m].classId + 1) &&
      YoloLineOf(anns[m], size) == Success(lines[m])
  }

  lemma CompleteFileMatches(anns: seq<Annotation>, size: PageSize, lines: seq<YoloLine>)
    requires YoloLines(anns, size) == Partial(lines, None)
    ensures |lines| == |anns| && LinesMatch(lines, anns, size)
  {
    YoloLinesSpec(anns, size);
  }

  /** When the export stops, the file it was writing keeps the lines of the annotations
      before the failing one, and the failure is that annotation's. */
  lemma YoloExportStops(docs: seq<DocInput>)
    requires YoloExport(docs).error.Some?
    ensures var fs := YoloExport(docs).done; var ps := AllPages(docs);
      0 < |fs| <= |ps| &&
      var k := |fs| - 1;
      var q := PageAnnotations(ps[k]);
      |fs[k].lines| < |q| &&
      YoloLineOf(q[|fs[k].lines|], ps[k].size) == Failure(YoloExport(docs).error.value)
  {
    var fs := YoloExport(docs).done;
    var ps := AllPages(docs);
    YoloRunSpec(ps);
    YoloLinesSpec(PageAnnotations(ps[|fs| - 1]), ps[|fs| - 1].size);
  }

  /** The body of `export_yolo`'s innermost loop for an annotation on the page. */
  method YoloStep(a: Annotation, size: PageSize) returns (r: Result<YoloLine, ExportError>)
    ensures r == YoloLineOf(a, size)
  {
    var b := a.bbox;
    var w := b.x1 - b.x0;
    var h := b.y1 - b.y0;
    var xc := b.x0 + w / 2.0;
    var yc := b.y0 + h / 2.0;
    if size.width == 0 || size.height == 0 {
      return Failure(DivisionByZero);
    }
    var normX := xc / size.width as real;
    var normY := yc / size.height as real;
    var normW := w / size.width as real;
    var normH := h / size.height as real;
    match LabelId(a.labelName)
    case None =>
      r := Failure(UnknownLabel(a.labelName));
    case Some(id) =>
      r := Success(YoloLine(id - 1, normX, normY, normW, normH));
  }

  /** One pass of the loop of `export_yolo` over a page's annotations: annotation `j` is
      skipped when it lies on another page, and otherwise its line is appended to `lines`
      (those of the earlier annotations of the page) or its exception stops the page. */
  method YoloVisit(pr: PageRef, j: nat, lines: seq<YoloLine>) returns (next: Partial<YoloLine>)
    requires j < |pr.annotations|
    requires YoloLines(Filter(pr.annotations[..j], OnPage(pr.index)), pr.size) == Partial(lines, None)
    ensures next.error.None? ==>
      next == YoloLines(Filter(pr.annotations[..j + 1], OnPage(pr.index)), pr.size)
    ensures next.error.Some? ==> next == YoloLines(PageAnnotations(pr), pr.size)
  {
    var anns := pr.annotations;
    var a := anns[j];
    ghost var seen := Filter(anns[..j], OnPage(pr.index));
    assert anns[..j + 1] == anns[..j] + [a];
    FilterSnoc(anns[..j], a, OnPage(pr.index));
    if a.page != pr.index {
      assert !OnPage(pr.index)(a);
      assert Filter(anns[..j + 1], OnPage(pr.index)) == seen + [];
      assert seen + [] == seen;
      return Partial(lines, None);
    }
    assert OnPage(pr.index)(a);
    YoloLinesSnoc(seen, a, pr.size, lines);
    var line := YoloStep(a, pr.size);
    if line.Failure? {
      YoloPageStops(anns, j, pr.index, pr.size);
      return Partial(lines, Some(line.error));
    }
    next := Partial(lines + [line.value], None);
  }

  /** The loop of `export_yolo` over one page's annotations: the lines of its label file. */
  method YoloPage(pr: PageRef) returns (lines: seq<YoloLine>, err: Option<ExportError>)
    ensures Partial(lines, err) == YoloLines(PageAnnotations(pr), pr.size)
  {
    var anns := pr.annotations;
    lines := [];
    assert anns[..0] == [];
    for j := 0 to |anns|
      invariant YoloLines(Filter(anns[..j], OnPage(pr.index)), pr.size) == Partial(lines, None)
    {
      var next := YoloVisit(pr, j, lines);
      if next.error.Some? {
        return next.done, next.error;
      }
      lines := next.done;
    }
    assert anns[..|anns|] == anns;
    err := None;
  }

  /** `export_yolo`: the label files written, in order, and the exception that stopped the
      export, if any. */
  method ExportYolo(docs: seq<DocInput>) returns (files: seq<LabelFile>, err: Option<ExportError>)
    ensures Partial(files, err) == YoloExport(docs)
  {
    files := [];
    ghost var done: seq<PageRef> := [];
    for i := 0 to |docs|
      invariant done == AllPages(docs[..i])
      invariant YoloRun(done) == Partial(files, None)
    {
      var d := docs[i];
      assert docs[..i + 1][..i] == docs[..i];
      for p := 0 to |d.pages|
        invariant done == AllPages(docs[..i]) + DocPages(d, p)
        invariant YoloRun(done) == Partial(files, None)
      {
        var pr := PageRef(d.baseName, p, d.pages[p], d.annotations);
        var name := Replace(ImageName(d.baseName, p), ".jpg", ".txt");
        var lines, e := YoloPage(pr);
        YoloRunSnoc(done, pr, files);
        AppendAssoc(AllPages(docs[..i]), DocPages(d, p), [pr]);
        files := files + [LabelFile(name, lines)];
        done := done + [pr];
        if e.Some? {
          YoloStopsAtPage(docs, i, p);
          return files, e;
        }
      }
    }
    assert docs[..|docs|] == docs;
    err := None;
  }
}
