/** The box-edit state machine of `PDFAnnotationApp`: one open document's annotation list,
    the current page and zoom, and the pointer handlers that draw, select, move, resize and
    delete boxes. Pointer events arrive as method calls carrying pixel coordinates. */
module Editor {
  import opened Wrappers
  import opened Annotations
  import opened Labels
  import Headings
  import TextExtract
  import Strings

  /** `HANDLE_SIZE`: how close (in pixels, on each axis) a press must be to grab a handle. */
  const HandleSize: real := 8.0
  /** The smallest zoom `change_zoom` allows. */
  const MinZoom: real := 0.5
  /** A drawn box is kept only when both sides exceed this many pixels. */
  const MinBoxSize: real := 10.0
  const InitialZoom: real := 1.5

  datatype Point = Point(x: real, y: real)

  // ---------------------------------------------------------------- hit testing

  /** The handle positions of a pixel rectangle, in index order: top-left, top-right,
      bottom-left, bottom-right, top-middle, bottom-middle, left-middle, right-middle. */
  function HandlePositions(r: Rect): (hs: seq<Point>)
    ensures |hs| == 8
  {
    var mx := (r.x0 + r.x1) / 2.0;
    var my := (r.y0 + r.y1) / 2.0;
    [Point(r.x0, r.y0), Point(r.x1, r.y0), Point(r.x0, r.y1), Point(r.x1, r.y1),
     Point(mx, r.y0), Point(mx, r.y1), Point(r.x0, my), Point(r.x1, my)]
  }

  predicate NearHandle(h: Point, x: real, y: real)
  {
    Abs(x - h.x) <= HandleSize && Abs(y - h.y) <= HandleSize
  }

  /** The first handle at index `from` or later that the press at (x, y) grabs. */
  function FirstNearHandle(hs: seq<Point>, x: real, y: real, from: nat): (r: Option<nat>)
    requires from <= |hs|
    ensures r.Some? ==> from <= r.value < |hs| && NearHandle(hs[r.value], x, y) &&
                        forall j :: from <= j < r.value ==> !NearHandle(hs[j], x, y)
    ensures r.None? ==> forall j :: from <= j < |hs| ==> !NearHandle(hs[j], x, y)
    decreases |hs| - from
  {
    if from == |hs| then None
    else if NearHandle(hs[from], x, y) then Some(from)
    else FirstNearHandle(hs, x, y, from + 1)
  }

  /** What a press on the selected box's pixel rectangle lands on. */
  datatype PressTarget = OnHandle(handle: nat) | OnBody | Elsewhere

  /** Handles first, in index order; then the body, on the raw corners; otherwise nothing. */
  function PressTargetOf(px: Rect, x: real, y: real): (t: PressTarget)
    ensures t.OnHandle? ==>
      t.handle < 8 && NearHandle(HandlePositions(px)[t.handle], x, y) &&
      forall j :: 0 <= j < t.handle ==> !NearHandle(HandlePositions(px)[j], x, y)
    ensures !t.OnHandle? ==> forall j :: 0 <= j < 8 ==> !NearHandle(HandlePositions(px)[j], x, y)
    ensures t.OnBody? ==> Contains(px, x, y)
    ensures t.Elsewhere? ==> !Contains(px, x, y)
  {
    match FirstNearHandle(HandlePositions(px), x, y, 0)
    case Some(h) => OnHandle(h)
    case None => if Contains(px, x, y) then OnBody else Elsewhere
  }

  /** `select_box`'s test: the box is on the current page and its pixel rectangle holds the point. */
  predicate Hit(a: Annotation, page: nat, zoom: real, x: real, y: real)
  {
    Contains(RectToPixel(a.bbox, zoom), x, y) && a.page == page
  }

  /** The first annotation at index `from` or later that the point hits. */
  function FirstHit(anns: seq<Annotation>, page: nat, zoom: real, x: real, y: real, from: nat)
    : (r: Option<nat>)
    requires from <= |anns|
    ensures r.Some? ==> from <= r.value < |anns| && Hit(anns[r.value], page, zoom, x, y) &&
                        forall j :: from <= j < r.value ==> !Hit(anns[j], page, zoom, x, y)
    ensures r.None? ==> forall j :: from <= j < |anns| ==> !Hit(anns[j], page, zoom, x, y)
    decreases |anns| - from
  {
    if from == |anns| then None
    else if Hit(anns[from], page, zoom, x, y) then Some(from)
    else FirstHit(anns, page, zoom, x, y, from + 1)
  }

  // ---------------------------------------------------------------- list removal

  /** Index of the first element equal to `v`, searching from `from`. */
  function FirstIndexOf(s: seq<Annotation>, v: Annotation, from: nat): (i: nat)
    requires from <= |s| && v in s[from..]
    ensures from <= i < |s| && s[i] == v && forall j :: from <= j < i ==> s[j] != v
    decreases |s| - from
  {
    if s[from] == v then from
    else
      assert s[from..] == [s[from]] + s[from + 1..];
      FirstIndexOf(s, v, from + 1)
  }

  /** Python's `list.remove(v)`: drops the first element equal to `v`. */
  function RemoveFirst(s: seq<Annotation>, v: Annotation): (r: seq<Annotation>)
    requires v in s
    ensures |r| == |s| - 1
    ensures multiset(r) == multiset(s) - multiset{v}
    ensures var i := FirstIndexOf(s, v, 0);
      r[..i] == s[..i] && r[i..] == s[i + 1..] && forall j :: 0 <= j < i ==> s[j] != v
  {
    assert s[0..] == s;
    var i := FirstIndexOf(s, v, 0);
    assert s == s[..i] + [v] + s[i + 1..];
    s[..i] + s[i + 1..]
  }

  // ---------------------------------------------------------------- geometry of edits

  /** The corrected handle table: which document coordinate each handle drags. */
  predicate MovesLeft(h: Option<nat>) { h.Some? && h.value in {0, 2, 6} }
  predicate MovesRight(h: Option<nat>) { h.Some? && h.value in {1, 3, 7} }
  predicate MovesTop(h: Option<nat>) { h.Some? && h.value in {0, 1, 4} }
  predicate MovesBottom(h: Option<nat>) { h.Some? && h.value in {2, 3, 5} }

  /** A resize step: the box is taken to pixels, the coordinates the handle drags are set to
      the pointer, and the result is taken back to document space. */
  function ResizedBox(b: Rect, h: Option<nat>, x: real, y: real, zoom: real): (r: Rect)
    requires zoom > 0.0
    ensures r.x0 == (if MovesLeft(h) then x / zoom else b.x0)
    ensures r.x1 == (if MovesRight(h) then x / zoom else b.x1)
    ensures r.y0 == (if MovesTop(h) then y / zoom else b.y0)
    ensures r.y1 == (if MovesBottom(h) then y / zoom else b.y1)
  {
    DocPixelRoundTrip(b, zoom);
    var px := RectToPixel(b, zoom);
    RectToDoc(Rect(if MovesLeft(h) then x else px.x0,
                   if MovesTop(h) then y else px.y0,
                   if MovesRight(h) then x else px.x1,
                   if MovesBottom(h) then y else px.y1), zoom)
  }

  /** The grabbed handle follows the pointer: a corner lands on it, a top or bottom middle
      handle takes its y, a left or right middle handle takes its x. */
  lemma ResizeFollowsPointer(b: Rect, h: nat, x: real, y: real, zoom: real)
    requires zoom > 0.0 && h < 8
    ensures var p := HandlePositions(RectToPixel(ResizedBox(b, Some(h), x, y, zoom), zoom))[h];
      (h < 4 ==> p == Point(x, y)) &&
      (h == 4 || h == 5 ==> p.y == y) &&
      (h == 6 || h == 7 ==> p.x == x)
  {
    var r := ResizedBox(b, Some(h), x, y, zoom);
    assert x / zoom * zoom == x;
    assert y / zoom * zoom == y;
  }

  /** The handle table as the source writes it: x0 for {0, 4, 6}, x1 for {1, 5, 7},
      y0 for {0, 1, 4, 5}, y1 for {2, 3, 6, 7}. */
  function ResizedBoxAsWritten(b: Rect, h: Option<nat>, x: real, y: real, zoom: real): (r: Rect)
    requires zoom > 0.0
    ensures r.x0 == (if h.Some? && h.value in {0, 4, 6} then x / zoom else b.x0)
    ensures r.x1 == (if h.Some? && h.value in {1, 5, 7} then x / zoom else b.x1)
    ensures r.y0 == (if h.Some? && h.value in {0, 1, 4, 5} then y / zoom else b.y0)
    ensures r.y1 == (if h.Some? && h.value in {2, 3, 6, 7} then y / zoom else b.y1)
  {
    DocPixelRoundTrip(b, zoom);
    var px := RectToPixel(b, zoom);
    var x0 := if h.Some? && h.value in {0, 4, 6} then x else px.x0;
    var x1 := if h.Some? && h.value in {1, 5, 7} then x else px.x1;
    var y0 := if h.Some? && h.value in {0, 1, 4, 5} then y else px.y0;
    var y1 := if h.Some? && h.value in {2, 3, 6, 7} then y else px.y1;
    RectToDoc(Rect(x0, y0, x1, y1), zoom)
  }

  /** With the table as written, dragging the bottom-left handle of (10, 10, 110, 110) at
      zoom 1 to (0, 120) leaves the left edge behind, and dragging the top-middle handle to
      (60, 0) moves the left edge to the middle. */
  lemma ResizeAsWrittenStrandsHandle()
    ensures var b := Rect(10.0, 10.0, 110.0, 110.0);
      var r2 := ResizedBoxAsWritten(b, Some(2), 0.0, 120.0, 1.0);
      var r4 := ResizedBoxAsWritten(b, Some(4), 60.0, 0.0, 1.0);
      HandlePositions(RectToPixel(r2, 1.0))[2] != Point(0.0, 120.0) &&
      r2 == Rect(10.0, 10.0, 110.0, 120.0) &&
      r4 == Rect(60.0, 0.0, 110.0, 110.0)
  {
    var b := Rect(10.0, 10.0, 110.0, 110.0);
    var r2 := ResizedBoxAsWritten(b, Some(2), 0.0, 120.0, 1.0);
    assert r2.x0 == 10.0;
  }

  /** A move step: the box keeps its pixel size and its top-left corner goes to the
      pointer minus the grab offset, taken back to document space. */
  function MovedBox(b: Rect, x: real, y: real, offsetX: real, offsetY: real, zoom: real)
    : (r: Rect)
    requires zoom > 0.0
    ensures r.x0 == (x - offsetX) / zoom && r.y0 == (y - offsetY) / zoom
    ensures r.x1 - r.x0 == b.x1 - b.x0 && r.y1 - r.y0 == b.y1 - b.y0
  {
    var w := (b.x1 - b.x0) * zoom;
    var h := (b.y1 - b.y0) * zoom;
    var nx0 := x - offsetX;
    var ny0 := y - offsetY;
    assert (nx0 + w) / zoom - nx0 / zoom == w / zoom;
    assert (ny0 + h) / zoom - ny0 / zoom == h / zoom;
    Rect(nx0 / zoom, ny0 / zoom, (nx0 + w) / zoom, (ny0 + h) / zoom)
  }

  /** Moving the pointer back to where the box was grabbed puts the box back where it was. */
  lemma MoveBackIsIdentity(b: Rect, offsetX: real, offsetY: real, zoom: real)
    requires zoom > 0.0
    ensures MovedBox(b, b.x0 * zoom + offsetX, b.y0 * zoom + offsetY, offsetX, offsetY, zoom) == b
  {
    var r := MovedBox(b, b.x0 * zoom + offsetX, b.y0 * zoom + offsetY, offsetX, offsetY, zoom);
    assert b.x0 * zoom / zoom == b.x0;
    assert b.y0 * zoom / zoom == b.y0;
  }

  /** The rubber-band rectangle as the canvas reports it: a rectangle item keeps its
      coordinates ordered, smaller corner first. */
  function CanvasRect(x0: real, y0: real, x1: real, y1: real): (r: Rect)
    ensures IsNormalized(r)
    ensures {r.x0, r.x1} == {x0, x1} && {r.y0, r.y1} == {y0, y1}
  {
    Rect(Min(x0, x1), Min(y0, y1), Max(x0, x1), Max(y0, y1))
  }

  /** Whether a finished rubber band becomes an annotation: both sides over 10 pixels. */
  predicate LargeEnough(r: Rect)
  {
    Abs(r.x1 - r.x0) > MinBoxSize && Abs(r.y1 - r.y0) > MinBoxSize
  }

  /** The record `on_mouse_up` appends for a rubber band `r` (pixel space). */
  function DrawnRecord(r: Rect, page: nat, zoom: real, name: string): (a: Annotation)
    requires zoom > 0.0
    ensures a.page == page && a.labelName == name && a.text == ""
    ensures RectToPixel(a.bbox, zoom) == r
    ensures IsNormalized(r) ==> IsNormalized(a.bbox)
  {
    var d := RectToDoc(r, zoom);
    assert IsNormalized(r) ==> r.x0 / zoom <= r.x1 / zoom && r.y0 / zoom <= r.y1 / zoom;
    Annotation(page, d, name, "")
  }

  // ---------------------------------------------------------------- the session

  class AnnotationSession {
    var annotations: seq<Annotation>
    var currentPage: nat
    /** `len(self.doc)`, the page count of the open document. */
    const pageCount: nat
    var zoom: real
    /** The label chosen in the sidebar (`label_var`). */
    var currentLabel: string
    /** `selected_box`: the selected element of `annotations`, by position. */
    var selectedBox: Option<nat>
    var dragging: bool
    var resizing: bool
    var resizeHandle: Option<nat>
    var startX: real
    var startY: real
    /** The rubber-band rectangle being drawn (pixel space), if any. */
    var tempRect: Option<Rect>
    /** Whether the rubber band's canvas item still exists. Every redraw (`render_page`)
        deletes all canvas items, the band included, while `temp_rect` stays set. */
    var bandShown: bool
    var offsetX: real
    var offsetY: real

    ghost predicate Valid()
      reads this
    {
      zoom >= MinZoom &&
      (selectedBox.Some? ==> selectedBox.value < |annotations|) &&
      (currentPage < pageCount || currentPage == 0) &&
      (tempRect.Some? ==> IsNormalized(tempRect.value)) &&
      (bandShown ==> tempRect.Some?)
    }

    /** A session as it stands right after a document with `pageCount` pages and the
        stored annotations `loaded` has been opened. */
    constructor (pageCount: nat, loaded: seq<Annotation>)
      ensures Valid()
      ensures this.pageCount == pageCount && annotations == loaded && currentPage == 0
      ensures zoom == InitialZoom && currentLabel == "TITLE"
      ensures selectedBox == None && !dragging && !resizing && resizeHandle == None
      ensures tempRect == None && !bandShown
    {
      this.pageCount := pageCount;
      annotations := loaded;
      currentPage := 0;
      zoom := InitialZoom;
      currentLabel := "TITLE";
      selectedBox := None;
      dragging, resizing := false, false;
      resizeHandle := None;
      startX, startY := 0.0, 0.0;
      tempRect := None;
      bandShown := false;
      offsetX, offsetY := 0.0, 0.0;
    }

    /** The selected box in pixel space. */
    function SelectedPixelRect(): Rect
      reads this
      requires Valid() && selectedBox.Some?
    {
      RectToPixel(annotations[selectedBox.value].bbox, zoom)
    }

    /** What a press at (x, y) lands on; with no selection every press starts a drawing. */
    function Press(x: real, y: real): PressTarget
      reads this
      requires Valid()
    {
      if selectedBox.None? then Elsewhere else PressTargetOf(SelectedPixelRect(), x, y)
    }

    /** `on_mouse_down`. */
    method MouseDown(x: real, y: real)
      requires Valid()
      modifies this
      ensures Valid()
      ensures annotations == old(annotations) && selectedBox == old(selectedBox)
      ensures zoom == old(zoom) && currentPage == old(currentPage)
      ensures currentLabel == old(currentLabel)
      ensures match old(Press(x, y))
        case OnHandle(h) =>
          resizing && resizeHandle == Some(h) && dragging == old(dragging) &&
          tempRect == old(tempRect) && bandShown == old(bandShown) && startX == old(startX) && startY == old(startY) &&
          offsetX == old(offsetX) && offsetY == old(offsetY)
        case OnBody =>
          dragging && offsetX == x - old(SelectedPixelRect()).x0 &&
          offsetY == y - old(SelectedPixelRect()).y0 &&
          resizing == old(resizing) && resizeHandle == old(resizeHandle) &&
          tempRect == old(tempRect) && bandShown == old(bandShown) &&
          startX == old(startX) && startY == old(startY)
        case Elsewhere =>
          startX == x && startY == y && tempRect == Some(Rect(x, y, x, y)) && bandShown &&
          dragging == old(dragging) && resizing == old(resizing) &&
          resizeHandle == old(resizeHandle) && offsetX == old(offsetX) && offsetY == old(offsetY)
    {
      ghost var target := Press(x, y);
      if selectedBox.Some? {
        var px := RectToPixel(annotations[selectedBox.value].bbox, zoom);
        var hs := HandlePositions(px);
        assert target == PressTargetOf(px, x, y);
        for idx := 0 to |hs|
          invariant FirstNearHandle(hs, x, y, idx) == FirstNearHandle(hs, x, y, 0)
          invariant resizing == old(resizing) && resizeHandle == old(resizeHandle)
        {
          if Abs(x - hs[idx].x) <= HandleSize && Abs(y - hs[idx].y) <= HandleSize {
            assert target == OnHandle(idx);
            resizing := true;
            resizeHandle := Some(idx);
            return;
          }
        }
        if px.x0 <= x <= px.x1 && px.y0 <= y <= px.y1 {
          assert target == OnBody;
          dragging := true;
          offsetX := x - px.x0;
          offsetY := y - px.y0;
          return;
        }
        assert target == Elsewhere;
      }
      startX, startY := x, y;
      tempRect := Some(CanvasRect(startX, startY, startX, startY));
      bandShown := true;
    }

    /** `on_mouse_drag`: resize, else move, else stretch the rubber band. A resize or a
        move redraws the page, which deletes the rubber band; stretching a deleted band
        changes nothing. */
    method MouseDrag(x: real, y: real)
      requires Valid()
      modifies this
      ensures Valid()
      ensures selectedBox == old(selectedBox) && zoom == old(zoom)
      ensures currentPage == old(currentPage) && currentLabel == old(currentLabel)
      ensures dragging == old(dragging) && resizing == old(resizing)
      ensures resizeHandle == old(resizeHandle) && startX == old(startX) && startY == old(startY)
      ensures offsetX == old(offsetX) && offsetY == old(offsetY)
      ensures old(resizing && selectedBox.Some?) ==>
        var i := old(selectedBox).value;
        annotations == old(annotations)[i := old(annotations)[i].(bbox :=
          ResizedBoxAsWritten(old(annotations)[i].bbox, old(resizeHandle), x, y, old(zoom)))] &&
        tempRect == old(tempRect) && !bandShown
      ensures old(!resizing && dragging && selectedBox.Some?) ==>
        var i := old(selectedBox).value;
        annotations == old(annotations)[i := old(annotations)[i].(bbox :=
          MovedBox(old(annotations)[i].bbox, x, y, old(offsetX), old(offsetY), old(zoom)))] &&
        tempRect == old(tempRect) && !bandShown
      ensures old(!((resizing || dragging) && selectedBox.Some?)) ==>
        annotations == old(annotations) && bandShown == old(bandShown) &&
        tempRect == (if old(bandShown) then Some(CanvasRect(startX, startY, x, y))
                     else old(tempRect))
    {
      if resizing && selectedBox.Some? {
        var i := selectedBox.value;
        annotations := annotations[i := annotations[i].(bbox :=
          ResizedBoxAsWritten(annotations[i].bbox, resizeHandle, x, y, zoom))];
        bandShown := false;
      } else if dragging && selectedBox.Some? {
        var i := selectedBox.value;
        annotations := annotations[i := annotations[i].(bbox :=
          MovedBox(annotations[i].bbox, x, y, offsetX, offsetY, zoom))];
        bandShown := false;
      } else if tempRect.Some? && bandShown {
        tempRect := Some(CanvasRect(startX, startY, x, y));
      }
    }

    /** `on_mouse_up`: ends a move, ends a resize, or finishes a drawing, appending the
        record when the rubber band is over 10 pixels on both sides. When a redraw has
        deleted the band, reading its coordinates gives no four values: the handler raises
        (`raised`) and changes nothing. */
    method MouseUp() returns (raised: bool)
      requires Valid()
      modifies this
      ensures Valid()
      ensures selectedBox == old(selectedBox) && zoom == old(zoom)
      ensures currentPage == old(currentPage) && currentLabel == old(currentLabel)
      ensures startX == old(startX) && startY == old(startY)
      ensures offsetX == old(offsetX) && offsetY == old(offsetY)
      ensures raised <==> old(!dragging && !resizing && tempRect.Some? && !bandShown)
      ensures old(dragging) ==>
        !dragging && resizing == old(resizing) && resizeHandle == old(resizeHandle) &&
        annotations == old(annotations) && tempRect == old(tempRect) &&
        bandShown == old(bandShown)
      ensures old(!dragging && resizing) ==>
        !dragging && !resizing && resizeHandle == None &&
        annotations == old(annotations) && tempRect == old(tempRect) &&
        bandShown == old(bandShown)
      ensures raised ==>
        !dragging && !resizing && resizeHandle == old(resizeHandle) &&
        annotations == old(annotations) && tempRect == old(tempRect) && !bandShown
      ensures old(!dragging && !resizing) && !raised ==>
        !dragging && !resizing && resizeHandle == old(resizeHandle) && tempRect == None &&
        !bandShown &&
        annotations ==
          if old(tempRect).Some? && LargeEnough(old(tempRect).value)
          then old(annotations) +
               [DrawnRecord(old(tempRect).value, old(currentPage), old(zoom), old(currentLabel))]
          else old(annotations)
    {
      raised := false;
      if dragging {
        dragging := false;
      } else if resizing {
        resizing := false;
        resizeHandle := None;
      } else if tempRect.Some? {
        if !bandShown {
          raised := true;
          return;
        }
        var r := tempRect.value;
        if Abs(r.x1 - r.x0) > MinBoxSize && Abs(r.y1 - r.y0) > MinBoxSize {
          annotations := annotations + [DrawnRecord(r, currentPage, zoom, currentLabel)];
        }
        tempRect := None;
        bandShown := false;
      }
    }

    /** `select_box`: the first annotation, in list order, on the current page whose pixel
        rectangle holds the point becomes the selection and the page is redrawn; with none,
        nothing changes. */
    method SelectBox(x: real, y: real)
      requires Valid()
      modifies this`selectedBox, this`bandShown
      ensures Valid()
      ensures selectedBox ==
        match FirstHit(annotations, currentPage, zoom, x, y, 0)
        case Some(i) => Some(i)
        case None => old(selectedBox)
      ensures bandShown == (FirstHit(annotations, currentPage, zoom, x, y, 0).None? &&
                            old(bandShown))
    {
      for i := 0 to |annotations|
        invariant forall j :: 0 <= j < i ==> !Hit(annotations[j], currentPage, zoom, x, y)
        invariant selectedBox == old(selectedBox) && bandShown == old(bandShown)
      {
        var b := RectToPixel(annotations[i].bbox, zoom);
        if b.x0 <= x <= b.x1 && b.y0 <= y <= b.y1 && annotations[i].page == currentPage {
          selectedBox := Some(i);
          bandShown := false;
          return;
        }
      }
    }

    /** `delete_selected`: removes the first element equal to the selected one and clears
        the selection, then redraws; without a selection nothing happens. */
    method DeleteSelected()
      requires Valid()
      modifies this`annotations, this`selectedBox, this`bandShown
      ensures Valid()
      ensures selectedBox == None
      ensures bandShown == (old(selectedBox).None? && old(bandShown))
      ensures old(selectedBox).Some? ==>
        annotations == RemoveFirst(old(annotations), old(annotations)[old(selectedBox).value])
      ensures old(selectedBox).None? ==> annotations == old(annotations)
    {
      if selectedBox.Some? {
        annotations := RemoveFirst(annotations, annotations[selectedBox.value]);
        selectedBox := None;
        bandShown := false;
      }
    }

    /** `prev_page`. */
    method PrevPage()
      requires Valid()
      modifies this`currentPage, this`bandShown
      ensures Valid()
      ensures currentPage == if old(currentPage) > 0 then old(currentPage) - 1 else old(currentPage)
      ensures bandShown == (old(currentPage) == 0 && old(bandShown))
    {
      if currentPage > 0 {
        currentPage := currentPage - 1;
        bandShown := false;
      }
    }

    /** `next_page`. */
    method NextPage()
      requires Valid()
      modifies this`currentPage, this`bandShown
      ensures Valid()
      ensures currentPage ==
        if old(currentPage) < pageCount - 1 then old(currentPage) + 1 else old(currentPage)
      ensures bandShown == (old(currentPage) >= pageCount - 1 && old(bandShown))
    {
      if currentPage < pageCount - 1 {
        currentPage := currentPage + 1;
        bandShown := false;
      }
    }

    /** `change_zoom`: adds `delta` but never goes below 0.5. */
    method ChangeZoom(delta: real)
      requires Valid()
      modifies this`zoom, this`bandShown
      ensures Valid()
      ensures zoom == Max(MinZoom, old(zoom) + delta) && !bandShown
    {
      zoom := Max(MinZoom, zoom + delta);
      bandShown := false;
    }

    /** Picking or typing a label in the sidebar's editable combobox sets `label_var`;
        any text is accepted. */
    method ChooseLabel(name: string)
      requires Valid()
      modifies this`currentLabel
      ensures Valid()
      ensures currentLabel == name
    {
      currentLabel := name;
    }

    /** `auto_detect_headings` on the current page, whose text layout is `spans`: the
        detected records are appended after the existing ones, and the page is redrawn. */
    method AutoDetectHeadings(spans: seq<Headings.Span>)
      requires Valid()
      modifies this`annotations, this`bandShown
      ensures Valid()
      ensures annotations == old(annotations) + Headings.Detect(spans, currentPage)
      ensures !bandShown
    {
      var detected: seq<Annotation> := [];
      for i := 0 to |spans|
        invariant detected == Headings.Detect(spans[..i], currentPage)
      {
        assert spans[..i + 1][..i] == spans[..i];
        var text := Strings.Strip(spans[i].text);
        if |text| > 2 {
          var name := Headings.Classify(spans[i].size);
          detected := detected + [Annotation(currentPage, spans[i].bbox, name, text)];
        }
      }
      assert spans[..|spans|] == spans;
      annotations := annotations + detected;
      bandShown := false;
    }

    /** The text backfill `save_annotations` performs before writing: every annotation on a
        page of the document gets the text extracted under its box; `pageChars[p]` is the
        character geometry of page p. */
    method BackfillText(pageChars: seq<seq<TextExtract.Glyph>>)
      requires Valid() && |pageChars| == pageCount
      modifies this`annotations
      ensures Valid()
      ensures |annotations| == |old(annotations)|
      ensures forall i :: 0 <= i < |annotations| ==>
        var a := old(annotations)[i];
        annotations[i] ==
          if a.page < pageCount
          then a.(text := TextExtract.ExtractedText(pageChars[a.page], a.bbox))
          else a
    {
      for i := 0 to |annotations|
        invariant |annotations| == |old(annotations)|
        invariant forall j :: 0 <= j < i ==>
          var a := old(annotations)[j];
          annotations[j] ==
            if a.page < pageCount
            then a.(text := TextExtract.ExtractedText(pageChars[a.page], a.bbox))
            else a
        invariant forall j :: i <= j < |annotations| ==> annotations[j] == old(annotations)[j]
      {
        var a := annotations[i];
        if a.page < pageCount {
          var text := TextExtract.ExtractTextPrecise(pageChars[a.page], a.bbox);
          annotations := annotations[i := a.(text := text)];
        }
      }
    }
  }

  /** Clients of the session that rely only on the contracts above. */

  /** At zoom 1 a 50 by 50 drag creates one record whose box is the dragged rectangle. */
  method DrawScenario() returns (s: AnnotationSession)
    ensures fresh(s) && s.Valid() && s.zoom == 1.0 && s.selectedBox == None
    ensures s.currentPage == 0 && !s.dragging && !s.resizing && s.tempRect == None
    ensures s.annotations == [Annotation(0, Rect(100.0, 100.0, 150.0, 150.0), "TITLE", "")]
  {
    s := new AnnotationSession(3, []);
    s.ChangeZoom(-0.5);
    assert s.zoom == 1.0;
    s.MouseDown(100.0, 100.0);
    assert s.tempRect == Some(Rect(100.0, 100.0, 100.0, 100.0));
    s.MouseDrag(150.0, 150.0);
    assert s.tempRect == Some(Rect(100.0, 100.0, 150.0, 150.0));
    var raised := s.MouseUp();
  }

  /** A 5 by 5 drag creates nothing. */
  method SmallDragScenario() returns (s: AnnotationSession)
    ensures fresh(s) && s.Valid() && s.tempRect == None
    ensures s.annotations == [Annotation(0, Rect(100.0, 100.0, 150.0, 150.0), "TITLE", "")]
  {
    s := DrawScenario();
    s.MouseDown(300.0, 300.0);
    s.MouseDrag(305.0, 305.0);
    assert s.tempRect == Some(Rect(300.0, 300.0, 305.0, 305.0));
    var raised := s.MouseUp();
    assert !raised;
  }

  /** Dragging the top-left handle of a selected box leaves its bottom-right corner fixed;
      deleting it afterwards empties the list. */
  method ResizeScenario() returns (s: AnnotationSession)
    ensures fresh(s) && s.Valid() && s.annotations == [] && s.selectedBox == None
  {
    s := DrawScenario();
    assert Hit(s.annotations[0], 0, 1.0, 120.0, 120.0);
    s.SelectBox(120.0, 120.0);
    assert s.selectedBox == Some(0);
    assert s.Press(101.0, 99.0) == OnHandle(0);
    s.MouseDown(101.0, 99.0);
    assert s.resizing && s.resizeHandle == Some(0);
    s.MouseDrag(90.0, 80.0);
    assert s.annotations[0].bbox == Rect(90.0, 80.0, 150.0, 150.0);
    var raised := s.MouseUp();
    s.DeleteSelected();
  }

  /** Deleting the selected box while a rubber band is being drawn redraws the page and so
      deletes the band: the release then raises and records nothing. */
  method LostBandScenario() returns (s: AnnotationSession, raised: bool)
    ensures fresh(s) && s.Valid() && raised && s.annotations == [] && s.tempRect.Some?
  {
    s := DrawScenario();
    assert Hit(s.annotations[0], 0, 1.0, 120.0, 120.0);
    s.SelectBox(120.0, 120.0);
    assert s.selectedBox == Some(0);
    assert s.Press(300.0, 300.0) == Elsewhere;
    s.MouseDown(300.0, 300.0);
    assert s.bandShown && !s.dragging && !s.resizing;
    s.DeleteSelected();
    assert s.annotations == [] && !s.bandShown;
    s.MouseDrag(400.0, 400.0);
    raised := s.MouseUp();
  }
}
