/** The annotation record and the two coordinate spaces it lives in. Document space is the
    page's own geometry; pixel space is the rendered raster at a zoom factor:
    pixel = document * zoom and document = pixel / zoom. */
module Annotations {

  /** An axis-aligned rectangle `(x0, y0, x1, y1)`; nothing forces x0 <= x1 or y0 <= y1. */
  datatype Rect = Rect(x0: real, y0: real, x1: real, y1: real)

  /** One labelled rectangle on one page: `{"page", "bbox_pdf", "label", "text"}`. */
  datatype Annotation = Annotation(page: nat, bbox: Rect, labelName: string, text: string)

  function ToPixel(v: real, zoom: real): real
  {
    v * zoom
  }

  /** The document-space coordinate that renders at pixel `p`. */
  function ToDoc(p: real, zoom: real): (v: real)
    requires zoom > 0.0
    ensures ToPixel(v, zoom) == p
  {
    p / zoom
  }

  function RectToPixel(r: Rect, zoom: real): Rect
  {
    Rect(ToPixel(r.x0, zoom), ToPixel(r.y0, zoom), ToPixel(r.x1, zoom), ToPixel(r.y1, zoom))
  }

  function RectToDoc(r: Rect, zoom: real): (d: Rect)
    requires zoom > 0.0
    ensures RectToPixel(d, zoom) == r
  {
    Rect(ToDoc(r.x0, zoom), ToDoc(r.y0, zoom), ToDoc(r.x1, zoom), ToDoc(r.y1, zoom))
  }

  /** Rendering a document rectangle and mapping it back gives the same rectangle. */
  lemma DocPixelRoundTrip(r: Rect, zoom: real)
    requires zoom > 0.0
    ensures RectToDoc(RectToPixel(r, zoom), zoom) == r
  {
    assert r.x0 * zoom / zoom == r.x0;
    assert r.y0 * zoom / zoom == r.y0;
    assert r.x1 * zoom / zoom == r.x1;
    assert r.y1 * zoom / zoom == r.y1;
  }

  /** `x0 <= x <= x1 and y0 <= y <= y1` on the raw corners. */
  predicate Contains(r: Rect, x: real, y: real)
  {
    r.x0 <= x <= r.x1 && r.y0 <= y <= r.y1
  }

  predicate IsNormalized(r: Rect)
  {
    r.x0 <= r.x1 && r.y0 <= r.y1
  }

  function Abs(v: real): (a: real)
    ensures a >= 0.0 && (a == v || a == -v)
  {
    if v < 0.0 then -v else v
  }

  function Min(a: real, b: real): real
  {
    if a <= b then a else b
  }

  function Max(a: real, b: real): real
  {
    if a <= b then b else a
  }
}
