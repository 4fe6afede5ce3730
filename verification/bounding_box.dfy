/**
 * The bounding-box extractor of `scripts/get_bounding_box.py`.
 *
 * The first page of a PDF exposes three collections of drawn objects
 * (curves, rectangles and lines), each object with the four coordinates
 * `x0`, `x1`, `top` and `bottom` in points.  Every object contributes the two
 * corner points `(x0, top)` and `(x1, bottom)`; the tight box over all corner
 * points of all three collections is measured, converted to millimetres and
 * rounded half-up to one decimal place.  A page without objects yields the
 * absent value.
 */
module BoundingBox {
  import opened Wrappers
  import opened Units

  /** One curve, rectangle or line as the page-geometry parser reports it. */
  datatype GeomObject = GeomObject(x0: real, x1: real, top: real, bottom: real)

  /** A coordinate pair collected from an object. */
  datatype Point = Point(x: real, y: real)

  /** The three object collections of one page. */
  datatype Page = Page(curves: seq<GeomObject>, rects: seq<GeomObject>, lines: seq<GeomObject>)

  /** The extremes of the collected coordinates, in points. */
  datatype Box = Box(minX: real, maxX: real, minY: real, maxY: real)

  /** A width and a height (in points or in millimetres, as the context says). */
  datatype Extent = Extent(width: real, height: real)

  /** Why a document could not be measured at all. */
  datatype DocumentError = NoPages

  /** Why the diagnostic report could not be completed. */
  datatype ReportError = ZeroDivision

  // ---------------------------------------------------------------------
  // Point collection
  // ---------------------------------------------------------------------

  /** The two points an object contributes, in the order they are appended. */
  function CornerPair(o: GeomObject): seq<Point>
  {
    [Point(o.x0, o.top), Point(o.x1, o.bottom)]
  }

  /** The points contributed by a collection, object by object. */
  function Corners(objs: seq<GeomObject>): (points: seq<Point>)
    ensures |points| == 2 * |objs|
  {
    if objs == [] then [] else Corners(objs[..|objs| - 1]) + CornerPair(objs[|objs| - 1])
  }

  /** All points of a page: curves first, then lines, then rectangles. */
  function AllPoints(page: Page): (points: seq<Point>)
    ensures |points| == 2 * (|page.curves| + |page.lines| + |page.rects|)
  {
    Corners(page.curves) + Corners(page.lines) + Corners(page.rects)
  }

  /** The page has no object in any of its three collections. */
  predicate NoObjects(page: Page)
  {
    page.curves == [] && page.lines == [] && page.rects == []
  }

  /** An object belongs to one of the page's three collections. */
  predicate OnPage(o: GeomObject, page: Page)
  {
    o in page.curves || o in page.lines || o in page.rects
  }

  /** Each object contributes exactly two points, at positions 2i and 2i+1. */
  lemma {:induction false} CornersAt(objs: seq<GeomObject>)
    ensures |Corners(objs)| == 2 * |objs|
    ensures forall i :: 0 <= i < |objs| ==>
      Corners(objs)[2 * i] == Point(objs[i].x0, objs[i].top) &&
      Corners(objs)[2 * i + 1] == Point(objs[i].x1, objs[i].bottom)
  {
    if objs != [] {
      var init := objs[..|objs| - 1];
      CornersAt(init);
      assert forall i :: 0 <= i < |init| ==> objs[i] == init[i];
    }
  }

  /** A point is collected exactly when it is a corner of some object of the collection. */
  lemma CornersMembership(objs: seq<GeomObject>, p: Point)
    ensures p in Corners(objs) <==>
      exists i :: 0 <= i < |objs| && (p == Point(objs[i].x0, objs[i].top) || p == Point(objs[i].x1, objs[i].bottom))
  {
    CornersAt(objs);
    var ps := Corners(objs);
    if p in ps {
      var k :| 0 <= k < |ps| && ps[k] == p;
      var i := k / 2;
      assert k == 2 * i || k == 2 * i + 1;
    }
  }

  /** The point list has length 2 * (|curves| + |lines| + |rects|). */
  lemma PointCount(page: Page)
    ensures |AllPoints(page)| == 2 * (|page.curves| + |page.lines| + |page.rects|)
    ensures |AllPoints(page)| == 0 <==> NoObjects(page)
  {
    CornersAt(page.curves);
    CornersAt(page.lines);
    CornersAt(page.rects);
  }

  /** The three `for` loops that append the two corner points of every object. */
  method CollectPoints(page: Page) returns (points: seq<Point>)
    ensures points == AllPoints(page)
  {
    points := [];
    for i := 0 to |page.curves|
      invariant points == Corners(page.curves[..i])
    {
      var curve := page.curves[i];
      assert page.curves[..i + 1][..i] == page.curves[..i];
      points := points + [Point(curve.x0, curve.top)];
      points := points + [Point(curve.x1, curve.bottom)];
    }
    assert page.curves[..|page.curves|] == page.curves;
    ghost var fromCurves := points;
    for i := 0 to |page.lines|
      invariant points == fromCurves + Corners(page.lines[..i])
    {
      var line := page.lines[i];
      assert page.lines[..i + 1][..i] == page.lines[..i];
      points := points + [Point(line.x0, line.top)];
      points := points + [Point(line.x1, line.bottom)];
    }
    assert page.lines[..|page.lines|] == page.lines;
    ghost var fromCurvesAndLines := points;
    for i := 0 to |page.rects|
      invariant points == fromCurvesAndLines + Corners(page.rects[..i])
    {
      var rect := page.rects[i];
      assert page.rects[..i + 1][..i] == page.rects[..i];
      points := points + [Point(rect.x0, rect.top)];
      points := points + [Point(rect.x1, rect.bottom)];
    }
    assert page.rects[..|page.rects|] == page.rects;
  }

  // ---------------------------------------------------------------------
  // Min/max reduction
  // ---------------------------------------------------------------------

  /** `[obj[0] for obj in all_objects]` */
  function XCoords(points: seq<Point>): (xs: seq<real>)
    ensures |xs| == |points| && forall i :: 0 <= i < |points| ==> xs[i] == points[i].x
  {
    seq(|points|, i requires 0 <= i < |points| => points[i].x)
  }

  /** `[obj[1] for obj in all_objects]` */
  function YCoords(points: seq<Point>): (ys: seq<real>)
    ensures |ys| == |points| && forall i :: 0 <= i < |points| ==> ys[i] == points[i].y
  {
    seq(|points|, i requires 0 <= i < |points| => points[i].y)
  }

  /** Python's `min` of a non-empty list: an element no greater than any other. */
  function MinOf(xs: seq<real>): (m: real)
    requires |xs| > 0
    ensures m in xs
    ensures forall i :: 0 <= i < |xs| ==> m <= xs[i]
  {
    if |xs| == 1 then xs[0]
    else
      var rest := MinOf(xs[1..]);
      if xs[0] <= rest then xs[0] else rest
  }

  /** Python's `max` of a non-empty list: an element no smaller than any other. */
  function MaxOf(xs: seq<real>): (m: real)
    requires |xs| > 0
    ensures m in xs
    ensures forall i :: 0 <= i < |xs| ==> xs[i] <= m
  {
    if |xs| == 1 then xs[0]
    else
      var rest := MaxOf(xs[1..]);
      if xs[0] >= rest then xs[0] else rest
  }

  /** The point lies inside the box (borders included). */
  predicate Encloses(b: Box, p: Point)
  {
    b.minX <= p.x <= b.maxX && b.minY <= p.y <= b.maxY
  }

  /** The box `outer` contains the box `inner`. */
  predicate ContainsBox(outer: Box, inner: Box)
  {
    outer.minX <= inner.minX && inner.maxX <= outer.maxX &&
    outer.minY <= inner.minY && inner.maxY <= outer.maxY
  }

  /** min_x, max_x, min_y, max_y over the collected points. */
  function BoxOf(points: seq<Point>): (b: Box)
    requires |points| > 0
    ensures forall i :: 0 <= i < |points| ==> Encloses(b, points[i])
    ensures b.minX in XCoords(points) && b.maxX in XCoords(points)
    ensures b.minY in YCoords(points) && b.maxY in YCoords(points)
    ensures b.minX <= b.maxX && b.minY <= b.maxY
  {
    var xs, ys := XCoords(points), YCoords(points);
    Box(MinOf(xs), MaxOf(xs), MinOf(ys), MaxOf(ys))
  }

  /** The width and height of a box in points. */
  function SizePt(b: Box): (e: Extent)
    ensures b.minX <= b.maxX ==> e.width >= 0.0
    ensures b.minY <= b.maxY ==> e.height >= 0.0
    ensures e.width == 0.0 <==> b.minX == b.maxX
    ensures e.height == 0.0 <==> b.minY == b.maxY
  {
    Extent(b.maxX - b.minX, b.maxY - b.minY)
  }

  /** The tight box of a page that has at least one object. */
  function PageBox(page: Page): (b: Box)
    requires !NoObjects(page)
    ensures forall i :: 0 <= i < |AllPoints(page)| ==> Encloses(b, AllPoints(page)[i])
    ensures b.minX <= b.maxX && b.minY <= b.maxY
  {
    PointCount(page);
    BoxOf(AllPoints(page))
  }

  /**
   * The box encloses both corner points of every object of every collection,
   * and each of its four edges is a coordinate of some object: it is the
   * smallest box doing so.
   */
  lemma PageBoxIsTight(page: Page)
    requires !NoObjects(page)
    ensures forall o :: OnPage(o, page) ==>
      Encloses(PageBox(page), Point(o.x0, o.top)) && Encloses(PageBox(page), Point(o.x1, o.bottom))
    ensures exists p :: p in AllPoints(page) && p.x == PageBox(page).minX
    ensures exists p :: p in AllPoints(page) && p.x == PageBox(page).maxX
    ensures exists p :: p in AllPoints(page) && p.y == PageBox(page).minY
    ensures exists p :: p in AllPoints(page) && p.y == PageBox(page).maxY
    ensures SizePt(PageBox(page)).width >= 0.0 && SizePt(PageBox(page)).height >= 0.0
  {
    var b, pts := PageBox(page), AllPoints(page);
    forall o | OnPage(o, page)
      ensures Encloses(b, Point(o.x0, o.top)) && Encloses(b, Point(o.x1, o.bottom))
    {
      OnPageCollected(o, page);
      var k :| 0 <= k < |pts| && pts[k] == Point(o.x0, o.top);
      var k' :| 0 <= k' < |pts| && pts[k'] == Point(o.x1, o.bottom);
    }
    var xs, ys := XCoords(pts), YCoords(pts);
    var i :| 0 <= i < |xs| && xs[i] == b.minX;
    assert pts[i] in pts;
    var j :| 0 <= j < |xs| && xs[j] == b.maxX;
    assert pts[j] in pts;
    var k :| 0 <= k < |ys| && ys[k] == b.minY;
    assert pts[k] in pts;
    var l :| 0 <= l < |ys| && ys[l] == b.maxY;
    assert pts[l] in pts;
  }

  /** Both corners of an object of any collection are among the page's points. */
  lemma OnPageCollected(o: GeomObject, page: Page)
    requires OnPage(o, page)
    ensures Point(o.x0, o.top) in AllPoints(page) && Point(o.x1, o.bottom) in AllPoints(page)
  {
    var objs := if o in page.curves then page.curves else if o in page.lines then page.lines else page.rects;
    var i :| 0 <= i < |objs| && objs[i] == o;
    CornersMembership(objs, Point(o.x0, o.top));
    CornersMembership(objs, Point(o.x1, o.bottom));
  }

  /** A point of the page is a corner of an object of one of its collections. */
  lemma CollectedFromObject(page: Page, p: Point)
    requires p in AllPoints(page)
    ensures exists o :: OnPage(o, page) && (p == Point(o.x0, o.top) || p == Point(o.x1, o.bottom))
  {
    if p in Corners(page.curves) {
      CornersMembership(page.curves, p);
      var i :| 0 <= i < |page.curves| && (p == Point(page.curves[i].x0, page.curves[i].top) || p == Point(page.curves[i].x1, page.curves[i].bottom));
      assert OnPage(page.curves[i], page);
    } else if p in Corners(page.lines) {
      CornersMembership(page.lines, p);
      var i :| 0 <= i < |page.lines| && (p == Point(page.lines[i].x0, page.lines[i].top) || p == Point(page.lines[i].x1, page.lines[i].bottom));
      assert OnPage(page.lines[i], page);
    } else {
      CornersMembership(page.rects, p);
      var i :| 0 <= i < |page.rects| && (p == Point(page.rects[i].x0, page.rects[i].top) || p == Point(page.rects[i].x1, page.rects[i].bottom));
      assert OnPage(page.rects[i], page);
    }
  }

  /**
   * The collections are pooled into one box: if every object of `small` is an
   * object of `large` (in any of its collections), the box of `large` contains
   * the box of `small`.  Adding an object can only widen the box.
   */
  lemma PoolingWidens(small: Page, large: Page)
    requires !NoObjects(small)
    requires forall o :: OnPage(o, small) ==> OnPage(o, large)
    ensures !NoObjects(large)
    ensures ContainsBox(PageBox(large), PageBox(small))
  {
    var o := if small.curves != [] then small.curves[0] else if small.lines != [] then small.lines[0] else small.rects[0];
    assert OnPage(o, small) && OnPage(o, large);
    var bs, bl := PageBox(small), PageBox(large);
    var ps := AllPoints(small);
    forall p | p in ps
      ensures Encloses(bl, p)
    {
      CollectedFromObject(small, p);
      PageBoxIsTight(large);
    }
    var xs, ys := XCoords(ps), YCoords(ps);
    var i :| 0 <= i < |xs| && xs[i] == bs.minX;
    assert ps[i] in ps;
    var j :| 0 <= j < |xs| && xs[j] == bs.maxX;
    assert ps[j] in ps;
    var k :| 0 <= k < |ys| && ys[k] == bs.minY;
    assert ps[k] in ps;
    var l :| 0 <= l < |ys| && ys[l] == bs.maxY;
    assert ps[l] in ps;
  }

  /** Adding one rectangle to a page with objects never shrinks its box. */
  lemma AddingRectWidens(page: Page, o: GeomObject)
    requires !NoObjects(page)
    ensures ContainsBox(PageBox(page.(rects := page.rects + [o])), PageBox(page))
  {
    var large := page.(rects := page.rects + [o]);
    forall q | OnPage(q, page) ensures OnPage(q, large) {
      if q in page.rects { assert q in large.rects; }
    }
    PoolingWidens(page, large);
  }

  /** The box depends only on which objects are on the page, not on order, type or repetition. */
  lemma BoxDependsOnlyOnObjects(p1: Page, p2: Page)
    requires !NoObjects(p1)
    requires forall o :: OnPage(o, p1) <==> OnPage(o, p2)
    ensures !NoObjects(p2)
    ensures PageBox(p1) == PageBox(p2)
  {
    PoolingWidens(p1, p2);
    PoolingWidens(p2, p1);
  }

  // ---------------------------------------------------------------------
  // get_bounding_box_mm
  // ---------------------------------------------------------------------

  /** A length in points, converted to millimetres and rounded half-up to one decimal. */
  function RoundedMm(pt: real): (mm: real)
    ensures mm * 10.0 == HalfUpTenths(PtToMm(pt)) as real
    ensures PtToMm(pt) - 0.05 <= mm <= PtToMm(pt) + 0.05
    ensures pt >= 0.0 ==> mm >= 0.0
  {
    QuantizeTenth(PtToMm(pt))
  }

  /** The specification of `get_bounding_box_mm` on the first page's three collections. */
  function BoundingBoxMm(page: Page): (r: Option<Extent>)
    ensures r.None? <==> NoObjects(page)
  {
    if page.curves != [] || page.lines != [] || page.rects != [] then
      var size := SizePt(PageBox(page));
      Some(Extent(RoundedMm(size.width), RoundedMm(size.height)))
    else
      None
  }

  /**
   * `get_bounding_box_mm` on an opened first page: collect the points, reduce
   * them to a box, convert each side to millimetres and round it.
   */
  method GetBoundingBoxMm(page: Page) returns (r: Option<Extent>)
    ensures r == BoundingBoxMm(page)
    ensures r.None? <==> NoObjects(page)
    ensures r.Some? ==> r.value.width >= 0.0 && r.value.height >= 0.0
  {
    r := None;
    if page.curves != [] || page.lines != [] || page.rects != [] {
      var points := CollectPoints(page);
      PointCount(page);
      if |points| > 0 {
        var xs, ys := XCoords(points), YCoords(points);
        var minX, maxX := MinOf(xs), MaxOf(xs);
        var minY, maxY := MinOf(ys), MaxOf(ys);
        var widthPt, heightPt := maxX - minX, maxY - minY;
        assert Extent(widthPt, heightPt) == SizePt(PageBox(page));
        var widthMm := QuantizeTenth(PtToMm(widthPt));
        var heightMm := QuantizeTenth(PtToMm(heightPt));
        r := Some(Extent(widthMm, heightMm));
      }
    }
  }

  /** Millimetre sizes are never negative. */
  lemma BoundingBoxMmNonNegative(page: Page)
    requires !NoObjects(page)
    ensures BoundingBoxMm(page).value.width >= 0.0 && BoundingBoxMm(page).value.height >= 0.0
  {
    PageBoxIsTight(page);
  }

  /** The width depends only on the collected x coordinates, never on the y axis. */
  lemma WidthDependsOnlyOnX(p1: Page, p2: Page)
    requires !NoObjects(p1) && !NoObjects(p2)
    requires XCoords(AllPoints(p1)) == XCoords(AllPoints(p2))
    ensures BoundingBoxMm(p1).value.width == BoundingBoxMm(p2).value.width
  {
    var b1, b2 := PageBox(p1), PageBox(p2);
    assert b1.minX == MinOf(XCoords(AllPoints(p1)));
    assert b1.maxX == MaxOf(XCoords(AllPoints(p1)));
    assert b1.minX == b2.minX && b1.maxX == b2.maxX;
    assert SizePt(b1).width == SizePt(b2).width;
  }

  /** The height depends only on the collected y coordinates, never on the x axis. */
  lemma HeightDependsOnlyOnY(p1: Page, p2: Page)
    requires !NoObjects(p1) && !NoObjects(p2)
    requires YCoords(AllPoints(p1)) == YCoords(AllPoints(p2))
    ensures BoundingBoxMm(p1).value.height == BoundingBoxMm(p2).value.height
  {
    var b1, b2 := PageBox(p1), PageBox(p2);
    assert b1.minY == MinOf(YCoords(AllPoints(p1)));
    assert b1.maxY == MaxOf(YCoords(AllPoints(p1)));
    assert b1.minY == b2.minY && b1.maxY == b2.maxY;
    assert SizePt(b1).height == SizePt(b2).height;
  }

  /** When every object has the same x0 and x1, the width is exactly 0.0 mm. */
  lemma DegenerateWidthIsZero(page: Page, x: real)
    requires !NoObjects(page)
    requires forall o :: OnPage(o, page) ==> o.x0 == x && o.x1 == x
    ensures BoundingBoxMm(page).value.width == 0.0
  {
    var pts := AllPoints(page);
    var xs := XCoords(pts);
    forall i | 0 <= i < |xs| ensures xs[i] == x {
      assert pts[i] in pts;
      CollectedFromObject(page, pts[i]);
    }
  }

  /** A single rectangle of 72 pt by 36 pt measures 25.4 mm by 12.7 mm. */
  lemma OneInchByHalfInch()
    ensures BoundingBoxMm(Page([], [GeomObject(0.0, 72.0, 0.0, 36.0)], [])) == Some(Extent(25.4, 12.7))
  {
    var page := Page([], [GeomObject(0.0, 72.0, 0.0, 36.0)], []);
    var pts := AllPoints(page);
    assert pts == [Point(0.0, 0.0), Point(72.0, 36.0)];
    assert XCoords(pts) == [0.0, 72.0] && YCoords(pts) == [0.0, 36.0];
    assert SizePt(PageBox(page)) == Extent(72.0, 36.0);
    PtToMmExact();
    HalfUpTenthsUnique(25.4, 254);
    HalfUpTenthsUnique(12.7, 127);
  }

  /** A rectangle and a line to its right pool to one box, from the rectangle's left edge to the line's right end. */
  lemma RectAndLinePooled(rect: GeomObject, line: GeomObject)
    requires rect.x0 <= rect.x1 <= line.x0 <= line.x1
    requires rect.top == line.top <= rect.bottom == line.bottom
    ensures SizePt(PageBox(Page([], [rect], [line]))) == Extent(line.x1 - rect.x0, rect.bottom - rect.top)
  {
    var page := Page([], [rect], [line]);
    LineThenRectCoords(rect, line);
    PageBoxFromExtremes(page, rect.x0, line.x1, rect.top, rect.bottom);
  }

  /** Coordinates that are attained and bound all collected coordinates are the page's box. */
  lemma PageBoxFromExtremes(page: Page, minX: real, maxX: real, minY: real, maxY: real)
    requires !NoObjects(page)
    requires minX in XCoords(AllPoints(page)) && maxX in XCoords(AllPoints(page))
    requires minY in YCoords(AllPoints(page)) && maxY in YCoords(AllPoints(page))
    requires forall x :: x in XCoords(AllPoints(page)) ==> minX <= x <= maxX
    requires forall y :: y in YCoords(AllPoints(page)) ==> minY <= y <= maxY
    ensures PageBox(page) == Box(minX, maxX, minY, maxY)
  {
    var b := PageBox(page);
    assert b.minX in XCoords(AllPoints(page)) && b.maxX in XCoords(AllPoints(page));
    assert b.minY in YCoords(AllPoints(page)) && b.maxY in YCoords(AllPoints(page));
  }

  /** The coordinates collected from one rectangle and one line: the line's corners come first. */
  lemma LineThenRectCoords(rect: GeomObject, line: GeomObject)
    ensures XCoords(AllPoints(Page([], [rect], [line]))) == [line.x0, line.x1, rect.x0, rect.x1]
    ensures YCoords(AllPoints(Page([], [rect], [line]))) == [line.top, line.bottom, rect.top, rect.bottom]
  {
    CornersOfOne(rect);
    CornersOfOne(line);
    var pts := AllPoints(Page([], [rect], [line]));
    assert pts == [Point(line.x0, line.top), Point(line.x1, line.bottom), Point(rect.x0, rect.top), Point(rect.x1, rect.bottom)];
  }

  /** The corners of a single object are its own two corners. */
  lemma CornersOfOne(o: GeomObject)
    ensures Corners([o]) == CornerPair(o)
  {
    assert [o][..0] == [];
  }

  // ---------------------------------------------------------------------
  // Documents and the diagnostic mode
  // ---------------------------------------------------------------------

  /** Only the first page is examined; a document without pages cannot be measured. */
  function DocumentBoundingBoxMm(pages: seq<Page>): (r: Result<Option<Extent>, DocumentError>)
    ensures r.Err? <==> pages == []
    ensures pages != [] ==> r.value == BoundingBoxMm(pages[0])
  {
    if pages == [] then Err(NoPages) else Ok(BoundingBoxMm(pages[0]))
  }

  /** Later pages never influence the result. */
  lemma OnlyFirstPageCounts(first: Page, rest1: seq<Page>, rest2: seq<Page>)
    ensures DocumentBoundingBoxMm([first] + rest1) == DocumentBoundingBoxMm([first] + rest2)
  {
  }

  /**
   * The geometry part of `get_pdf_dimensions`: the unrounded width and height
   * in points, nothing when the page has no objects, and a division by zero
   * when the height is zero (the aspect ratio it reports is width / height).
   */
  function PdfDimensions(page: Page): (r: Result<Option<Extent>, ReportError>)
    ensures r == Ok(None) <==> NoObjects(page)
    ensures r.Err? <==> !NoObjects(page) && SizePt(PageBox(page)).height == 0.0
    ensures r.Ok? && r.value.Some? ==> r.value.value == SizePt(PageBox(page)) && r.value.value.height > 0.0
  {
    if page.curves != [] || page.lines != [] || page.rects != [] then
      var size := SizePt(PageBox(page));
      if size.height == 0.0 then Err(ZeroDivision) else Ok(Some(size))
    else
      Ok(None)
  }

  /** The millimetre result is the point result of the diagnostic mode, converted and rounded side by side. */
  lemma MmIsRoundedPdfDimensions(page: Page)
    requires PdfDimensions(page).Ok? && PdfDimensions(page).value.Some?
    ensures BoundingBoxMm(page) ==
      Some(Extent(RoundedMm(PdfDimensions(page).value.value.width), RoundedMm(PdfDimensions(page).value.value.height)))
  {
  }
}
