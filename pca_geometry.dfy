/** The geometry behind PCAProjectionAxes: units are polygons in the plane
    of the first two principal components; the axes show the rectangle
    [min0, max0] x [min1, max1] of that plane stretched over their pixels.
    Floats are modelled as reals. */
module PcaGeometry {

  /** A point of the PCA plane (PointD). */
  datatype Point = Point(x: real, y: real)

  /** A mouse position in pixels. */
  datatype Pixel = Pixel(x: int, y: int)

  /** A unit's boundary: its vertices and the offset they are drawn at. */
  datatype Polygon = Polygon(pts: seq<Point>, offset: Point)

  /** A polygon unit: its identifier and its boundary. */
  datatype PcaUnit = PcaUnit(unitId: int, poly: Polygon)

  const Origin: Point := Point(0.0, 0.0)

  /** A new unit's polygon: no vertices, no offset. */
  const EmptyPolygon: Polygon := Polygon([], Origin)

  /** pcaMin and pcaMax: the part of the plane on display. */
  datatype PcaView = PcaView(min0: real, min1: real, max0: real, max1: real)

  function Width0(v: PcaView): real { v.max0 - v.min0 }
  function Width1(v: PcaView): real { v.max1 - v.min1 }

  predicate NonEmpty(v: PcaView) { v.min0 < v.max0 && v.min1 < v.max1 }

  // ---------------------------------------------------------------
  // Pixel <-> PCA mapping
  // ---------------------------------------------------------------

  /** The pixel-to-plane map of mouseMove and mouseUp. */
  function ScreenToPca(px: real, py: real, w: real, h: real, v: PcaView): Point
    requires w > 0.0 && h > 0.0
  {
    Point(px / w * Width0(v) + v.min0, py / h * Width1(v) + v.min1)
  }

  /** The plane-to-pixel map of drawUnit, for a vertex drawn at `offset`. */
  function PcaToScreen(p: Point, offset: Point, w: real, h: real, v: PcaView): Point
    requires NonEmpty(v)
  {
    Point((offset.x + p.x - v.min0) / Width0(v) * w, (offset.y + p.y - v.min1) / Width1(v) * h)
  }

  lemma DivMulCancel(a: real, c: real)
    requires c != 0.0
    ensures a / c * c == a
  {
  }

  /** A pixel mapped into the plane is drawn back at that pixel. */
  lemma ScreenToPcaRoundTrip(px: real, py: real, w: real, h: real, v: PcaView)
    requires w > 0.0 && h > 0.0 && NonEmpty(v)
    ensures PcaToScreen(ScreenToPca(px, py, w, h, v), Origin, w, h, v) == Point(px, py)
  {
    var q := ScreenToPca(px, py, w, h, v);
    calc {
      PcaToScreen(q, Origin, w, h, v).x;
      (px / w * Width0(v)) / Width0(v) * w;
      { DivMulCancel(px / w * Width0(v), Width0(v)); assert (px / w * Width0(v)) / Width0(v) == px / w; }
      px / w * w;
      { DivMulCancel(px, w); }
      px;
    }
    calc {
      PcaToScreen(q, Origin, w, h, v).y;
      (py / h * Width1(v)) / Width1(v) * h;
      { assert (py / h * Width1(v)) / Width1(v) == py / h; }
      py / h * h;
      { DivMulCancel(py, h); }
      py;
    }
  }

  /** A point of the plane, drawn and then pointed at, is found again. */
  lemma PcaToScreenRoundTrip(p: Point, w: real, h: real, v: PcaView)
    requires w > 0.0 && h > 0.0 && NonEmpty(v)
    ensures var s := PcaToScreen(p, Origin, w, h, v); ScreenToPca(s.x, s.y, w, h, v) == p
  {
    var s := PcaToScreen(p, Origin, w, h, v);
    calc {
      ScreenToPca(s.x, s.y, w, h, v).x;
      ((p.x - v.min0) / Width0(v) * w) / w * Width0(v) + v.min0;
      { assert ((p.x - v.min0) / Width0(v) * w) / w == (p.x - v.min0) / Width0(v); }
      (p.x - v.min0) / Width0(v) * Width0(v) + v.min0;
      { DivMulCancel(p.x - v.min0, Width0(v)); }
      p.x;
    }
    calc {
      ScreenToPca(s.x, s.y, w, h, v).y;
      ((p.y - v.min1) / Width1(v) * h) / h * Width1(v) + v.min1;
      { assert ((p.y - v.min1) / Width1(v) * h) / h == (p.y - v.min1) / Width1(v); }
      (p.y - v.min1) / Width1(v) * Width1(v) + v.min1;
      { DivMulCancel(p.y - v.min1, Width1(v)); }
      p.y;
    }
  }

  // ---------------------------------------------------------------
  // Panning and zooming
  // ---------------------------------------------------------------

  /** The plane distance a drag of (ex - px, ey - py) pixels covers. */
  function DragDelta(ex: int, ey: int, px: int, py: int, w: real, h: real, v: PcaView): Point
    requires w > 0.0 && h > 0.0
  {
    Point((ex - px) as real / w * Width0(v), (ey - py) as real / h * Width1(v))
  }

  /** The view-pan branch of mouseDrag: the shown rectangle moves against the drag. */
  function PanView(v: PcaView, d: Point): (v': PcaView)
    ensures Width0(v') == Width0(v) && Width1(v') == Width1(v)
  {
    PcaView(v.min0 - d.x, v.min1 - d.y, v.max0 - d.x, v.max1 - d.y)
  }

  /** Panning the view keeps the grabbed point under the mouse: the plane
      point at the new mouse position after the pan is the one that was at
      the previous position before it. */
  lemma PanViewKeepsGrabbedPoint(ex: int, ey: int, px: int, py: int, w: real, h: real, v: PcaView)
    requires w > 0.0 && h > 0.0
    ensures var v' := PanView(v, DragDelta(ex, ey, px, py, w, h, v));
      ScreenToPca(ex as real, ey as real, w, h, v') == ScreenToPca(px as real, py as real, w, h, v)
  {
    var d := DragDelta(ex, ey, px, py, w, h, v);
    assert ex as real / w * Width0(v) - d.x == px as real / w * Width0(v);
    assert ey as real / h * Width1(v) - d.y == py as real / h * Width1(v);
  }

  /** The unit-pan branch of mouseDrag: the unit's offset moves with the drag. */
  function PanUnit(u: PcaUnit, d: Point): (u': PcaUnit)
    ensures u'.unitId == u.unitId && u'.poly.pts == u.poly.pts
  {
    u.(poly := u.poly.(offset := Point(u.poly.offset.x + d.x, u.poly.offset.y + d.y)))
  }

  /** Panning a unit moves every vertex on screen by exactly the drag. */
  lemma PanUnitFollowsMouse(u: PcaUnit, k: int, ex: int, ey: int, px: int, py: int, w: real, h: real, v: PcaView)
    requires w > 0.0 && h > 0.0 && NonEmpty(v) && 0 <= k < |u.poly.pts|
    ensures var u' := PanUnit(u, DragDelta(ex, ey, px, py, w, h, v));
      var before := PcaToScreen(u.poly.pts[k], u.poly.offset, w, h, v);
      var after := PcaToScreen(u'.poly.pts[k], u'.poly.offset, w, h, v);
      after == Point(before.x + (ex - px) as real, before.y + (ey - py) as real)
  {
    var d := DragDelta(ex, ey, px, py, w, h, v);
    var p := u.poly.pts[k];
    var o := u.poly.offset;
    calc {
      (o.x + d.x + p.x - v.min0) / Width0(v) * w;
      (o.x + p.x - v.min0) / Width0(v) * w + d.x / Width0(v) * w;
      { assert d.x / Width0(v) == (ex - px) as real / w; DivMulCancel((ex - px) as real, w); }
      (o.x + p.x - v.min0) / Width0(v) * w + (ex - px) as real;
    }
    calc {
      (o.y + d.y + p.y - v.min1) / Width1(v) * h;
      (o.y + p.y - v.min1) / Width1(v) * h + d.y / Width1(v) * h;
      { assert d.y / Width1(v) == (ey - py) as real / h; DivMulCancel((ey - py) as real, h); }
      (o.y + p.y - v.min1) / Width1(v) * h + (ey - py) as real;
    }
  }

  /** The "-" button: each axis grows by a tenth of its width on both sides. */
  function ZoomOut(v: PcaView): (v': PcaView)
    ensures Width0(v') == 1.2 * Width0(v) && Width1(v') == 1.2 * Width1(v)
    ensures v'.min0 + v'.max0 == v.min0 + v.max0 && v'.min1 + v'.max1 == v.min1 + v.max1
    ensures NonEmpty(v) ==> NonEmpty(v')
  {
    PcaView(v.min0 - 0.1 * Width0(v), v.min1 - 0.1 * Width1(v), v.max0 + 0.1 * Width0(v), v.max1 + 0.1 * Width1(v))
  }

  /** The "+" button: each axis shrinks by a tenth of its width on both sides. */
  function ZoomIn(v: PcaView): (v': PcaView)
    ensures Width0(v') == 0.8 * Width0(v) && Width1(v') == 0.8 * Width1(v)
    ensures v'.min0 + v'.max0 == v.min0 + v.max0 && v'.min1 + v'.max1 == v.min1 + v.max1
    ensures NonEmpty(v) ==> NonEmpty(v')
  {
    PcaView(v.min0 + 0.1 * Width0(v), v.min1 + 0.1 * Width1(v), v.max0 - 0.1 * Width0(v), v.max1 - 0.1 * Width1(v))
  }

  /** Zooming never crosses the centre: any number of presses of either
      button keeps a non-empty view non-empty and centred where it was. */
  lemma {:induction false} ZoomsKeepCentre(v: PcaView, outs: seq<bool>)
    requires NonEmpty(v)
    ensures var v' := Zooms(v, outs);
      NonEmpty(v') && v'.min0 + v'.max0 == v.min0 + v.max0 && v'.min1 + v'.max1 == v.min1 + v.max1
    decreases |outs|
  {
    if outs != [] {
      var next := if outs[0] then ZoomOut(v) else ZoomIn(v);
      ZoomsKeepCentre(next, outs[1..]);
    }
  }

  /** Presses of the zoom buttons in order (true for "-", false for "+"). */
  function Zooms(v: PcaView, outs: seq<bool>): (v': PcaView)
    ensures v'.min0 + v'.max0 == v.min0 + v.max0 && v'.min1 + v'.max1 == v.min1 + v.max1
    decreases |outs|
  {
    if outs == [] then v else Zooms(if outs[0] then ZoomOut(v) else ZoomIn(v), outs[1..])
  }

  // ---------------------------------------------------------------
  // Freehand polygon capture
  // ---------------------------------------------------------------

  /** The decimation test of mouseDrag: farther than 6 pixels from the last
      recorded point. */
  predicate FarEnough(p: Pixel, prev: Pixel)
  {
    (p.x - prev.x) * (p.x - prev.x) + (p.y - prev.y) * (p.y - prev.y) > 6 * 6
  }

  /** The capture so far and the last recorded point. */
  datatype Capture = Capture(pts: seq<Pixel>, prev: Pixel)

  /** One drag event while drawing: record the point if it is far enough. */
  function CaptureStep(c: Capture, p: Pixel): (c': Capture)
    ensures FarEnough(p, c.prev) ==> c'.pts == c.pts + [p] && c'.prev == p
    ensures !FarEnough(p, c.prev) ==> c' == c
  {
    if FarEnough(p, c.prev) then Capture(c.pts + [p], p) else c
  }

  /** A run of drag events. */
  function CaptureAll(c: Capture, ps: seq<Pixel>): (c': Capture)
    ensures |c.pts| <= |c'.pts| <= |c.pts| + |ps|
    ensures c'.pts[..|c.pts|] == c.pts
    ensures ps == [] ==> c' == c
    decreases |ps|
  {
    if ps == [] then c else CaptureAll(CaptureStep(c, ps[0]), ps[1..])
  }

  /** The shape of a capture: it ends at the last recorded point and every
      recorded point is more than 6 pixels from the one before it. */
  ghost predicate Spread(c: Capture)
  {
    && |c.pts| > 0
    && c.pts[|c.pts| - 1] == c.prev
    && forall k :: 0 < k < |c.pts| ==> FarEnough(c.pts[k], c.pts[k - 1])
  }

  /** Dragging keeps the recorded points spread out, never changes the points
      already recorded, and records only points that were dragged over. */
  lemma {:induction false} CaptureAllSpread(c: Capture, ps: seq<Pixel>)
    requires Spread(c)
    ensures var c' := CaptureAll(c, ps);
      && Spread(c')
      && |c.pts| <= |c'.pts| && c'.pts[..|c.pts|] == c.pts
      && forall k :: |c.pts| <= k < |c'.pts| ==> c'.pts[k] in ps
    decreases |ps|
  {
    if ps != [] {
      var c1 := CaptureStep(c, ps[0]);
      assert Spread(c1);
      CaptureAllSpread(c1, ps[1..]);
      var c' := CaptureAll(c, ps);
      assert c' == CaptureAll(c1, ps[1..]);
      assert c'.pts[..|c.pts|] == c1.pts[..|c1.pts|][..|c.pts|];
      forall k | |c.pts| <= k < |c'.pts|
        ensures c'.pts[k] in ps
      {
        if k < |c1.pts| {
          assert c'.pts[k] == c1.pts[k] == ps[0];
        } else {
          assert c'.pts[k] in ps[1..];
        }
      }
    }
  }

  /** A drawing started by a mouse-down at `start` on an empty capture begins
      at `start`, and a drag that never leaves its 6-pixel disc records
      nothing more. */
  lemma {:induction false} CaptureStartsAtMouseDown(start: Pixel, ps: seq<Pixel>)
    ensures var c' := CaptureAll(Capture([start], start), ps);
      |c'.pts| >= 1 && c'.pts[0] == start
    ensures (forall k :: 0 <= k < |ps| ==> !FarEnough(ps[k], start)) ==>
      CaptureAll(Capture([start], start), ps).pts == [start]
    decreases |ps|
  {
    CaptureAllSpread(Capture([start], start), ps);
    if ps != [] && forall k :: 0 <= k < |ps| ==> !FarEnough(ps[k], start) {
      assert CaptureStep(Capture([start], start), ps[0]) == Capture([start], start);
      CaptureStartsAtMouseDown(start, ps[1..]);
    }
  }

  // ---------------------------------------------------------------
  // Committing a capture
  // ---------------------------------------------------------------

  /** The vertices mouseUp builds from the captured pixels. */
  function Commit(pts: seq<Pixel>, w: real, h: real, v: PcaView): (r: seq<Point>)
    requires w > 0.0 && h > 0.0
    ensures |r| == |pts|
  {
    seq(|pts|, k requires 0 <= k < |pts| => ScreenToPca(pts[k].x as real, pts[k].y as real, w, h, v))
  }

  /** Each committed vertex is drawn exactly where it was captured. */
  lemma CommitDrawnWhereCaptured(pts: seq<Pixel>, w: real, h: real, v: PcaView, k: int)
    requires w > 0.0 && h > 0.0 && NonEmpty(v) && 0 <= k < |pts|
    ensures PcaToScreen(Commit(pts, w, h, v)[k], Origin, w, h, v) == Point(pts[k].x as real, pts[k].y as real)
  {
    ScreenToPcaRoundTrip(pts[k].x as real, pts[k].y as real, w, h, v);
  }

  // ---------------------------------------------------------------
  // Units: lookup, hover and line weight
  // ---------------------------------------------------------------

  /** The position of the first unit with the given id, or -1. */
  function IndexOfUnit(units: seq<PcaUnit>, id: int): (k: int)
    ensures -1 <= k < |units|
    ensures k >= 0 ==> units[k].unitId == id && forall j :: 0 <= j < k ==> units[j].unitId != id
    ensures k == -1 ==> forall j :: 0 <= j < |units| ==> units[j].unitId != id
  {
    if units == [] then -1
    else if units[0].unitId == id then 0
    else
      var k := IndexOfUnit(units[1..], id);
      if k < 0 then -1 else k + 1
  }

  /** The position of the first unit whose polygon holds `p`, or -1. */
  function IndexInside(units: seq<PcaUnit>, p: Point, inside: (PcaUnit, Point) -> bool): (k: int)
    ensures -1 <= k < |units|
    ensures k >= 0 ==> inside(units[k], p) && forall j :: 0 <= j < k ==> !inside(units[j], p)
    ensures k == -1 ==> forall j :: 0 <= j < |units| ==> !inside(units[j], p)
  {
    if units == [] then -1
    else if inside(units[0], p) then 0
    else
      var k := IndexInside(units[1..], p, inside);
      if k < 0 then -1 else k + 1
  }

  /** The pen width drawUnit uses: the selected unit heaviest, the hovered
      one next, every other unit thinnest. */
  function UnitThickness(unitId: int, selectedUnit: int, overUnit: int): (t: int)
    ensures 1 <= t <= 3
    ensures t == 3 <==> unitId == selectedUnit
    ensures t == 2 <==> unitId != selectedUnit && unitId == overUnit
  {
    if unitId == selectedUnit then 3 else if unitId == overUnit then 2 else 1
  }
}
