/** The geometry behind WaveformAxes: boxes live in metric space (x and w in
    microseconds, y and h in microvolts) and are mapped to the pixels of the
    axes for hit-testing and drawing; the mouse position is mapped back for
    editing. Floats are modelled as reals. */
module WaveformGeometry {
  import opened Options

  /** The time shown across the axes: 40 samples at 30 kHz, in microseconds. */
  const MicrosecSpan: real := 40.0 / 30000.0 * 1000000.0

  /** Pixel tolerance around a box's edges used by the hit test. */
  const Tolerance: real := 10.0

  /** A unit's classification box; w and h may be negative while editing. */
  datatype Box = Box(x: real, y: real, w: real, h: real)

  /** A box unit: its identifier and its boxes, in order. */
  datatype BoxUnit = BoxUnit(unitId: int, boxes: seq<Box>)

  /** The axes' size in pixels and their voltage range (WaveformAxes::range). */
  datatype View = View(width: real, height: real, range: real)

  predicate ValidView(v: View)
  {
    v.width > 0.0 && v.height > 0.0 && v.range > 0.0
  }

  /** Half the range is shown above the centre line and half below. */
  function MicrovoltSpan(range: real): real { range / 2.0 }

  // ---------------------------------------------------------------
  // Metric <-> pixel mapping
  // ---------------------------------------------------------------

  /** The horizontal mouse-to-metric map of mouseDown and mouseDrag. */
  function ScreenToMetricX(px: real, v: View): real
    requires ValidView(v)
  {
    px / v.width * MicrosecSpan
  }

  /** The vertical mouse-to-metric map: positive voltage is up. */
  function ScreenToMetricY(py: real, v: View): real
    requires ValidView(v)
  {
    (v.height / 2.0 - py) / (v.height / 2.0) * MicrovoltSpan(v.range)
  }

  /** The horizontal metric-to-pixel map of isOverUnitBox and drawBoxes. */
  function MetricToScreenX(mx: real, v: View): real
    requires ValidView(v)
  {
    mx / MicrosecSpan * v.width
  }

  /** The vertical metric-to-pixel map of isOverUnitBox and drawBoxes. */
  function MetricToScreenY(my: real, v: View): real
    requires ValidView(v)
  {
    v.height / 2.0 - (my / MicrovoltSpan(v.range) * v.height / 2.0)
  }

  /** Mapping a pixel to metric space and back gives the pixel again. */
  lemma ScreenToMetricRoundTrip(px: real, py: real, v: View)
    requires ValidView(v)
    ensures MetricToScreenX(ScreenToMetricX(px, v), v) == px
    ensures MetricToScreenY(ScreenToMetricY(py, v), v) == py
  {
    var s := MicrovoltSpan(v.range);
    var hh := v.height / 2.0;
    calc {
      MetricToScreenY(ScreenToMetricY(py, v), v);
      hh - ((hh - py) / hh * s / s * v.height / 2.0);
      { assert (hh - py) / hh * s / s == (hh - py) / hh; }
      hh - ((hh - py) / hh * v.height / 2.0);
      { assert (hh - py) / hh * v.height / 2.0 == hh - py; }
      py;
    }
  }

  /** Mapping a metric point to pixels and back gives the point again. */
  lemma MetricToScreenRoundTrip(mx: real, my: real, v: View)
    requires ValidView(v)
    ensures ScreenToMetricX(MetricToScreenX(mx, v), v) == mx
    ensures ScreenToMetricY(MetricToScreenY(my, v), v) == my
  {
    var s := MicrovoltSpan(v.range);
    var hh := v.height / 2.0;
    calc {
      ScreenToMetricY(MetricToScreenY(my, v), v);
      (hh - (hh - (my / s * v.height / 2.0))) / hh * s;
      { assert hh - (hh - (my / s * v.height / 2.0)) == my / s * hh; }
      (my / s * hh) / hh * s;
      my;
    }
  }

  // ---------------------------------------------------------------
  // Hit-testing
  // ---------------------------------------------------------------

  /** A box on screen with its orientation normalised: x1 <= x2, y1 <= y2. */
  datatype Rect = Rect(x1: real, y1: real, x2: real, y2: real)

  /** The screen rectangle of a box after the swaps in isOverUnitBox. */
  function BoxOnScreen(b: Box, v: View): (r: Rect)
    requires ValidView(v)
    ensures r.x1 <= r.x2 && r.y1 <= r.y2
    ensures {r.x1, r.x2} == {MetricToScreenX(b.x, v), MetricToScreenX(b.x + b.w, v)}
    ensures {r.y1, r.y2} == {MetricToScreenY(b.y, v), MetricToScreenY(b.y + b.h, v)}
  {
    var rectx1 := MetricToScreenX(b.x, v);
    var recty1 := MetricToScreenY(b.y, v);
    var rectx2 := MetricToScreenX(b.x + b.w, v);
    var recty2 := MetricToScreenY(b.y + b.h, v);
    Rect(if rectx1 > rectx2 then rectx2 else rectx1,
         if recty1 > recty2 then recty2 else recty1,
         if rectx1 > rectx2 then rectx1 else rectx2,
         if recty1 > recty2 then recty1 else recty2)
  }

  /** The same box described from its opposite corner. */
  function Flipped(b: Box): Box
  {
    Box(b.x + b.w, b.y + b.h, -b.w, -b.h)
  }

  /** Normalisation makes the hit test blind to a box's orientation. */
  lemma FlippedBoxSameRect(b: Box, v: View)
    requires ValidView(v)
    ensures BoxOnScreen(Flipped(b), v) == BoxOnScreen(b, v)
  {
    var f := Flipped(b);
    assert f.x + f.w == b.x && f.y + f.h == b.y;
  }

  /** Within the tolerance band of an edge. */
  predicate Near(p: real, edge: real)
  {
    edge - Tolerance <= p <= edge + Tolerance
  }

  /** Inside the rectangle grown by the tolerance on every side. */
  predicate InReach(x: real, y: real, r: Rect)
  {
    x >= r.x1 - Tolerance && y >= r.y1 - Tolerance && x <= r.x2 + Tolerance && y <= r.y2 + Tolerance
  }

  /** Where on a box the mouse is (WaveformAxes::strOverWhere; "" is Nowhere). */
  datatype Zone = Nowhere | TopLeft | TopRight | BottomLeft | BottomRight | Left | Right | Top | Bottom | Inside

  /** Which of two opposite edges a coordinate is near; the first one wins. */
  datatype Side = Low | High | Neither

  function SideOf(p: real, low: real, high: real): Side
  {
    if Near(p, low) then Low else if Near(p, high) then High else Neither
  }

  /** The zone made of a horizontal side (left/right) and a vertical side (top/bottom). */
  function Compose(horizontal: Side, vertical: Side): Zone
  {
    match (horizontal, vertical)
    case (Low, Low) => TopLeft
    case (High, Low) => TopRight
    case (Low, High) => BottomLeft
    case (High, High) => BottomRight
    case (Low, Neither) => Left
    case (High, Neither) => Right
    case (Neither, Low) => Top
    case (Neither, High) => Bottom
    case (Neither, Neither) => Inside
  }

  /** The nine-way classification of isOverUnitBox, tested in its order:
      the four corners, then left, right, top, bottom, then inside. Its
      contract says that this fixed order amounts to choosing the left edge
      over the right one, the top edge over the bottom one, and combining. */
  function Classify(x: real, y: real, r: Rect): (z: Zone)
    ensures z == Compose(SideOf(x, r.x1, r.x2), SideOf(y, r.y1, r.y2))
    ensures z != Nowhere
  {
    if Near(x, r.x1) && Near(y, r.y1) then TopLeft
    else if Near(x, r.x2) && Near(y, r.y1) then TopRight
    else if Near(x, r.x1) && Near(y, r.y2) then BottomLeft
    else if Near(x, r.x2) && Near(y, r.y2) then BottomRight
    else if Near(x, r.x1) then Left
    else if Near(x, r.x2) then Right
    else if Near(y, r.y1) then Top
    else if Near(y, r.y2) then Bottom
    else Inside
  }

  /** A normalised rectangle's top-left corner always classifies as TopLeft;
      the other corners classify as themselves exactly when the rectangle is
      more than the tolerance wide (and tall). Otherwise the corner takes the
      zone of the corner it is within the tolerance of that is tested first:
      on a narrow box the left edge wins, on a short box the top edge wins. */
  lemma CornerZones(r: Rect)
    requires r.x1 <= r.x2 && r.y1 <= r.y2
    ensures Classify(r.x1, r.y1, r) == TopLeft
    ensures Classify(r.x2, r.y1, r) == TopRight <==> r.x2 - r.x1 > Tolerance
    ensures Classify(r.x1, r.y2, r) == BottomLeft <==> r.y2 - r.y1 > Tolerance
    ensures Classify(r.x2, r.y2, r) == BottomRight <==> r.x2 - r.x1 > Tolerance && r.y2 - r.y1 > Tolerance
    ensures r.x2 - r.x1 <= Tolerance ==> Classify(r.x2, r.y1, r) == TopLeft
    ensures r.y2 - r.y1 <= Tolerance ==> Classify(r.x1, r.y2, r) == TopLeft
    ensures r.x2 - r.x1 <= Tolerance && r.y2 - r.y1 <= Tolerance ==> Classify(r.x2, r.y2, r) == TopLeft
    ensures r.x2 - r.x1 > Tolerance && r.y2 - r.y1 <= Tolerance ==> Classify(r.x2, r.y2, r) == TopRight
    ensures r.x2 - r.x1 <= Tolerance && r.y2 - r.y1 > Tolerance ==> Classify(r.x2, r.y2, r) == BottomLeft
  {
  }

  /** Box b of unit k is within reach of the point. */
  predicate Touches(units: seq<BoxUnit>, k: int, b: int, x: real, y: real, v: View)
    requires ValidView(v)
  {
    0 <= k < |units| && 0 <= b < |units[k].boxes| && InReach(x, y, BoxOnScreen(units[k].boxes[b], v))
  }

  /** A match of the hit test: the unit's position in the list, the box's
      position in the unit, and the zone. */
  datatype Hit = Hit(unitIndex: nat, box: nat, zone: Zone)

  /** The nested search of isOverUnitBox, resumed at unit k, box b. */
  function FirstHitFrom(units: seq<BoxUnit>, k: nat, b: nat, x: real, y: real, v: View): (r: Option<Hit>)
    requires ValidView(v) && k <= |units|
    ensures r.Some? ==> Touches(units, r.value.unitIndex, r.value.box, x, y, v)
    ensures r.Some? ==> AtOrAfter(r.value.unitIndex, r.value.box, k, b)
    ensures r.Some? ==>
      r.value.zone == Classify(x, y, BoxOnScreen(units[r.value.unitIndex].boxes[r.value.box], v))
    decreases |units| - k, if k < |units| then |units[k].boxes| - b else 0
  {
    if k == |units| then None
    else if b >= |units[k].boxes| then FirstHitFrom(units, k + 1, 0, x, y, v)
    else if Touches(units, k, b, x, y, v) then
      Some(Hit(k, b, Classify(x, y, BoxOnScreen(units[k].boxes[b], v))))
    else FirstHitFrom(units, k, b + 1, x, y, v)
  }

  /** The whole search of isOverUnitBox. */
  function FirstHit(units: seq<BoxUnit>, x: real, y: real, v: View): (r: Option<Hit>)
    requires ValidView(v)
    ensures r.Some? ==> Touches(units, r.value.unitIndex, r.value.box, x, y, v)
    ensures r.Some? ==>
      r.value.zone == Classify(x, y, BoxOnScreen(units[r.value.unitIndex].boxes[r.value.box], v))
  {
    FirstHitFrom(units, 0, 0, x, y, v)
  }

  /** (k, b) comes at or after (k0, b0) in the search order. */
  predicate AtOrAfter(k: int, b: int, k0: int, b0: int)
  {
    k > k0 || (k == k0 && b >= b0)
  }

  lemma {:induction false} FirstHitFromSpec(units: seq<BoxUnit>, k: nat, b: nat, x: real, y: real, v: View)
    requires ValidView(v) && k <= |units|
    ensures match FirstHitFrom(units, k, b, x, y, v)
      case None =>
        forall k', b' :: AtOrAfter(k', b', k, b) ==> !Touches(units, k', b', x, y, v)
      case Some(h) =>
        && Touches(units, h.unitIndex, h.box, x, y, v)
        && AtOrAfter(h.unitIndex, h.box, k, b)
        && h.zone == Classify(x, y, BoxOnScreen(units[h.unitIndex].boxes[h.box], v))
        && forall k', b' :: AtOrAfter(k', b', k, b) && Touches(units, k', b', x, y, v) ==>
             AtOrAfter(k', b', h.unitIndex, h.box)
    decreases |units| - k, if k < |units| then |units[k].boxes| - b else 0
  {
    if k == |units| {
    } else if b >= |units[k].boxes| {
      FirstHitFromSpec(units, k + 1, 0, x, y, v);
    } else if Touches(units, k, b, x, y, v) {
    } else {
      FirstHitFromSpec(units, k, b + 1, x, y, v);
    }
  }

  /** isOverUnitBox reports the first box in list order (unit by unit, box by
      box) whose rectangle, grown by the tolerance, holds the point, with the
      zone of the point on that box; no report means no box is in reach. */
  lemma FirstHitMeaning(units: seq<BoxUnit>, x: real, y: real, v: View)
    requires ValidView(v)
    ensures FirstHit(units, x, y, v).None? <==> forall k, b :: !Touches(units, k, b, x, y, v)
    ensures FirstHit(units, x, y, v).Some? ==>
      var h := FirstHit(units, x, y, v).value;
      && Touches(units, h.unitIndex, h.box, x, y, v)
      && h.zone == Classify(x, y, BoxOnScreen(units[h.unitIndex].boxes[h.box], v))
      && forall k, b :: Touches(units, k, b, x, y, v) ==> AtOrAfter(k, b, h.unitIndex, h.box)
  {
    FirstHitFromSpec(units, 0, 0, x, y, v);
    if FirstHit(units, x, y, v).None? {
      forall k, b ensures !Touches(units, k, b, x, y, v) {
        if Touches(units, k, b, x, y, v) { assert AtOrAfter(k, b, 0, 0); }
      }
    }
  }

  /** The position of the first unit with the given id, or -1 when there is none. */
  function IndexOfUnit(units: seq<BoxUnit>, id: int): (k: int)
    ensures -1 <= k < |units|
    ensures k >= 0 ==> units[k].unitId == id && forall j :: 0 <= j < k ==> units[j].unitId != id
    ensures k == -1 ==> forall j :: 0 <= j < |units| ==> units[j].unitId != id
  {
    if units == [] then -1
    else if units[0].unitId == id then 0
    else
      var k := IndexOfUnit(units[1..], id);
      if k < 0 then -1 else k + 1
  }

  // ---------------------------------------------------------------
  // Editing a box with its handles
  // ---------------------------------------------------------------

  predicate MovesLeftEdge(z: Zone) { z == Left || z == TopLeft || z == BottomLeft }
  predicate MovesRightEdge(z: Zone) { z == Right || z == TopRight || z == BottomRight }
  /** The screen-bottom handles move the box's y edge. */
  predicate MovesBottomEdge(z: Zone) { z == Bottom || z == BottomLeft || z == BottomRight }
  /** The screen-top handles move the box's y + h edge. */
  predicate MovesTopEdge(z: Zone) { z == Top || z == TopLeft || z == TopRight }

  /** The box branch of WaveformAxes::mouseDrag for one box: (x, y) is the
      mouse in metric space and (offX, offY) the grab offset taken at
      mouse-down. Each handle puts the edges it owns under the mouse and keeps
      every other edge where it was; "inside" moves the box and keeps its size. */
  function DragBox(b: Box, z: Zone, x: real, y: real, offX: real, offY: real): (r: Box)
    ensures MovesLeftEdge(z) ==> r.x == x && r.x + r.w == b.x + b.w
    ensures MovesRightEdge(z) ==> r.x == b.x && r.x + r.w == x
    ensures MovesBottomEdge(z) ==> r.y == y && r.y + r.h == b.y + b.h
    ensures MovesTopEdge(z) ==> r.y == b.y && r.y + r.h == y
    ensures z == Inside ==> r == Box(x - offX, y - offY, b.w, b.h)
    ensures !MovesLeftEdge(z) && !MovesRightEdge(z) && z != Inside ==> r.x == b.x && r.w == b.w
    ensures !MovesBottomEdge(z) && !MovesTopEdge(z) && z != Inside ==> r.y == b.y && r.h == b.h
  {
    var dx := x - b.x;
    var dy := y - b.y;
    match z
    case Right => b.(w := x - b.x)
    case Left => b.(w := b.w - dx, x := x)
    case Bottom => b.(y := b.y + dy, h := b.h - dy)
    case Top => b.(h := dy)
    case TopRight => b.(w := x - b.x, h := dy)
    case TopLeft => b.(w := b.w - dx, x := x, h := dy)
    case BottomRight => b.(y := b.y + dy, h := b.h - dy, w := x - b.x)
    case BottomLeft => b.(w := b.w - dx, x := x, y := b.y + dy, h := b.h - dy)
    case Inside => b.(x := x - offX, y := y - offY)
    case Nowhere => b
  }

  /** Dragging from "inside" keeps the point grabbed at mouse-down under the
      mouse: the box moves by exactly the mouse's metric displacement. */
  lemma InsideDragFollowsMouse(b: Box, downX: real, downY: real, x: real, y: real)
    ensures DragBox(b, Inside, x, y, downX - b.x, downY - b.y) == Box(b.x + (x - downX), b.y + (y - downY), b.w, b.h)
  {
  }

  /** One unit in the box-drag loop: boxes of the unit under the mouse are edited. */
  function DragUnit(u: BoxUnit, unitId: int, box: int, z: Zone, x: real, y: real, offX: real, offY: real): BoxUnit
  {
    if u.unitId == unitId && 0 <= box < |u.boxes| then
      u.(boxes := u.boxes[box := DragBox(u.boxes[box], z, x, y, offX, offY)])
    else u
  }

  /** The box-drag loop over every unit: in each unit whose id is `unitId`,
      box `box` is edited and nothing else in the list changes. */
  function DragUnits(units: seq<BoxUnit>, unitId: int, box: int, z: Zone, x: real, y: real, offX: real, offY: real): (r: seq<BoxUnit>)
    ensures |r| == |units|
    ensures forall k :: 0 <= k < |units| ==> r[k].unitId == units[k].unitId && |r[k].boxes| == |units[k].boxes|
    ensures forall k, j :: 0 <= k < |units| && 0 <= j < |units[k].boxes| ==>
      r[k].boxes[j] == if units[k].unitId == unitId && j == box
                       then DragBox(units[k].boxes[j], z, x, y, offX, offY)
                       else units[k].boxes[j]
  {
    seq(|units|, k requires 0 <= k < |units| => DragUnit(units[k], unitId, box, z, x, y, offX, offY))
  }

  // ---------------------------------------------------------------
  // Threshold slider
  // ---------------------------------------------------------------

  /** The slider position of mouseDrag: the mouse's height fraction, clamped to [-1, 1]. */
  function SliderPosition(py: real, height: real): (p: real)
    requires height > 0.0
    ensures -1.0 <= p <= 1.0
    ensures -height <= py <= height ==> p == py / height
    ensures py > height ==> p == 1.0
    ensures py < -height ==> p == -1.0
  {
    var pos := py / height;
    if pos > 1.0 then 1.0 else if pos < -1.0 then -1.0 else pos
  }

  /** The threshold level set by dragging the slider. */
  function SliderLevel(py: real, height: real, range: real): (level: real)
    requires height > 0.0 && range > 0.0
    ensures -range / 2.0 <= level <= 3.0 * range / 2.0
  {
    (0.5 - SliderPosition(py, height)) * range
  }

  /** The height at which drawThresholdSlider draws the line, and around which
      mouseMove detects it. */
  function ThresholdLineY(level: real, height: real, range: real): real
    requires range > 0.0
  {
    height * (0.5 - level / range)
  }

  /** While the mouse stays within one axes height of the top, the line is
      drawn exactly where the mouse is. */
  lemma SliderFollowsMouse(py: real, height: real, range: real)
    requires height > 0.0 && range > 0.0 && -height <= py <= height
    ensures ThresholdLineY(SliderLevel(py, height, range), height, range) == py
  {
    var a := 0.5 - SliderPosition(py, height);
    MulDivCancel(a, range);
    calc {
      ThresholdLineY(SliderLevel(py, height, range), height, range);
      height * (0.5 - a * range / range);
      height * (0.5 - a);
      height * SliderPosition(py, height);
      py;
    }
  }

  lemma MulDivCancel(a: real, c: real)
    requires c != 0.0
    ensures a * c / c == a
  {
  }

  /** Lower on screen means a lower threshold. */
  lemma SliderLevelMonotone(py1: real, py2: real, height: real, range: real)
    requires height > 0.0 && range > 0.0 && py1 <= py2
    ensures SliderLevel(py2, height, range) <= SliderLevel(py1, height, range)
  {
    assert py1 / height <= py2 / height;
  }

  // ---------------------------------------------------------------
  // Line weight
  // ---------------------------------------------------------------

  /** The pen width drawBoxes uses for box `box` of unit `unitId`: the selected
      box is drawn heaviest, the hovered one next, every other box thinnest. */
  function BoxThickness(unitId: int, box: int, selectedUnit: int, selectedBox: int, overUnit: int, overBox: int): (t: int)
    ensures 1 <= t <= 3
    ensures t == 3 <==> unitId == selectedUnit && box == selectedBox
    ensures t == 2 <==> !(unitId == selectedUnit && box == selectedBox) && unitId == overUnit && box == overBox
  {
    if unitId == selectedUnit && box == selectedBox then 3
    else if unitId == overUnit && box == overBox then 2
    else 1
  }
}
