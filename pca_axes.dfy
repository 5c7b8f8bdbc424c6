/** PCAProjectionAxes: the view of spikes projected on their first two
    principal components, with polygon units drawn over it. The shown
    rectangle lives in two two-element arrays and the handlers pan it,
    zoom it, move units and capture new polygons in place. */
module PcaProjection {
  import opened Options
  import opened PcaGeometry

  /** The two zoom buttons. */
  datatype ZoomButton = RangeDown | RangeUp

  class PcaProjectionAxes {
    var pcaMin: array<real>
    var pcaMax: array<real>
    var rangeSet: bool
    var redrawSpikes: bool

    var inPolygonDrawingMode: bool
    /** The pixels captured so far while drawing a polygon. */
    var drawnPolygon: seq<Pixel>
    /** The unit being drawn. */
    var drawnUnit: PcaUnit

    var units: seq<PcaUnit>
    var isOverUnit: int
    /** Set when a unit has been moved and the engine has not been told yet. */
    var updateProcessor: bool

    /** The last mouse position the handlers recorded. */
    var prevx: int
    var prevy: int

    var width: int
    var height: int

    /** The sorting engine's selected (unit id, box index); the engine itself
        is not part of this model, only this pair of its state. */
    var selectedUnit: int
    var selectedBox: int

    ghost predicate Valid()
      reads this
    {
      pcaMin.Length == 2 && pcaMax.Length == 2 && pcaMin != pcaMax && width > 0 && height > 0
    }

    /** pcaMin and pcaMax as a value. */
    function View(): PcaView
      reads this, pcaMin, pcaMax
      requires Valid()
    {
      PcaView(pcaMin[0], pcaMin[1], pcaMax[0], pcaMax[1])
    }

    function Prev(): Pixel
      reads this
    {
      Pixel(prevx, prevy)
    }

    /** A new axes: an empty rectangle at the origin, not yet set, no units,
        not drawing, nothing hovered. */
    constructor (width: int, height: int)
      requires width > 0 && height > 0
      ensures Valid() && fresh(pcaMin) && fresh(pcaMax)
      ensures View() == PcaView(0.0, 0.0, 0.0, 0.0) && !rangeSet && redrawSpikes
      ensures !inPolygonDrawingMode && !updateProcessor && isOverUnit == -1
      ensures units == [] && drawnPolygon == []
      ensures this.width == width && this.height == height
    {
      pcaMin := new real[2](_ => 0.0);
      pcaMax := new real[2](_ => 0.0);
      rangeSet := false;
      inPolygonDrawingMode := false;
      updateProcessor := false;
      isOverUnit := -1;
      redrawSpikes := true;
      drawnPolygon := [];
      drawnUnit := PcaUnit(0, EmptyPolygon);
      units := [];
      prevx, prevy := 0, 0;
      this.width := width;
      this.height := height;
      selectedUnit, selectedBox := -1, -1;
    }

    /** setPCARange: show the given rectangle and mark it set. */
    method SetPCARange(p1min: real, p2min: real, p1max: real, p2max: real)
      requires Valid()
      modifies pcaMin, pcaMax, this`rangeSet, this`redrawSpikes
      ensures Valid() && View() == PcaView(p1min, p2min, p1max, p2max)
      ensures rangeSet && redrawSpikes
    {
      pcaMin[0] := p1min;
      pcaMin[1] := p2min;
      pcaMax[0] := p1max;
      pcaMax[1] := p2max;
      rangeSet := true;
      redrawSpikes := true;
    }

    /** setPolygonDrawingMode. */
    method SetPolygonDrawingMode(on: bool)
      modifies this`inPolygonDrawingMode
      ensures inPolygonDrawingMode == on
    {
      if on {
        inPolygonDrawingMode := true;
      } else {
        inPolygonDrawingMode := false;
      }
    }

    /** updateUnits: take a fresh copy of the engine's polygon units. */
    method UpdateUnits(newUnits: seq<PcaUnit>)
      modifies this`units
      ensures units == newUnits
    {
      units := newUnits;
    }

    /** mouseDown: remember the position; a right click clears the spike
        view; while drawing, start a new unit with the id the engine hands
        out (`newUnitId`) and record the point; otherwise select the hovered
        unit, or nothing. */
    method MouseDown(ex: int, ey: int, rightButton: bool, newUnitId: int)
      requires Valid()
      modifies this`prevx, this`prevy, this`redrawSpikes, this`drawnUnit, this`drawnPolygon
      modifies this`selectedUnit, this`selectedBox
      ensures Prev() == Pixel(ex, ey)
      ensures redrawSpikes == (rightButton || old(redrawSpikes))
      ensures inPolygonDrawingMode ==>
        && drawnUnit == PcaUnit(newUnitId, EmptyPolygon)
        && drawnPolygon == old(drawnPolygon) + [Pixel(ex, ey)]
        && selectedUnit == old(selectedUnit) && selectedBox == old(selectedBox)
      ensures !inPolygonDrawingMode ==>
        && drawnUnit == old(drawnUnit) && drawnPolygon == old(drawnPolygon)
        && (if isOverUnit > 0 then selectedUnit == isOverUnit else selectedUnit == -1)
        && selectedBox == -1
    {
      prevx := ex;
      prevy := ey;
      if rightButton {
        redrawSpikes := true;
      }
      if inPolygonDrawingMode {
        drawnUnit := PcaUnit(newUnitId, EmptyPolygon);
        drawnPolygon := drawnPolygon + [Pixel(ex, ey)];
      } else {
        if isOverUnit > 0 {
          selectedUnit, selectedBox := isOverUnit, -1;
        } else {
          selectedUnit, selectedBox := -1, -1;
        }
      }
    }

    /** The first unit with the given id, found as mouseDrag does. */
    method FindUnit(id: int) returns (k: int)
      ensures k == IndexOfUnit(units, id)
    {
      k := 0;
      while k < |units|
        invariant 0 <= k <= |units|
        invariant forall j :: 0 <= j < k ==> units[j].unitId != id
      {
        if units[k].unitId == id {
          return;
        }
        k := k + 1;
      }
      k := -1;
    }

    /** The unit-pan branch of mouseDrag applies: not drawing, and the
        hovered unit is the selected one. */
    predicate PansUnit()
      reads this
    {
      !inPolygonDrawingMode && isOverUnit > 0 && selectedUnit == isOverUnit
    }

    /** The unit-pan branch of mouseDrag: the first unit with the selected id
        moves by the drag and the engine must be told. */
    method DragSelectedUnit(ex: int, ey: int)
      requires Valid()
      modifies this`units, this`updateProcessor, this`prevx, this`prevy
      ensures var d := DragDelta(ex, ey, old(prevx), old(prevy), width as real, height as real, View());
        var k := IndexOfUnit(old(units), selectedUnit);
        && (k >= 0 ==> units == old(units)[k := PanUnit(old(units)[k], d)])
        && (k < 0 ==> units == old(units))
      ensures updateProcessor && Prev() == Pixel(ex, ey)
    {
      var w := width as real;
      var h := height as real;
      var range0 := pcaMax[0] - pcaMin[0];
      var range1 := pcaMax[1] - pcaMin[1];
      var dx := (ex - prevx) as real / w * range0;
      var dy := (ey - prevy) as real / h * range1;
      var unitindex := FindUnit(selectedUnit);
      if unitindex >= 0 {
        var u := units[unitindex];
        assert Point(dx, dy) == DragDelta(ex, ey, prevx, prevy, w, h, View());
        units := units[unitindex := u.(poly := u.poly.(offset := Point(u.poly.offset.x + dx, u.poly.offset.y + dy)))];
      }
      updateProcessor := true;
      prevx, prevy := ex, ey;
    }

    /** The view-pan branch of mouseDrag: the shown rectangle moves against the drag. */
    method DragView(ex: int, ey: int)
      requires Valid()
      modifies pcaMin, pcaMax, this`redrawSpikes, this`prevx, this`prevy
      ensures Valid()
      ensures View() == PanView(old(View()), DragDelta(ex, ey, old(prevx), old(prevy), width as real, height as real, old(View())))
      ensures redrawSpikes && Prev() == Pixel(ex, ey)
    {
      var w := width as real;
      var h := height as real;
      var range0 := pcaMax[0] - pcaMin[0];
      var range1 := pcaMax[1] - pcaMin[1];
      var dx := (ex - prevx) as real / w * range0;
      var dy := (ey - prevy) as real / h * range1;
      pcaMin[0] := pcaMin[0] - dx;
      pcaMin[1] := pcaMin[1] - dy;
      pcaMax[0] := pcaMax[0] - dx;
      pcaMax[1] := pcaMax[1] - dy;
      prevx, prevy := ex, ey;
      redrawSpikes := true;
    }

    /** The drawing branch of mouseDrag: record the point if it is more than
        6 pixels from the last recorded one. */
    method DragCapture(ex: int, ey: int)
      modifies this`drawnPolygon, this`prevx, this`prevy
      ensures Capture(drawnPolygon, Prev()) == CaptureStep(Capture(old(drawnPolygon), old(Prev())), Pixel(ex, ey))
    {
      var distance := (ex - prevx) * (ex - prevx) + (ey - prevy) * (ey - prevy);
      if distance > 6 * 6 {
        drawnPolygon := drawnPolygon + [Pixel(ex, ey)];
        prevx, prevy := ex, ey;
      }
    }

    /** mouseDrag: while drawing, capture the point; otherwise move the
        hovered, selected unit by the drag, or else pan the view against it. */
    method MouseDrag(ex: int, ey: int)
      requires Valid()
      modifies pcaMin, pcaMax, this`redrawSpikes, this`units, this`updateProcessor
      modifies this`prevx, this`prevy, this`drawnPolygon
      ensures Valid()
      ensures inPolygonDrawingMode ==>
        && Capture(drawnPolygon, Prev()) == CaptureStep(Capture(old(drawnPolygon), old(Prev())), Pixel(ex, ey))
        && View() == old(View()) && units == old(units)
        && redrawSpikes == old(redrawSpikes) && updateProcessor == old(updateProcessor)
      ensures PansUnit() ==>
        var d := DragDelta(ex, ey, old(prevx), old(prevy), width as real, height as real, View());
        var k := IndexOfUnit(old(units), selectedUnit);
        && (k >= 0 ==> units == old(units)[k := PanUnit(old(units)[k], d)])
        && (k < 0 ==> units == old(units))
        && View() == old(View()) && updateProcessor && Prev() == Pixel(ex, ey)
        && redrawSpikes == old(redrawSpikes)
      ensures !inPolygonDrawingMode && !PansUnit() ==>
        && View() == PanView(old(View()), DragDelta(ex, ey, old(prevx), old(prevy), width as real, height as real, old(View())))
        && units == old(units) && redrawSpikes && Prev() == Pixel(ex, ey)
        && updateProcessor == old(updateProcessor)
      ensures !inPolygonDrawingMode ==> drawnPolygon == old(drawnPolygon)
    {
      if !inPolygonDrawingMode {
        if isOverUnit > 0 && selectedUnit == isOverUnit {
          DragSelectedUnit(ex, ey);
        } else {
          DragView(ex, ey);
        }
      } else {
        DragCapture(ex, ey);
      }
    }

    /** mouseUp: a pending unit move is handed to the engine (`moved`); a
        drawing in progress ends, its pixels are mapped into the plane as the
        new unit's vertices, and the unit is appended and handed to the
        engine (`added`); the capture is emptied. */
    method MouseUp() returns (moved: Option<seq<PcaUnit>>, added: Option<PcaUnit>)
      requires Valid()
      modifies this`updateProcessor, this`inPolygonDrawingMode, this`drawnUnit, this`units, this`drawnPolygon
      ensures !updateProcessor && !inPolygonDrawingMode
      ensures moved == if old(updateProcessor) then Some(old(units)) else None
      ensures old(inPolygonDrawingMode) ==>
        var u := PcaUnit(old(drawnUnit).unitId,
                         Polygon(Commit(old(drawnPolygon), width as real, height as real, View()), Origin));
        && drawnUnit == u && units == old(units) + [u] && added == Some(u) && drawnPolygon == []
      ensures !old(inPolygonDrawingMode) ==>
        && drawnUnit == old(drawnUnit) && units == old(units) && added == None && drawnPolygon == old(drawnPolygon)
    {
      moved, added := None, None;
      if updateProcessor {
        moved := Some(units);
        updateProcessor := false;
      }
      if inPolygonDrawingMode {
        inPolygonDrawingMode := false;
        var w := width as real;
        var h := height as real;
        var range0 := pcaMax[0] - pcaMin[0];
        var range1 := pcaMax[1] - pcaMin[1];
        var pts: seq<Point> := [];
        var k := 0;
        while k < |drawnPolygon|
          invariant 0 <= k <= |drawnPolygon|
          invariant pts == Commit(drawnPolygon, w, h, View())[..k]
        {
          var p := drawnPolygon[k];
          pts := pts + [Point(p.x as real / w * range0 + pcaMin[0], p.y as real / h * range1 + pcaMin[1])];
          assert pts[k] == Commit(drawnPolygon, w, h, View())[k];
          assert Commit(drawnPolygon, w, h, View())[..k + 1] == Commit(drawnPolygon, w, h, View())[..k] + [pts[k]];
          k := k + 1;
        }
        drawnUnit := drawnUnit.(poly := Polygon(pts, Origin));
        units := units + [drawnUnit];
        added := Some(drawnUnit);
        drawnPolygon := [];
      }
    }

    /** mouseMove: the hovered unit becomes the first one whose polygon holds
        the plane point under the mouse, or -1. Whether a polygon holds a
        point is decided by `inside`. */
    method MouseMove(ex: int, ey: int, inside: (PcaUnit, Point) -> bool)
      requires Valid()
      modifies this`isOverUnit
      ensures var k := IndexInside(units, ScreenToPca(ex as real, ey as real, width as real, height as real, View()), inside);
        isOverUnit == if k >= 0 then units[k].unitId else -1
    {
      isOverUnit := -1;
      var w := width as real;
      var h := height as real;
      ghost var p := ScreenToPca(ex as real, ey as real, w, h, View());
      var k := 0;
      while k < |units|
        invariant 0 <= k <= |units|
        invariant forall j :: 0 <= j < k ==> !inside(units[j], p)
        invariant isOverUnit == -1
      {
        var x1 := (ex as real / w) * (pcaMax[0] - pcaMin[0]) + pcaMin[0];
        var y1 := (ey as real / h) * (pcaMax[1] - pcaMin[1]) + pcaMin[1];
        assert Point(x1, y1) == p;
        if inside(units[k], Point(x1, y1)) {
          isOverUnit := units[k].unitId;
          return;
        }
        k := k + 1;
      }
    }

    /** keyPressed: Escape while drawing stops drawing (the captured pixels
        are kept); any other key, or Escape when not drawing, is not handled. */
    method KeyPressed(isEscape: bool) returns (handled: bool)
      modifies this`inPolygonDrawingMode
      ensures handled == (isEscape && old(inPolygonDrawingMode))
      ensures inPolygonDrawingMode == (old(inPolygonDrawingMode) && !handled)
    {
      if isEscape && inPolygonDrawingMode {
        inPolygonDrawingMode := false;
        return true;
      }
      return false;
    }

    /** buttonClicked: "-" widens and "+" narrows the shown rectangle by a
        tenth of each width on every side, then applies it as setPCARange does. */
    method ButtonClicked(b: ZoomButton)
      requires Valid()
      modifies pcaMin, pcaMax, this`rangeSet, this`redrawSpikes
      ensures Valid() && rangeSet && redrawSpikes
      ensures View() == if b == RangeDown then ZoomOut(old(View())) else ZoomIn(old(View()))
    {
      var range0 := pcaMax[0] - pcaMin[0];
      var range1 := pcaMax[1] - pcaMin[1];
      if b == RangeDown {
        pcaMin[0] := pcaMin[0] - 0.1 * range0;
        pcaMax[0] := pcaMax[0] + 0.1 * range0;
        pcaMin[1] := pcaMin[1] - 0.1 * range1;
        pcaMax[1] := pcaMax[1] + 0.1 * range1;
      } else {
        pcaMin[0] := pcaMin[0] + 0.1 * range0;
        pcaMax[0] := pcaMax[0] - 0.1 * range0;
        pcaMin[1] := pcaMin[1] + 0.1 * range1;
        pcaMax[1] := pcaMax[1] - 0.1 * range1;
      }
      SetPCARange(pcaMin[0], pcaMin[1], pcaMax[0], pcaMax[1]);
    }
  }
}
