/** WaveformAxes: the view of one channel's recent spike waveforms, its
    draggable threshold line and the box units drawn over it. The object
    keeps its spike buffer in an array and its units in a list, and its
    mouse handlers edit them in place. */
module Waveform {
  import opened Options
  import opened SpikeRing
  import opened WaveformGeometry

  class WaveformAxes {
    var spikeBuffer: array<Spike>
    var spikeIndex: int
    var spikesReceivedSinceLastRedraw: int
    var gotFirstSpike: bool

    /** Voltage range shown, in microvolts (set from the plot's range buttons). */
    var range: real
    /** Size in pixels, as last laid out. */
    var width: int
    var height: int

    var displayThresholdLevel: real
    var isOverThresholdSlider: bool
    var bDragging: bool

    /** What the mouse was last found over: unit id, box index and zone. */
    var isOverUnit: int
    var isOverBox: int
    var strOverWhere: Zone

    /** The mouse-down position in metric space and the grab offset from the box's corner. */
    var mouseDownX: real
    var mouseDownY: real
    var mouseOffsetX: real
    var mouseOffsetY: real

    var units: seq<BoxUnit>

    /** The sorting engine's selected (unit id, box index); the engine itself
        is not part of this model, only this pair of its state. */
    var selectedUnit: int
    var selectedBox: int

    ghost predicate Valid()
      reads this, spikeBuffer
    {
      && spikeBuffer.Length == BufferSize
      && SpikeRing.Valid(Buffer())
      && width > 0 && height > 0 && range > 0.0
    }

    /** The spike buffer's state as a value. */
    function Buffer(): Ring
      reads this, spikeBuffer
    {
      Ring(spikeBuffer[..], spikeIndex, spikesReceivedSinceLastRedraw, gotFirstSpike)
    }

    /** The size and range the coordinate maps use. */
    function Geometry(): View
      reads this
    {
      View(width as real, height as real, range)
    }

    /** A new axes: five empty spikes, a 250 uV range, nothing hovered. */
    constructor (width: int, height: int)
      requires width > 0 && height > 0
      ensures Valid() && fresh(spikeBuffer)
      ensures Buffer() == Initial()
      ensures range == 250.0 && this.width == width && this.height == height
      ensures displayThresholdLevel == 0.0 && !isOverThresholdSlider && !bDragging
      ensures isOverUnit == -1 && isOverBox == -1 && strOverWhere == Nowhere
      ensures units == [] && selectedUnit == -1 && selectedBox == -1
    {
      spikeBuffer := new Spike[BufferSize](_ => EmptySpike);
      spikeIndex := 0;
      spikesReceivedSinceLastRedraw := 0;
      gotFirstSpike := false;
      range := 250.0;
      this.width := width;
      this.height := height;
      displayThresholdLevel := 0.0;
      isOverThresholdSlider := false;
      bDragging := false;
      isOverUnit := -1;
      isOverBox := -1;
      strOverWhere := Nowhere;
      mouseDownX, mouseDownY, mouseOffsetX, mouseOffsetY := 0.0, 0.0, 0.0, 0.0;
      units := [];
      selectedUnit, selectedBox := -1, -1;
      new;
      assert spikeBuffer[..] == Initial().slots;
    }

    /** updateSpikeData: store the spike in the next slot unless BufferSize
        spikes have already arrived since the last redraw. */
    method UpdateSpikeData(s: Spike) returns (ok: bool)
      requires Valid()
      modifies spikeBuffer, this`spikeIndex, this`spikesReceivedSinceLastRedraw, this`gotFirstSpike
      ensures Valid() && ok
      ensures Buffer() == Push(old(Buffer()), s)
    {
      if !gotFirstSpike {
        gotFirstSpike := true;
      }
      if spikesReceivedSinceLastRedraw < BufferSize {
        spikeIndex := spikeIndex + 1;
        spikeIndex := spikeIndex % BufferSize;
        spikeBuffer[spikeIndex] := s;
        spikesReceivedSinceLastRedraw := spikesReceivedSinceLastRedraw + 1;
      }
      ok := true;
    }

    /** clear: refill the buffer with empty spikes and restart at slot 0. */
    method Clear()
      requires Valid()
      modifies spikeBuffer, this`spikeIndex
      ensures Valid()
      ensures Buffer() == SpikeRing.Clear(old(Buffer()))
    {
      var n := 0;
      while n < BufferSize
        invariant 0 <= n <= BufferSize
        invariant forall q :: 0 <= q < n ==> spikeBuffer[q] == EmptySpike
      {
        spikeBuffer[n] := EmptySpike;
        n := n + 1;
      }
      spikeIndex := 0;
      assert spikeBuffer[..] == SpikeRing.Clear(old(Buffer())).slots;
    }

    /** The state change of paint: after the first spike, a repaint resets
        the count of spikes received since the last redraw. */
    method Paint()
      requires Valid()
      modifies this`spikesReceivedSinceLastRedraw
      ensures Valid()
      ensures Buffer() == Redraw(old(Buffer()))
    {
      if !gotFirstSpike {
        return;
      }
      spikesReceivedSinceLastRedraw := 0;
    }

    /** setRange, called by the plot with one of its range values. */
    method SetRange(r: real)
      requires Valid() && r > 0.0
      modifies this`range
      ensures Valid() && range == r
    {
      range := r;
    }

    /** setDetectorThreshold: the detector's threshold becomes the displayed level. */
    method SetDetectorThreshold(t: real)
      modifies this`displayThresholdLevel
      ensures displayThresholdLevel == t
    {
      displayThresholdLevel := t;
    }

    /** mouseExit: leaving the view disarms the slider. */
    method MouseExit()
      modifies this`isOverThresholdSlider
      ensures !isOverThresholdSlider
    {
      if isOverThresholdSlider {
        isOverThresholdSlider := false;
      }
    }

    /** updateUnits: take a fresh copy of the engine's box units. */
    method UpdateUnits(newUnits: seq<BoxUnit>)
      modifies this`units
      ensures units == newUnits
    {
      units := newUnits;
    }

    /** findUnitIndexByID: the position of the first unit with this id, or -1. */
    method FindUnitIndexByID(id: int) returns (k: int)
      ensures k == IndexOfUnit(units, id)
    {
      k := 0;
      while k < |units|
        invariant 0 <= k <= |units|
        invariant forall j :: 0 <= j < k ==> units[j].unitId != id
      {
        if units[k].unitId == id {
          return;
        }
        k := k + 1;
      }
      k := -1;
    }

    /** isOverUnitBox: search the units in order, and each unit's boxes in
        order, for the first box whose normalised screen rectangle, grown by
        the tolerance, holds the point; report it and the zone of the point. */
    method IsOverUnitBox(x: real, y: real) returns (found: bool, unitId: int, boxId: int, where: Zone)
      requires Valid()
      ensures found <==> FirstHit(units, x, y, Geometry()).Some?
      ensures found ==>
        var h := FirstHit(units, x, y, Geometry()).value;
        h.unitIndex < |units| && unitId == units[h.unitIndex].unitId && boxId == h.box && where == h.zone
    {
      var v := Geometry();
      var k := 0;
      while k < |units|
        invariant 0 <= k <= |units|
        invariant FirstHit(units, x, y, v) == FirstHitFrom(units, k, 0, x, y, v)
      {
        var b := 0;
        while b < |units[k].boxes|
          invariant 0 <= b <= |units[k].boxes|
          invariant FirstHit(units, x, y, v) == FirstHitFrom(units, k, b, x, y, v)
        {
          var rect := BoxOnScreen(units[k].boxes[b], v);
          if InReach(x, y, rect) {
            return true, units[k].unitId, b, Classify(x, y, rect);
          }
          b := b + 1;
        }
        k := k + 1;
      }
      return false, 0, -1, Nowhere;
    }

    /** The mouse is within the band around the threshold line. */
    predicate OnSliderBand(y: real)
      reads this
      requires range > 0.0
    {
      var h := ThresholdLineY(displayThresholdLevel, height as real, range);
      y > h - 10.0 && y < h + 10.0
    }

    /** The mouse is clear of that band. */
    predicate OffSliderBand(y: real)
      reads this
      requires range > 0.0
    {
      var h := ThresholdLineY(displayThresholdLevel, height as real, range);
      y < h - 10.0 || y > h + 10.0
    }

    /** mouseMove: entering the threshold band arms the slider and leaving it
        disarms it; any other move re-runs the box hit test, whose result
        (or unit 0, box -1, no zone) becomes the hover state. */
    method MouseMove(ex: int, ey: int)
      requires Valid()
      modifies this`isOverThresholdSlider, this`isOverUnit, this`isOverBox, this`strOverWhere
      ensures Valid()
      ensures OnSliderBand(ey as real) && !old(isOverThresholdSlider) ==>
        isOverThresholdSlider && isOverUnit == old(isOverUnit) && isOverBox == old(isOverBox) && strOverWhere == old(strOverWhere)
      ensures OffSliderBand(ey as real) && old(isOverThresholdSlider) ==>
        !isOverThresholdSlider && isOverUnit == old(isOverUnit) && isOverBox == old(isOverBox) && strOverWhere == old(strOverWhere)
      ensures !(OnSliderBand(ey as real) && !old(isOverThresholdSlider)) && !(OffSliderBand(ey as real) && old(isOverThresholdSlider)) ==>
        && isOverThresholdSlider == old(isOverThresholdSlider)
        && match FirstHit(units, ex as real, ey as real, Geometry())
           case None => isOverUnit == 0 && isOverBox == -1 && strOverWhere == Nowhere
           case Some(h) =>
             h.unitIndex < |units| && isOverUnit == units[h.unitIndex].unitId && isOverBox == h.box && strOverWhere == h.zone
    {
      var y := ey as real;
      var h := ThresholdLineY(displayThresholdLevel, height as real, range);
      if y > h - 10.0 && y < h + 10.0 && !isOverThresholdSlider {
        isOverThresholdSlider := true;
      } else if (y < h - 10.0 || y > h + 10.0) && isOverThresholdSlider {
        isOverThresholdSlider := false;
      } else {
        isOverUnit := 0;
        isOverBox := -1;
        strOverWhere := Nowhere;
        var found, unitId, boxId, where := IsOverUnitBox(ex as real, ey as real);
        if found {
          isOverUnit, isOverBox, strOverWhere := unitId, boxId, where;
        }
      }
    }

    /** mouseDown: a right click clears the spike buffer; the position is
        recorded in metric space; over a unit, that unit and box become the
        engine's selection and the grab offset from the box's corner is
        recorded, otherwise the selection is cleared. */
    method MouseDown(ex: int, ey: int, rightButton: bool)
      requires Valid()
      modifies spikeBuffer, this`spikeIndex
      modifies this`mouseDownX, this`mouseDownY, this`mouseOffsetX, this`mouseOffsetY
      modifies this`selectedUnit, this`selectedBox
      ensures Valid()
      ensures Buffer() == if rightButton then SpikeRing.Clear(old(Buffer())) else old(Buffer())
      ensures mouseDownX == ScreenToMetricX(ex as real, Geometry())
      ensures mouseDownY == ScreenToMetricY(ey as real, Geometry())
      ensures isOverUnit > 0 ==> selectedUnit == isOverUnit && selectedBox == isOverBox
      ensures isOverUnit <= 0 ==> selectedUnit == -1 && selectedBox == -1
      ensures
        var k := IndexOfUnit(units, isOverUnit);
        if isOverUnit > 0 && k >= 0 && 0 <= isOverBox < |units[k].boxes| then
          && mouseOffsetX == mouseDownX - units[k].boxes[isOverBox].x
          && mouseOffsetY == mouseDownY - units[k].boxes[isOverBox].y
        else
          mouseOffsetX == old(mouseOffsetX) && mouseOffsetY == old(mouseOffsetY)
    {
      if rightButton {
        Clear();
      }
      var v := Geometry();
      mouseDownX := ScreenToMetricX(ex as real, v);
      mouseDownY := ScreenToMetricY(ey as real, v);
      if isOverUnit > 0 {
        selectedUnit, selectedBox := isOverUnit, isOverBox;
        var indx := FindUnitIndexByID(isOverUnit);
        if indx >= 0 && 0 <= isOverBox < |units[indx].boxes| {
          mouseOffsetX := mouseDownX - units[indx].boxes[isOverBox].x;
          mouseOffsetY := mouseDownY - units[indx].boxes[isOverBox].y;
        }
      } else {
        selectedUnit, selectedBox := -1, -1;
      }
    }

    /** mouseDrag: over a unit, every unit with that id has its hovered box
        edited by the hovered handle; otherwise, with the slider armed, the
        threshold follows the mouse. */
    method MouseDrag(ex: int, ey: int)
      requires Valid()
      modifies this`bDragging, this`units, this`displayThresholdLevel
      ensures Valid() && bDragging
      ensures isOverUnit > 0 ==>
        && units == DragUnits(old(units), isOverUnit, isOverBox, strOverWhere,
                              ScreenToMetricX(ex as real, Geometry()), ScreenToMetricY(ey as real, Geometry()),
                              mouseOffsetX, mouseOffsetY)
        && displayThresholdLevel == old(displayThresholdLevel)
      ensures isOverUnit <= 0 && isOverThresholdSlider ==>
        units == old(units) && displayThresholdLevel == SliderLevel(ey as real, height as real, range)
      ensures isOverUnit <= 0 && !isOverThresholdSlider ==>
        units == old(units) && displayThresholdLevel == old(displayThresholdLevel)
    {
      bDragging := true;
      if isOverUnit > 0 {
        var v := Geometry();
        var x := ScreenToMetricX(ex as real, v);
        var y := ScreenToMetricY(ey as real, v);
        var k := 0;
        while k < |units|
          invariant 0 <= k <= |units| == |old(units)|
          invariant bDragging && displayThresholdLevel == old(displayThresholdLevel)
          invariant forall j :: 0 <= j < |units| ==>
            units[j] == if j < k then DragUnit(old(units)[j], isOverUnit, isOverBox, strOverWhere, x, y, mouseOffsetX, mouseOffsetY)
                        else old(units)[j]
        {
          if units[k].unitId == isOverUnit && 0 <= isOverBox < |units[k].boxes| {
            var b := units[k].boxes[isOverBox];
            units := units[k := units[k].(boxes := units[k].boxes[isOverBox := DragBox(b, strOverWhere, x, y, mouseOffsetX, mouseOffsetY)])];
          }
          k := k + 1;
        }
        assert units == DragUnits(old(units), isOverUnit, isOverBox, strOverWhere, x, y, mouseOffsetX, mouseOffsetY);
      } else if isOverThresholdSlider {
        displayThresholdLevel := SliderLevel(ey as real, height as real, range);
      }
    }

    /** mouseUp: ending a drag hands the edited units back to the engine
        (returned here as the list that would be sent). */
    method MouseUp() returns (sent: Option<seq<BoxUnit>>)
      modifies this`bDragging
      ensures !bDragging
      ensures sent == if old(bDragging) then Some(units) else None
    {
      sent := None;
      if bDragging {
        bDragging := false;
        sent := Some(units);
      }
    }
  }
}
