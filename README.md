# Spike-sorting interaction in SpikeDetectCanvas, in Dafny

This project models the interaction logic of the spike detector's canvas, in `SpikeDetectCanvas.cpp` of the Open Ephys GUI. That file is mostly JUCE widget code. Inside it is a small core of state and geometry, and that core is what the model covers:

- **The waveform view's spike buffer** (`WaveformAxes`). It has five slots and a wrapping index. A counter of the spikes received since the last redraw gates the writes. Once five spikes have arrived without a repaint, further spikes are dropped; nothing is overwritten. `clear` refills the slots and restarts the index at 0. It does not reset the counter. (`spike_ring.dfy` holds the value model; `waveform_axes.dfy` holds the array-based class.)
- **Box units on the waveform view.** Boxes live in metric space: microseconds across, microvolts up. The view spans 40 samples at 30 kHz, which is 4000/3 µs, and ±range/2 µV. The hit test maps each box to pixels, swaps its corners into order and grows it by 10 px. It reports the first box in list order that holds the mouse, together with one of nine zones tested in a fixed order. Dragging edits the hovered box of every unit with the hovered id: each handle moves the edges it owns and "inside" moves the whole box. Dragging the threshold line sets the threshold from the mouse height, clamped to ±1 of the view height. (`waveform_geometry.dfy`, `waveform_axes.dfy`)
- **Per-channel range buttons** (`SpikeHistogramPlot`). Each button cycles its channel through 250 → 500 → 100 → 250 µV, then pushes every range to its waveform view. The plot also hands each spike to every channel's view, clears them all, and sets one channel's threshold. (`histogram_plot.dfy`)
- **`GenericDrawAxes::roundUp`**, with C++'s truncating `%`. (`draw_axes.dfy`)
- **The PCA projection view** (`PCAProjectionAxes`).
  - The shown rectangle is held as `pcaMin`/`pcaMax` arrays. Dragging pans it, and the "-" and "+" buttons zoom it by 10 % on each side.
  - Dragging the hovered, selected unit moves its polygon's offset.
  - In drawing mode, dragging captures pixels more than 6 px apart (squared distance over 36). Mouse-up maps the captured pixels into the plane and appends the new unit.
  - (`pca_geometry.dfy`, `pca_axes.dfy`)

Floats are modelled as reals and mouse coordinates as integers. The spike sorter these views talk to is not part of the model. The selected (unit, box) pair belongs to the sorter, one per electrode, shared by all of that electrode's views; the model gives each view its own copy, as the fields `selectedUnit`/`selectedBox`. Calls that hand state to the sorter become return values: `MouseUp` returns the units it would send. The new unit's id, which the sorter hands out, becomes the parameter `newUnitId`; the polygon test `PCAUnit::isPointInsidePolygon` becomes the parameter `inside`.

The model follows the code in these places, where it may behave differently from what a reader expects:

- `clear` keeps the counter of spikes since the last redraw.
- A saturated buffer drops new spikes rather than overwriting the oldest.
- The polygon commit accepts any number of captured points, even zero.
- On a box at most 10 px wide or tall, a corner can take the zone of a neighbouring corner that is tested earlier: on a narrow box the left edge wins, on a short box the top edge wins. So on a wide, short box the bottom-right corner is TopRight (`CornerZones`).
- Pressing Escape ends drawing but keeps the captured pixels. The next drawing's first mouse-down appends to them (`KeyPressed`, `MouseDown`).

## Model

| member | source | states |
|---|---|---|
| DrawAxes.CppRem | Source/Processors/Visualization/SpikeDetectCanvas.cpp:807 | The C++ remainder is smaller in magnitude than the divisor, has the dividend's sign, and differs from the dividend by a multiple of the divisor |
| DrawAxes.RoundUp | Source/Processors/Visualization/SpikeDetectCanvas.cpp:800-811 | A zero multiple returns the number unchanged; any other multiple returns a multiple of it; a positive multiple returns a value at or above the number and less than two multiples above it |
| DrawAxes.RoundUpKeepsMultiples | Source/Processors/Visualization/SpikeDetectCanvas.cpp:800-811 | A number already divisible by the multiple comes back unchanged, for either sign of either |
| DrawAxes.RoundUpIsLeastMultiple | Source/Processors/Visualization/SpikeDetectCanvas.cpp:800-811 | For numToRound >= 0 and multiple > 0, the result is the least multiple of `multiple` at or above numToRound |
| DrawAxes.RoundUpNegativeOvershoots | Source/Processors/Visualization/SpikeDetectCanvas.cpp:800-811 | For a negative non-multiple, the truncating remainder makes the result one multiple above the least one (RoundUp(-3, 5) == 5) |
| SpikeRing.Initial | Source/Processors/Visualization/SpikeDetectCanvas.cpp:848-880 | The constructed buffer is valid, holds five empty spikes, has index 0, counts zero and has seen no spike |
| SpikeRing.Push | Source/Processors/Visualization/SpikeDetectCanvas.cpp:965-988 | Below five spikes since the redraw, exactly slot (index+1) mod 5 is overwritten, it becomes the index and the counter rises by one; at five, nothing but gotFirstSpike changes; index stays in [0,5) and the counter at most 5 |
| SpikeRing.Clear | Source/Processors/Visualization/SpikeDetectCanvas.cpp:1009-1024 | All five slots are empty spikes and the index is 0; the counter and gotFirstSpike are kept |
| SpikeRing.Redraw | Source/Processors/Visualization/SpikeDetectCanvas.cpp:1413-1436 | After the first spike, painting zeroes the counter and changes nothing else |
| SpikeRing.PushAll | Source/Processors/Visualization/SpikeDetectCanvas.cpp:965-988 | A run of spikes with no redraw raises the counter by the number that fit, capped at 5, and marks a spike seen iff one arrived or one had been seen |
| SpikeRing.PushAllEffect | Source/Processors/Visualization/SpikeDetectCanvas.cpp:965-988 | A run of spikes with no redraw keeps only the first 5 - counter of them, each in the slots after the index in turn; the other slots keep their spikes |
| SpikeRing.PushAllDropsOverflow | Source/Processors/Visualization/SpikeDetectCanvas.cpp:972-984 | Pushing a long run equals pushing only the spikes that still fit |
| SpikeRing.RedrawReopens | Source/Processors/Visualization/SpikeDetectCanvas.cpp:1436 | After a redraw the next five spikes all land, one in each slot |
| WaveformGeometry.ScreenToMetricRoundTrip | Source/Processors/Visualization/SpikeDetectCanvas.cpp:1083-1084 | A pixel mapped to metric space and back by the box map is the same pixel |
| WaveformGeometry.MetricToScreenRoundTrip | Source/Processors/Visualization/SpikeDetectCanvas.cpp:1277-1281 | A metric point mapped to pixels and back by the mouse map is the same point |
| WaveformGeometry.BoxOnScreen | Source/Processors/Visualization/SpikeDetectCanvas.cpp:1277-1286 | The normalised rectangle has ordered corners which are the mapped box corners |
| WaveformGeometry.FlippedBoxSameRect | Source/Processors/Visualization/SpikeDetectCanvas.cpp:1283-1286 | A box described from its opposite corner gives the same screen rectangle |
| WaveformGeometry.Classify | Source/Processors/Visualization/SpikeDetectCanvas.cpp:1293-1336 | The nine-way zone chain equals choosing left over right and top over bottom, then combining; it never yields no zone |
| WaveformGeometry.CornerZones | Source/Processors/Visualization/SpikeDetectCanvas.cpp:1293-1312 | The top-left corner is always top-left; each other corner is itself iff the box is wider (taller) than the 10 px tolerance; otherwise the earlier-tested neighbour's zone is reported, for each of the degenerate shapes |
| WaveformGeometry.FirstHitFrom | Source/Processors/Visualization/SpikeDetectCanvas.cpp:1273-1341 | A hit resumed at (unit k, box b) is a box in reach at or after (k, b), with that box's zone |
| WaveformGeometry.FirstHit | Source/Processors/Visualization/SpikeDetectCanvas.cpp:1273-1341 | A hit is a box in reach, with that box's zone |
| WaveformGeometry.FirstHitMeaning | Source/Processors/Visualization/SpikeDetectCanvas.cpp:1273-1341 | No hit iff no box is in reach; otherwise the hit is in reach, carries its zone, and no box before it in list order is in reach |
| WaveformGeometry.FirstHitFromSpec | Source/Processors/Visualization/SpikeDetectCanvas.cpp:1273-1341 | The same, for the search resumed at any unit and box |
| WaveformGeometry.IndexOfUnit | Source/Processors/Visualization/SpikeDetectCanvas.cpp:1062-1068 | The first position holding the id, or -1 exactly when no unit has it |
| WaveformGeometry.DragBox | Source/Processors/Visualization/SpikeDetectCanvas.cpp:1138-1194 | Each handle puts the edges it owns under the mouse and keeps the opposite edges; "inside" moves the corner to mouse minus offset and keeps the size; uninvolved coordinates are unchanged |
| WaveformGeometry.InsideDragFollowsMouse | Source/Processors/Visualization/SpikeDetectCanvas.cpp:1090-1091 | With the offset from mouse-down, an inside drag moves the box by exactly the mouse's displacement |
| WaveformGeometry.DragUnits | Source/Processors/Visualization/SpikeDetectCanvas.cpp:1136-1199 | Only box isOverBox of units with the hovered id changes, by DragBox; ids and box counts are kept |
| WaveformGeometry.SliderPosition | Source/Processors/Visualization/SpikeDetectCanvas.cpp:1205-1210 | The height fraction, clamped to [-1, 1] |
| WaveformGeometry.SliderLevel | Source/Processors/Visualization/SpikeDetectCanvas.cpp:1213 | The dragged threshold lies in [-range/2, 3 range/2] |
| WaveformGeometry.SliderFollowsMouse | Source/Processors/Visualization/SpikeDetectCanvas.cpp:1033 | Within one view height, the threshold line is drawn and detected exactly at the mouse |
| WaveformGeometry.SliderLevelMonotone | Source/Processors/Visualization/SpikeDetectCanvas.cpp:1205-1213 | Lower on screen gives a lower threshold |
| WaveformGeometry.BoxThickness | Source/Processors/Visualization/SpikeDetectCanvas.cpp:1369-1375 | 3 iff the box is the selected one, 2 iff it is hovered and not selected, else 1 |
| Waveform.WaveformAxes.constructor | Source/Processors/Visualization/SpikeDetectCanvas.cpp:848-880 | Five empty spikes, range 250, threshold 0, nothing hovered or dragged |
| Waveform.WaveformAxes.UpdateSpikeData | Source/Processors/Visualization/SpikeDetectCanvas.cpp:965-988 | The array, index, counter and flag become Push of the old buffer; returns true |
| Waveform.WaveformAxes.Clear | Source/Processors/Visualization/SpikeDetectCanvas.cpp:1009-1024 | The array and index become Clear of the old buffer |
| Waveform.WaveformAxes.Paint | Source/Processors/Visualization/SpikeDetectCanvas.cpp:1413-1436 | The buffer becomes Redraw of the old buffer |
| Waveform.WaveformAxes.SetRange | Source/Processors/Visualization/SpikeDetectCanvas.cpp:882-888 | The range becomes r |
| Waveform.WaveformAxes.SetDetectorThreshold | Source/Processors/Visualization/SpikeDetectCanvas.cpp:1254-1257 | The displayed threshold becomes t |
| Waveform.WaveformAxes.MouseExit | Source/Processors/Visualization/SpikeDetectCanvas.cpp:1239-1247 | The slider is disarmed |
| Waveform.WaveformAxes.UpdateUnits | Source/Processors/Visualization/SpikeDetectCanvas.cpp:1394-1397 | The units become the given list |
| Waveform.WaveformAxes.FindUnitIndexByID | Source/Processors/Visualization/SpikeDetectCanvas.cpp:1062-1068 | The loop returns IndexOfUnit: the first position with the id, or -1 |
| Waveform.WaveformAxes.IsOverUnitBox | Source/Processors/Visualization/SpikeDetectCanvas.cpp:1261-1344 | Found iff FirstHit finds a box; then the unit id, box index and zone are FirstHit's |
| Waveform.WaveformAxes.MouseMove | Source/Processors/Visualization/SpikeDetectCanvas.cpp:1026-1060 | Entering the ±10 px band arms the slider, leaving it disarms it, otherwise the hover state becomes FirstHit's result or (0, -1, none) |
| Waveform.WaveformAxes.MouseDown | Source/Processors/Visualization/SpikeDetectCanvas.cpp:1070-1103 | A right click clears the buffer; the mouse is stored in metric space; the hovered (unit, box) or (-1, -1) becomes the selection; the grab offset is taken from the hovered box |
| Waveform.WaveformAxes.MouseDrag | Source/Processors/Visualization/SpikeDetectCanvas.cpp:1121-1213 | Marks dragging; over a unit the units become DragUnits of the old units; otherwise an armed slider sets the threshold to SliderLevel |
| Waveform.WaveformAxes.MouseUp | Source/Processors/Visualization/SpikeDetectCanvas.cpp:1106-1119 | Ending a drag returns the units to send and clears the flag; otherwise nothing is sent |
| HistogramPlot.Click | Source/Processors/Visualization/SpikeDetectCanvas.cpp:611-638 | The pressed channel advances one step of the cycle, every other channel keeps its range, and an index naming no button changes nothing |
| HistogramPlot.NextRange | Source/Processors/Visualization/SpikeDetectCanvas.cpp:618-632 | A range of the cycle moves to a different range of the cycle; any other value is kept |
| HistogramPlot.Clicks | Source/Processors/Visualization/SpikeDetectCanvas.cpp:611-638 | Any presses keep the number of channels, keep ranges of the cycle in the cycle, and leave every channel whose button is never pressed at its range |
| HistogramPlot.NextRangeCycles | Source/Processors/Visualization/SpikeDetectCanvas.cpp:618-632 | Every range of the cycle moves to a different range of the cycle |
| HistogramPlot.ThreeClicksReturn | Source/Processors/Visualization/SpikeDetectCanvas.cpp:618-632 | Three presses of one button restore all ranges |
| HistogramPlot.ClicksStayInRange | Source/Processors/Visualization/SpikeDetectCanvas.cpp:545 | From ranges in {100, 250, 500}, any presses keep every range there |
| HistogramPlot.ClicksOnOthers | Source/Processors/Visualization/SpikeDetectCanvas.cpp:611-638 | Presses on other buttons never change a channel's range |
| HistogramPlot.SpikeHistogramPlot.constructor | Source/Processors/Visualization/SpikeDetectCanvas.cpp:534-557 | One new waveform view per channel, each with its own new spike buffer (no two channels share a view or a buffer), with its threshold; every range 250; views in sync |
| HistogramPlot.SpikeHistogramPlot.SetLimitsOnAxes | Source/Processors/Visualization/SpikeDetectCanvas.cpp:640-648 | Every view's range equals its channel's range; only the views' ranges are written, so their buffers, units and thresholds are kept |
| HistogramPlot.SpikeHistogramPlot.ButtonClicked | Source/Processors/Visualization/SpikeDetectCanvas.cpp:611-638 | The ranges become Click of the old ranges; the label is the new range's text, or empty for an unknown button; the views are in sync, and only the ranges and the views' ranges are written |
| HistogramPlot.SpikeHistogramPlot.ProcessSpikeObject | Source/Processors/Visualization/SpikeDetectCanvas.cpp:508-521 | Every channel's buffer becomes Push of its old buffer with the spike, each exactly once |
| HistogramPlot.SpikeHistogramPlot.Clear | Source/Processors/Visualization/SpikeDetectCanvas.cpp:684-694 | Every channel's buffer becomes Clear of its old buffer |
| HistogramPlot.SpikeHistogramPlot.SetDisplayThresholdForChannel | Source/Processors/Visualization/SpikeDetectCanvas.cpp:698-705 | Channel i's view shows the new threshold; every other channel keeps its threshold; an unknown channel changes nothing |
| PcaGeometry.ScreenToPcaRoundTrip | Source/Processors/Visualization/SpikeDetectCanvas.cpp:1825-1826 | A pixel mapped into the plane is drawn back at that pixel |
| PcaGeometry.PcaToScreenRoundTrip | Source/Processors/Visualization/SpikeDetectCanvas.cpp:1523-1524 | A plane point drawn and then pointed at is the same point |
| PcaGeometry.PanView | Source/Processors/Visualization/SpikeDetectCanvas.cpp:1731-1740 | Panning keeps both widths |
| PcaGeometry.PanViewKeepsGrabbedPoint | Source/Processors/Visualization/SpikeDetectCanvas.cpp:1731-1744 | After a pan, the plane point under the mouse is the one that was under the previous position |
| PcaGeometry.PanUnit | Source/Processors/Visualization/SpikeDetectCanvas.cpp:1712-1720 | Moving a unit keeps its id and vertices and changes only its offset |
| PcaGeometry.PanUnitFollowsMouse | Source/Processors/Visualization/SpikeDetectCanvas.cpp:1712-1720 | Every vertex of the moved unit is drawn exactly the drag's pixels further on |
| PcaGeometry.ZoomOut | Source/Processors/Visualization/SpikeDetectCanvas.cpp:1874-1883 | Both widths become 1.2 times as large, centres are kept, a non-empty view stays non-empty |
| PcaGeometry.ZoomIn | Source/Processors/Visualization/SpikeDetectCanvas.cpp:1885-1895 | Both widths become 0.8 times as large, centres are kept, a non-empty view stays non-empty |
| PcaGeometry.Zooms | Source/Processors/Visualization/SpikeDetectCanvas.cpp:1872-1896 | Any sequence of zoom presses keeps the centre of both axes |
| PcaGeometry.ZoomsKeepCentre | Source/Processors/Visualization/SpikeDetectCanvas.cpp:1872-1896 | Any sequence of zoom presses keeps a non-empty view non-empty and centred where it was |
| PcaGeometry.CaptureStep | Source/Processors/Visualization/SpikeDetectCanvas.cpp:1749-1762 | A drag point is recorded, and becomes the last point, iff it is more than 6 px from the last point; otherwise nothing changes |
| PcaGeometry.CaptureAll | Source/Processors/Visualization/SpikeDetectCanvas.cpp:1749-1762 | A run of drag points keeps the points already captured and adds at most one per drag point |
| PcaGeometry.CaptureAllSpread | Source/Processors/Visualization/SpikeDetectCanvas.cpp:1749-1762 | Dragging keeps consecutive captured points more than 6 px apart, ends them at the last recorded point, never alters earlier points and adds only dragged-over points |
| PcaGeometry.CaptureStartsAtMouseDown | Source/Processors/Visualization/SpikeDetectCanvas.cpp:1840-1849 | A capture begun on an empty list starts at the mouse-down point, and a drag that stays within 6 px records nothing more |
| PcaGeometry.Commit | Source/Processors/Visualization/SpikeDetectCanvas.cpp:1786-1798 | One vertex per captured pixel |
| PcaGeometry.CommitDrawnWhereCaptured | Source/Processors/Visualization/SpikeDetectCanvas.cpp:1794-1798 | Each committed vertex is drawn exactly at the pixel it was captured at |
| PcaGeometry.IndexOfUnit | Source/Processors/Visualization/SpikeDetectCanvas.cpp:1699-1708 | The first position holding the id, or -1 exactly when no unit has it |
| PcaGeometry.IndexInside | Source/Processors/Visualization/SpikeDetectCanvas.cpp:1819-1832 | The first unit whose polygon holds the point, or -1 exactly when none does |
| PcaGeometry.UnitThickness | Source/Processors/Visualization/SpikeDetectCanvas.cpp:1512-1518 | 3 iff the unit is selected, 2 iff hovered and not selected, else 1 |
| PcaProjection.PcaProjectionAxes.constructor | Source/Processors/Visualization/SpikeDetectCanvas.cpp:1446-1472 | An empty rectangle at the origin, not set, not drawing, nothing hovered, no units |
| PcaProjection.PcaProjectionAxes.SetPCARange | Source/Processors/Visualization/SpikeDetectCanvas.cpp:1638-1649 | The rectangle becomes the given one, marked set and to be redrawn |
| PcaProjection.PcaProjectionAxes.SetPolygonDrawingMode | Source/Processors/Visualization/SpikeDetectCanvas.cpp:1485-1496 | Drawing mode becomes `on` |
| PcaProjection.PcaProjectionAxes.UpdateUnits | Source/Processors/Visualization/SpikeDetectCanvas.cpp:1498-1501 | The units become the given list |
| PcaProjection.PcaProjectionAxes.MouseDown | Source/Processors/Visualization/SpikeDetectCanvas.cpp:1838-1856 | The position is recorded; while drawing a new unit starts and the point is appended to the capture; otherwise the hovered unit or nothing is selected |
| PcaProjection.PcaProjectionAxes.FindUnit | Source/Processors/Visualization/SpikeDetectCanvas.cpp:1699-1708 | The loop returns IndexOfUnit |
| PcaProjection.PcaProjectionAxes.DragSelectedUnit | Source/Processors/Visualization/SpikeDetectCanvas.cpp:1697-1724 | The first unit with the selected id becomes PanUnit of it by the drag; the sorter is flagged for update |
| PcaProjection.PcaProjectionAxes.DragView | Source/Processors/Visualization/SpikeDetectCanvas.cpp:1726-1747 | The rectangle becomes PanView of the old one by the drag |
| PcaProjection.PcaProjectionAxes.DragCapture | Source/Processors/Visualization/SpikeDetectCanvas.cpp:1749-1762 | The capture and last point become CaptureStep of the old ones |
| PcaProjection.PcaProjectionAxes.MouseDrag | Source/Processors/Visualization/SpikeDetectCanvas.cpp:1687-1764 | Drawing captures by CaptureStep and leaves the view, units and both flags alone; over the selected unit it moves that unit by PanUnit, flags the sorter and leaves the redraw flag alone; otherwise the view pans by PanView, is flagged for redraw and the sorter flag is left alone |
| PcaProjection.PcaProjectionAxes.MouseUp | Source/Processors/Visualization/SpikeDetectCanvas.cpp:1766-1814 | A pending move returns the units to send; drawing ends, the new unit with Commit's vertices is appended and returned once, and the capture empties |
| PcaProjection.PcaProjectionAxes.MouseMove | Source/Processors/Visualization/SpikeDetectCanvas.cpp:1817-1835 | The hovered id is that of IndexInside at the mouse's plane point, or -1 |
| PcaProjection.PcaProjectionAxes.KeyPressed | Source/Processors/Visualization/SpikeDetectCanvas.cpp:1859-1870 | Escape while drawing ends drawing and is handled; anything else is not; the capture is kept |
| PcaProjection.PcaProjectionAxes.ButtonClicked | Source/Processors/Visualization/SpikeDetectCanvas.cpp:1872-1896 | The rectangle becomes ZoomOut ("-") or ZoomIn ("+") of the old one and is marked set |

## Left out

- Drawing, layout, cursors, colours and repaint requests (`paint` apart from its counter reset, `plotSpike`, `drawBoxes`, `drawUnit`, `drawThresholdSlider`, `drawWaveformGrid`, `resized`) draw pixels and hold no state of interest.
- The critical sections (`mut.enter()`/`mut.exit()`) are left out. The model is single-threaded.
- The sorter's own operations are calls into code outside this file. These are `updateBoxUnits`, `updatePCAUnits`, `addPCAunit`, `generateUnitID` and `getUnitColor`. They become return values and parameters.
- The "NewUnit" network event is not modelled.
- The editor updates made while dragging the threshold are calls into code outside this file. So is the write of the threshold into the processor's electrode.
- `PCAUnit::isPointInsidePolygon` is defined outside this file. It is the parameter `inside` of `MouseMove`.
- The PCA spike buffer (`updateSpikeData`, `clear`, the counter in its `paint`) is not modelled. `clear` empties the array without refilling it, so later writes depend on JUCE `Array::set` behaviour outside this file. A right click on the PCA view is therefore modelled only by the redraw flag it sets, and the plot's `processSpikeObject` and `clear` are modelled on the waveform views only.
- `makeLabel`, `ad16ToUv` and `checkThreshold` are text formatting and ADC conversion, not interaction logic.
- Floating-point rounding is not modelled: all equalities hold over the reals.
- DrawAxes.RoundUp: 32-bit overflow of `numToRound + multiple - remainder` is not modelled.
- Waveform.WaveformAxes.MouseDown: the source indexes the unit and box without checking them. The model leaves the grab offset unchanged when either is missing.
- Waveform.WaveformAxes.MouseDrag: the source indexes box isOverBox of a unit without checking it. The model leaves a unit with too few boxes unchanged.
- PcaProjection.PcaProjectionAxes.DragSelectedUnit: the source writes to the unit without checking that one was found. The model leaves the units unchanged when none has the id.
- The empty spike of `generateEmptySpike`, which is defined outside this file, stands as a fixed placeholder value `EmptySpike`.
- A default `cPolygon`'s offset is taken to be the origin. `cPolygon` is not part of this model.
- Waveform.WaveformAxes.constructor: takes the view's size as parameters, which the source gets later from layout.
- Waveform.WaveformAxes.constructor and PcaProjection.PcaProjectionAxes.constructor: the initial selection pair belongs to the sorter; the model starts it at (-1, -1).
- The selection is one pair per electrode, held by the sorter and shared by the plot's views. The model keeps a copy per view, and a selection made in one view is not seen by the others; the sorter is not part of this model.
- View sizes and the waveform range are required to be positive, where the source would divide by zero.
- HistogramPlot.SpikeHistogramPlot.SetDisplayThresholdForChannel: the source tests only `i < wAxes.size()`, so a negative channel would index out of bounds; the model ignores it like a channel past the last.
- The plot's PCA view set-up in `initAxes` is not modelled, and neither are `select`, `deselect` and `initLimits`.
