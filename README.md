# leaflet-measure-area: the area-measurement controller in Dafny

This project models `L.MeasureArea`, the controller of the leaflet-measure-area
plugin. When the drawing toolkit reports a finished shape, the controller
computes the shape's area, puts an area label and a delete button ("X") on the
map, and records the three objects in its registry `drawnLayers`. A click on a
delete button removes the shape, the button and, if the shape is still
registered, its label and registry entry. `switchUnit` cycles the display unit
through square kilometres, square miles and square nautical miles and relabels
every shape. `clearAll` removes everything the registry holds, and
`getMeasurements` reports one record per registered shape.

Files and modules:

- `units.dfy`, module `MeasureUnits`: the three unit names, their conversion
  factors from square metres (1e6, 2589988.11, 3429904), their symbols (km²,
  mi², nmi²), and the wrap-around advance of the unit index.
- `area.dfy`, module `Area`: coordinates, the observable shape of a layer
  (circle, polygon, polyline, other), the branch that yields the raw area, and
  the label text (amount in the current unit plus symbol).
- `leaflet.dfy`, module `Leaflet`: the library objects the controller handles.
  Layers and markers are objects, so "same layer" means "same reference", as
  with `===` in the source. The map is reduced to a ghost set of the objects
  currently shown on it. `addTo`/`addLayer` inserts into it and `removeLayer`
  deletes from it.
- `registry.dfy`, module `Registry`: registry entries and the list operations
  the controller performs on them, given as functions with lemmas. These are
  `findIndex` by reference, `splice(index, 1)`, the set of objects the registry
  shows, and the `map` that builds the measurement report.
- `measure_area.dfy`, module `Measure`: the class `MeasureArea`. It has the
  fields `drawnLayers` (a sequence the methods reassign) and `currentUnitIndex`,
  and one method per source operation that changes state. Its invariant
  `Valid()` says that the unit index is 0, 1 or 2. It also says that every
  entry holds a drawn layer, a delete button at the layer's first point, and an
  area label at the layer's centre that shows the layer's area in the current
  unit.

Two points where the code does less than one might expect of the plugin; the
model follows the code:

- One might expect the registry never to hold two entries for one shape. The
  code does not check this. It relies on every completed drawing delivering a new
  layer. `HandleDrawComplete` therefore takes "not yet registered" as a
  precondition. `Valid()` does not claim distinctness. The methods only carry
  "distinct before implies distinct after", and the delete handler splices out
  the first matching entry only.
- One might expect any polygon or line with at least two points to be
  measured. In the code, a flat polyline's `getLatLngs()[0]` is a single
  coordinate with no `length`, so a flat polyline's area is always 0
  (`Area.RawArea`). A multi-polyline, whose coordinates nest one level deeper,
  would have its first line measured as if it were a ring; multi-polylines are
  not among the modelled shapes (see "Left out").

## Model

| member | source | states |
|---|---|---|
| `MeasureUnits.TablesCoverUnits` | leaflet-measure.js:35-50 | every unit in the list has a conversion factor, which is positive, and a symbol, so the lookups in `calculateArea` are always defined and never divide by zero |
| `MeasureUnits.Factor` | leaflet-measure.js:39-43 | the conversion factor of any valid unit index is positive |
| `MeasureUnits.Symbol` | leaflet-measure.js:46-50 | the symbol of any valid unit index is one of the table's symbols |
| `MeasureUnits.SymbolIdentifiesUnit` | leaflet-measure.js:35-50 | two unit indices have the same name, and the same symbol, exactly when they are equal |
| `MeasureUnits.NextUnitIndex` | leaflet-measure.js:225 | one switch moves to the next unit in the list and wraps from the last unit to the first, so the index stays in 0..2 |
| `MeasureUnits.SwitchTimes` | leaflet-measure.js:225 | any number of consecutive switches keeps the unit index in 0..2 |
| `MeasureUnits.SwitchTimesIsModular` | leaflet-measure.js:225 | n consecutive switches move the index from i to (i + n) mod 3 |
| `MeasureUnits.SwitchTimesRestores` | leaflet-measure.js:225 | n switches bring back the original unit exactly when n is a multiple of three, so three switches restore it |
| `MeasureUnits.ThreeSwitchesVisitAllUnits` | leaflet-measure.js:224-226 | three consecutive switches show each of the three units once |
| `Area.RawArea` | leaflet-measure.js:159-174 | a layer that is not a circle or a polygon whose first ring has more than one point has raw area 0; a circle's area is never negative; a measured polygon's area is the geodesic area of its first ring only |
| `Area.UnmeasurableHasZeroArea` | leaflet-measure.js:164-174 | raw area 0 in each unmeasured case: a layer without `getLatLngs`, a flat polyline, a polygon with no rings, and a polygon whose first ring has at most one point |
| `Area.CircleAreaFromRadiusOnly` | leaflet-measure.js:161-163 | a circle's area is never negative, and two circles with the same radius have the same area whatever their centres and whatever the geodesic utility |
| `Area.Text` | leaflet-measure.js:176-178 | the label's suffix is the symbol of the unit at the given index, and its amount is the raw area expressed in that unit (amount × factor = raw area) |
| `Area.ZeroAreaText` | leaflet-measure.js:170-178 | a zero raw area reads as amount 0 in every unit |
| `Area.TextRescales` | leaflet-measure.js:176-178 | the same layer shown in two units has amounts related by the ratio of the two factors, and the symbols differ unless the units are the same |
| `Area.KilometreCircle` | leaflet-measure.js:161-178 | a circle of radius 1000 m in square kilometres shows amount π with suffix km² |
| `Registry.FindIndex` | leaflet-measure.js:134 | the result is -1 exactly when no entry holds the layer; otherwise it is the position of the first entry that holds the layer |
| `Registry.Splice` | leaflet-measure.js:140 | removing position i leaves one entry fewer; the entries before i stay in place, the entries after i move up by one, and the multiset loses exactly the entry at i |
| `Registry.RemoveFirst` | leaflet-measure.js:134-141 | an unregistered layer leaves the registry unchanged; a registered one shortens it by one; no entry is added, and every entry holding another layer stays |
| `Registry.RemoveFirstAbsent` | leaflet-measure.js:134-135 | a delete click on an unregistered layer leaves the registry unchanged |
| `Registry.RemoveFirstPresent` | leaflet-measure.js:134-141 | a delete click on a registered layer cuts out exactly the first entry holding it, and the other entries keep their relative order |
| `Registry.RemoveFirstDistinct` | leaflet-measure.js:134-141 | when layers are distinct, a delete click leaves the layer unregistered, keeps every other entry, keeps layers distinct, and shortens the registry by one exactly when the layer was registered |
| `Registry.AppendKeepsDistinct` | leaflet-measure.js:91-95 | appending an entry for a layer that is not yet registered keeps layers distinct |
| `Registry.ObjectsMembership` | leaflet-measure.js:255-260 | the objects a full clear removes are exactly the layers, delete buttons and area labels of the entries |
| `Registry.AreaMarkersMembership` | leaflet-measure.js:215-220 | the area labels of a registry are exactly the entries' `areaMarker` values |
| `Registry.AreaMarkersExtend` | leaflet-measure.js:211-220 | visiting one more entry adds exactly that entry's area label to the labels visited so far |
| `Registry.ReplaceLabelStep` | leaflet-measure.js:211-220 | removing one entry's old label and adding its new one extends "old labels of the visited entries replaced by their new labels" by that entry, provided the old label is not one of the new ones |
| `Registry.OutlineOf` | leaflet-measure.js:272-274 | a circle reports exactly its centre and radius, and a polygon reports exactly its coordinate rings |
| `Registry.Measurements` | leaflet-measure.js:267-276 | the report has one record per entry, in registry order, with the entry's layer, its area text in the given unit, and its outline (centre and radius of a circle, or the rings of a polygon); an empty registry gives an empty report |
| `Measure.DeleteAnchor` | leaflet-measure.js:100-108 | a delete button goes at a circle's centre, or at the first vertex of a polygon's first ring |
| `Measure.LabelAnchor` | leaflet-measure.js:183-190 | an area label goes at a circle's centre, or, for any other layer, at the centre of that layer's bounds |
| `Measure.MeasureArea.constructor` | leaflet-measure.js:27-53 | a new controller has an empty registry and the first unit (square kilometres) |
| `Measure.MeasureArea.GetCurrentUnit` | leaflet-measure.js:234-236 | the current unit's name has both a conversion factor and a symbol |
| `Measure.MeasureArea.CalculateArea` | leaflet-measure.js:158-179 | the text's suffix is the current unit's symbol, and its amount is the layer's raw area divided by the current unit's factor |
| `Measure.MeasureArea.CreateAreaMarker` | leaflet-measure.js:181-208 | a new label showing the text is placed at the circle's centre or, for any other layer, the centre of its bounds, and it is added to the map |
| `Measure.MeasureArea.CreateDeleteButton` | leaflet-measure.js:98-123 | a new "X" button is placed at the circle's centre or the polygon's first vertex, and it is added to the map |
| `Measure.MeasureArea.HandleDrawComplete` | leaflet-measure.js:78-96 | exactly one entry is appended, holding the layer, a new delete button and a new label that shows the area in the current unit; earlier entries and the unit are unchanged; the map gains exactly the two markers |
| `Measure.MeasureArea.OnDeleteClick` | leaflet-measure.js:126-141 | the layer and its button always leave the map; if the layer is registered, its first entry is spliced out and that entry's label leaves the map; otherwise the registry is unchanged |
| `Measure.MeasureArea.RelabelEntry` | leaflet-measure.js:212-219 | one entry's old label leaves the map and a new label at the layer's centre, showing its area in the current unit, joins it; the layer and the delete button are kept |
| `Measure.MeasureArea.UpdateAllAreasDisplay` | leaflet-measure.js:210-222 | the registry keeps its length and each entry's layer and delete button; each label is replaced by a new one that shows the current unit; the old labels leave the map and the new labels join it |
| `Measure.MeasureArea.SwitchUnit` | leaflet-measure.js:224-232 | the unit index becomes (old + 1) mod 3; the returned name equals what `GetCurrentUnit` gives afterwards; every label is replaced to show the new unit |
| `Measure.MeasureArea.ClearAll` | leaflet-measure.js:253-265 | the registry becomes empty; every layer, delete button and area label it held leaves the map; nothing else on the map changes |
| `Measure.MeasureArea.GetMeasurements` | leaflet-measure.js:267-277 | one record per entry, in registry order, with the entry's layer, its outline, and its area text as `calculateArea` computes it now; under `Valid()` that text is also exactly what the entry's label shows on the map |

## Left out

- Floating-point arithmetic: areas are exact reals. π is the decimal value of the host constant. The circle area is π·r², and the conversion is an exact division. Rounding and differences from IEEE doubles are not modelled.
- `toFixed(2)` formatting: the label text is an amount plus a symbol (`Area.AreaText`), not a two-decimal string.
- The geodesic ring area comes from an external geometry utility. It is a function parameter of the controller (`geodesicArea`), so its algorithm is not modelled.
- The centre of a layer's bounds is computed by the mapping library. It is kept symbolic (`Leaflet.BoundsCenter`).
- Multi-polygons and multi-polylines, whose coordinate lists nest one level deeper, are not among the modelled shapes. For a multi-polyline the source would measure its first line as a ring.
- Option merging (`L.setOptions`), the default options and the commented-out toolbar setup are library glue with no behaviour to state.
- `_init`, which sets the drawing toolkit's language and subscribes to draw-complete events, is left out. The event delivery is modelled by calling `HandleDrawComplete` directly.
- `startDraw`, `stopDraw` and the `isDrawing` flag only switch the external drawing mode on and off, so they are left out.
- `addStyles` injects a stylesheet into the browser document. It is UI and browser I/O.
- The hover cursor change, `stopPropagation` on the click event, and marker z-index offsets are rendering concerns.
- The unit list and the factor and symbol tables are per-instance fields in the source. They are never changed, so they are module constants here.
- The source tests `if (item.areaMarker)` before removing a label. A label is always created together with its entry, so the test always passes and the model removes the label unconditionally.
- Measure.MeasureArea.HandleDrawComplete: requires that the layer is not yet registered. The source assumes this without checking it.
- Measure.MeasureArea.HandleDrawComplete: requires a drawn circle or polygon whose first ring has a first vertex, so a polyline, a point marker and a polygon without vertices are excluded. For a polyline the source labels the layer at leaflet-measure.js:85 and then throws while placing the delete button (leaflet-measure.js:106-107 reads a first vertex that a flat coordinate list does not have; leaflet-measure.js:118-123 places a marker there), so the label is left orphaned on the map and no entry is registered. A point marker and a polygon without vertices have no usable bounds, so the source throws earlier, at leaflet-measure.js:188-189, before any label is added. These error paths are not modelled.
- Measure.MeasureArea.CreateDeleteButton: requires a drawn circle or polygon whose first ring has a first vertex. For a polyline, a point marker or a polygon without vertices, the source throws at leaflet-measure.js:106-107 or leaflet-measure.js:118-123; this error path is not modelled.
- A layer's geometry is fixed once drawn (`Leaflet.Layer.geometry` is a constant). In the source a layer is a live object: `calculateArea` (leaflet-measure.js:161-168) and `getMeasurements` (leaflet-measure.js:271-274) read its current geometry, while the label and the delete button are placed once (leaflet-measure.js:85-88) and labels are only redone on a unit switch (leaflet-measure.js:229). Edits or drags by the drawing toolkit (the `editMode`, `dragMode` and `cutPolygon` options, leaflet-measure.js:14-16) would leave the label stale and the button misplaced, and `getMeasurements` would then report an area different from the label. Such edits are not modelled, and `Valid()`'s claims that labels show the current area and that markers sit at the layer's anchors rely on this.
