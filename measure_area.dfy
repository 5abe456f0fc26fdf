/**
 * The area-measurement controller: it answers draw-complete events by labelling
 * the new layer with its area and giving it a delete button, keeps a registry
 * of what it labelled, cycles the display unit (relabelling everything), clears
 * the registry, and reports measurements.
 */
module Measure {
  import opened MeasureUnits
  import opened Area
  import opened Leaflet
  import opened Registry

  /** Where a delete button goes: the circle's centre, or the first vertex of the polygon's first ring. */
  function DeleteAnchor(g: Geometry): (p: LatLng)
    requires Drawable(g)
    ensures g.Circle? ==> p == g.center
    ensures g.Polygon? ==> p == g.rings[0][0]
  {
    if g.Circle? then g.center else g.rings[0][0]
  }

  /** Where an area label goes: the circle's centre, or the centre of any other layer's bounds. */
  function LabelAnchor(g: Geometry): (a: Anchor)
    ensures a.At? <==> g.Circle?
    ensures g.Circle? ==> a.point == g.center
    ensures !g.Circle? ==> a.of == g
  {
    if g.Circle? then At(g.center) else BoundsCenter(g)
  }

  /** An entry as the controller builds it: a drawn layer, its delete button, and an area label, each placed as above. */
  ghost predicate Tracked(e: Entry) {
    && Drawable(e.layer.geometry)
    && e.deleteMarker.anchor == At(DeleteAnchor(e.layer.geometry))
    && e.deleteMarker.icon == DeleteIcon
    && e.areaMarker.anchor == LabelAnchor(e.layer.geometry)
    && e.areaMarker.icon.AreaIcon?
  }

  /**
   * `after` is `before` with its area label replaced by one that shows the
   * layer's area in the unit at `unitIndex`.
   */
  ghost predicate Relabelled(before: Entry, after: Entry, unitIndex: int, geodesic: seq<LatLng> -> real) {
    && IsUnitIndex(unitIndex)
    && after.layer == before.layer
    && after.deleteMarker == before.deleteMarker
    && Tracked(after)
    && after.areaMarker.icon == AreaIcon(Text(after.layer.geometry, unitIndex, geodesic))
  }

  class MeasureArea {
    const surface: LeafletMap
    /** The external geodesic ring area, in square metres. */
    const geodesicArea: seq<LatLng> -> real
    var drawnLayers: seq<Entry>
    var currentUnitIndex: int

    /** The unit index is in range and every entry was built by the controller. */
    ghost predicate WellFormed()
      reads this
    {
      && IsUnitIndex(currentUnitIndex)
      && forall k :: 0 <= k < |drawnLayers| ==> Tracked(drawnLayers[k])
    }

    /** In addition, every area label shows its layer's area in the current unit. */
    ghost predicate Valid()
      reads this
    {
      && WellFormed()
      && forall k :: 0 <= k < |drawnLayers| ==>
           drawnLayers[k].areaMarker.icon == AreaIcon(CalculateArea(drawnLayers[k].layer))
    }

    constructor (surface: LeafletMap, geodesicArea: seq<LatLng> -> real)
      ensures Valid()
      ensures this.surface == surface && this.geodesicArea == geodesicArea
      ensures drawnLayers == [] && currentUnitIndex == 0
    {
      this.surface := surface;
      this.geodesicArea := geodesicArea;
      drawnLayers := [];
      currentUnitIndex := 0;
    }

    /** The name of the current unit; both unit tables have an entry for it. */
    function GetCurrentUnit(): (unit: string)
      reads this
      requires IsUnitIndex(currentUnitIndex)
      ensures unit in ConversionFactors && unit in UnitSymbols
    {
      TablesCoverUnits(currentUnitIndex);
      Units[currentUnitIndex]
    }

    /** The area text of `layer`: its raw area expressed in the current unit, with the current unit's symbol. */
    function CalculateArea(layer: Layer): (t: AreaText)
      reads this
      requires IsUnitIndex(currentUnitIndex)
      ensures t.symbol == UnitSymbols[GetCurrentUnit()]
      ensures t.amount * ConversionFactors[GetCurrentUnit()] == RawArea(layer.geometry, geodesicArea)
    {
      Text(layer.geometry, currentUnitIndex, geodesicArea)
    }

    /** Creates an area label showing `areaText` at the layer's centre and adds it to the map. */
    method CreateAreaMarker(layer: Layer, areaText: AreaText) returns (areaMarker: Marker)
      modifies surface
      ensures fresh(areaMarker)
      ensures areaMarker.anchor == LabelAnchor(layer.geometry) && areaMarker.icon == AreaIcon(areaText)
      ensures surface.layers == old(surface.layers) + {areaMarker}
    {
      areaMarker := new Marker(LabelAnchor(layer.geometry), AreaIcon(areaText));
      surface.AddLayer(areaMarker);
    }

    /** Creates a delete button at the layer's first point and adds it to the map; a click runs OnDeleteClick. */
    method CreateDeleteButton(layer: Layer) returns (deleteMarker: Marker)
      requires Drawable(layer.geometry)
      modifies surface
      ensures fresh(deleteMarker)
      ensures deleteMarker.anchor == At(DeleteAnchor(layer.geometry)) && deleteMarker.icon == DeleteIcon
      ensures surface.layers == old(surface.layers) + {deleteMarker}
    {
      deleteMarker := new Marker(At(DeleteAnchor(layer.geometry)), DeleteIcon);
      surface.AddLayer(deleteMarker);
    }

    /**
     * A shape was drawn: one entry holding the layer, a new delete button and a
     * new area label is appended; earlier entries are untouched, and both new
     * markers are on the map. The source does not check that the layer is new;
     * it relies on every completed drawing being a new layer.
     */
    method HandleDrawComplete(layer: Layer)
      requires Valid()
      requires Drawable(layer.geometry)
      requires !HasLayer(drawnLayers, layer)
      modifies this, surface
      ensures Valid()
      ensures currentUnitIndex == old(currentUnitIndex)
      ensures |drawnLayers| == |old(drawnLayers)| + 1
      ensures drawnLayers[..|old(drawnLayers)|] == old(drawnLayers)
      ensures var e := drawnLayers[|old(drawnLayers)|];
        && e.layer == layer
        && fresh(e.deleteMarker) && fresh(e.areaMarker) && e.deleteMarker != e.areaMarker
        && e.deleteMarker.icon == DeleteIcon
        && e.areaMarker.icon == AreaIcon(CalculateArea(layer))
        && surface.layers == old(surface.layers) + {e.deleteMarker, e.areaMarker}
      ensures DistinctLayers(old(drawnLayers)) ==> DistinctLayers(drawnLayers)
    {
      var areaText := CalculateArea(layer);
      var areaMarker := CreateAreaMarker(layer, areaText);
      var deleteMarker := CreateDeleteButton(layer);
      drawnLayers := drawnLayers + [Entry(layer, deleteMarker, areaMarker)];
    }

    /**
     * The delete button of `layer` was clicked. The layer and the button always
     * leave the map. If the layer is registered, its first entry is spliced out
     * and that entry's area label leaves the map too; otherwise the registry is
     * unchanged.
     */
    method OnDeleteClick(layer: Layer, deleteMarker: Marker)
      requires Valid()
      modifies this, surface
      ensures Valid()
      ensures currentUnitIndex == old(currentUnitIndex)
      ensures drawnLayers == RemoveFirst(old(drawnLayers), layer)
      ensures !HasLayer(old(drawnLayers), layer) ==> drawnLayers == old(drawnLayers)
      ensures HasLayer(old(drawnLayers), layer) ==> |drawnLayers| == |old(drawnLayers)| - 1
      ensures var i := FindIndex(old(drawnLayers), layer);
        surface.layers == old(surface.layers) - {layer, deleteMarker}
                      - (if i == -1 then {} else {old(drawnLayers)[i].areaMarker})
      ensures DistinctLayers(old(drawnLayers)) ==>
        DistinctLayers(drawnLayers) && !HasLayer(drawnLayers, layer)
    {
      surface.RemoveLayer(layer);
      surface.RemoveLayer(deleteMarker);
      var index := FindIndex(drawnLayers, layer);
      if index != -1 {
        surface.RemoveLayer(drawnLayers[index].areaMarker);
        drawnLayers := Splice(drawnLayers, index);
      }
      if DistinctLayers(old(drawnLayers)) {
        RemoveFirstDistinct(old(drawnLayers), layer);
      }
    }

    /**
     * One step of relabelling: the entry's old area label leaves the map and a
     * new one, showing the layer's area in the current unit, joins it.
     */
    method RelabelEntry(item: Entry) returns (relabelled: Entry)
      requires IsUnitIndex(currentUnitIndex) && Tracked(item)
      modifies surface
      ensures relabelled == item.(areaMarker := relabelled.areaMarker)
      ensures Tracked(relabelled) && fresh(relabelled.areaMarker)
      ensures relabelled.areaMarker.icon == AreaIcon(CalculateArea(item.layer))
      ensures surface.layers == old(surface.layers) - {item.areaMarker} + {relabelled.areaMarker}
    {
      var areaText := CalculateArea(item.layer);
      surface.RemoveLayer(item.areaMarker);
      var areaMarker := CreateAreaMarker(item.layer, areaText);
      relabelled := item.(areaMarker := areaMarker);
    }

    /**
     * Relabels every entry in the current unit: each old area label leaves the
     * map and a new one replaces it; layers and delete buttons stay as they are.
     */
    method UpdateAllAreasDisplay()
      requires WellFormed()
      modifies this, surface
      ensures Valid()
      ensures currentUnitIndex == old(currentUnitIndex)
      ensures |drawnLayers| == |old(drawnLayers)|
      ensures forall k :: 0 <= k < |drawnLayers| ==>
        && drawnLayers[k].layer == old(drawnLayers)[k].layer
        && drawnLayers[k].deleteMarker == old(drawnLayers)[k].deleteMarker
        && fresh(drawnLayers[k].areaMarker)
      ensures surface.layers == old(surface.layers) - AreaMarkers(old(drawnLayers)) + AreaMarkers(drawnLayers)
    {
      var i := 0;
      while i < |drawnLayers|
        invariant 0 <= i <= |drawnLayers| == |old(drawnLayers)|
        invariant currentUnitIndex == old(currentUnitIndex)
        invariant forall k :: 0 <= k < |drawnLayers| ==>
          if k < i then Relabelled(old(drawnLayers)[k], drawnLayers[k], currentUnitIndex, geodesicArea) && fresh(drawnLayers[k].areaMarker)
          else drawnLayers[k] == old(drawnLayers)[k]
        invariant surface.layers == old(surface.layers) - AreaMarkers(old(drawnLayers)[..i]) + AreaMarkers(drawnLayers[..i])
      {
        var item := drawnLayers[i];
        var relabelled := RelabelEntry(item);
        ghost var before := drawnLayers;
        drawnLayers := drawnLayers[i := relabelled];
        assert drawnLayers[..i] == before[..i];
        ReplaceLabelStep(old(surface.layers), old(drawnLayers), drawnLayers, i);
        i := i + 1;
      }
      assert old(drawnLayers)[..i] == old(drawnLayers);
      assert drawnLayers[..i] == drawnLayers;
    }

    /**
     * Advances the unit to the next in the list, wrapping around, relabels every
     * entry in the new unit, and returns the new unit's name.
     */
    method SwitchUnit() returns (unit: string)
      requires Valid()
      modifies this, surface
      ensures Valid()
      ensures currentUnitIndex == NextUnitIndex(old(currentUnitIndex))
      ensures unit == GetCurrentUnit()
      ensures |drawnLayers| == |old(drawnLayers)|
      ensures forall k :: 0 <= k < |drawnLayers| ==>
        && drawnLayers[k].layer == old(drawnLayers)[k].layer
        && drawnLayers[k].deleteMarker == old(drawnLayers)[k].deleteMarker
        && fresh(drawnLayers[k].areaMarker)
      ensures surface.layers == old(surface.layers) - AreaMarkers(old(drawnLayers)) + AreaMarkers(drawnLayers)
    {
      currentUnitIndex := (currentUnitIndex + 1) % |Units|;
      unit := Units[currentUnitIndex];
      UpdateAllAreasDisplay();
    }

    /**
     * Removes every registered layer, delete button and area label from the map
     * and empties the registry.
     */
    method ClearAll()
      requires Valid()
      modifies this, surface
      ensures Valid()
      ensures drawnLayers == []
      ensures currentUnitIndex == old(currentUnitIndex)
      ensures surface.layers == old(surface.layers) - Objects(old(drawnLayers))
      ensures forall k :: 0 <= k < |old(drawnLayers)| ==>
        && old(drawnLayers)[k].layer !in surface.layers
        && old(drawnLayers)[k].deleteMarker !in surface.layers
        && old(drawnLayers)[k].areaMarker !in surface.layers
    {
      var i := 0;
      while i < |drawnLayers|
        invariant 0 <= i <= |drawnLayers|
        invariant surface.layers == old(surface.layers) - Objects(drawnLayers[..i])
        modifies surface
      {
        var item := drawnLayers[i];
        surface.RemoveLayer(item.layer);
        surface.RemoveLayer(item.deleteMarker);
        surface.RemoveLayer(item.areaMarker);
        assert drawnLayers[..i + 1][..i] == drawnLayers[..i];
        i := i + 1;
      }
      assert drawnLayers[..i] == drawnLayers;
      forall k | 0 <= k < |drawnLayers|
        ensures drawnLayers[k].layer in Objects(drawnLayers)
        ensures drawnLayers[k].deleteMarker in Objects(drawnLayers)
        ensures drawnLayers[k].areaMarker in Objects(drawnLayers)
      {
        ObjectsMembership(drawnLayers, drawnLayers[k].layer);
        ObjectsMembership(drawnLayers, drawnLayers[k].deleteMarker);
        ObjectsMembership(drawnLayers, drawnLayers[k].areaMarker);
      }
      drawnLayers := [];
    }

    /**
     * One record per entry, in registry order: the layer, the area text it shows
     * on the map, and its outline.
     */
    function GetMeasurements(): (ms: seq<Measurement>)
      reads this
      requires Valid()
      ensures |ms| == |drawnLayers|
      ensures forall k :: 0 <= k < |ms| ==>
        && ms[k].layer == drawnLayers[k].layer
        && ms[k].area == CalculateArea(drawnLayers[k].layer)
        && drawnLayers[k].areaMarker.icon == AreaIcon(ms[k].area)
        && ms[k].latlngs == OutlineOf(drawnLayers[k].layer.geometry)
    {
      Measurements(drawnLayers, currentUnitIndex, geodesicArea)
    }
  }
}
