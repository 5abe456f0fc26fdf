/**
 * The controller's registry of drawn layers: a list of entries, each holding a
 * layer, its delete button and its area label. This module gives the list
 * operations the controller performs on the registry (search by reference,
 * splice, the objects it shows, the measurement report) as functions, with
 * the lemmas that say what they keep and what they drop.
 */
module Registry {
  import opened MeasureUnits
  import opened Area
  import opened Leaflet

  /** One registered layer with its two markers. */
  datatype Entry = Entry(layer: Layer, deleteMarker: Marker, areaMarker: Marker)

  /** Some entry of `entries` holds `layer`. */
  predicate HasLayer(entries: seq<Entry>, layer: Layer) {
    exists k :: 0 <= k < |entries| && entries[k].layer == layer
  }

  /** No layer is registered twice. */
  predicate DistinctLayers(entries: seq<Entry>) {
    forall i, j :: 0 <= i < j < |entries| ==> entries[i].layer != entries[j].layer
  }

  /** The position of the first entry holding `layer`, or -1 when there is none. */
  function FindIndex(entries: seq<Entry>, layer: Layer): (i: int)
    ensures -1 <= i < |entries|
    ensures i == -1 <==> !HasLayer(entries, layer)
    ensures 0 <= i ==> entries[i].layer == layer
    ensures 0 <= i ==> forall k :: 0 <= k < i ==> entries[k].layer != layer
  {
    if |entries| == 0 then -1
    else if entries[0].layer == layer then 0
    else
      var j := FindIndex(entries[1..], layer);
      if j == -1 then
        assert forall k :: 1 <= k < |entries| ==> entries[k] == entries[1..][k - 1];
        -1
      else j + 1
  }

  /** The list with the entry at position `i` cut out; the rest keep their order. */
  function Splice(entries: seq<Entry>, i: int): (r: seq<Entry>)
    requires 0 <= i < |entries|
    ensures |r| == |entries| - 1
    ensures forall k :: 0 <= k < i ==> r[k] == entries[k]
    ensures forall k :: i <= k < |r| ==> r[k] == entries[k + 1]
    ensures multiset(r) + multiset{entries[i]} == multiset(entries)
  {
    assert entries == entries[..i] + [entries[i]] + entries[i + 1..];
    entries[..i] + entries[i + 1..]
  }

  /** The registry after a delete click on `layer`: the first entry holding it is spliced out, if any. */
  function RemoveFirst(entries: seq<Entry>, layer: Layer): (r: seq<Entry>)
    ensures !HasLayer(entries, layer) ==> r == entries
    ensures HasLayer(entries, layer) ==> |r| == |entries| - 1
    ensures forall e :: e in r ==> e in entries
    ensures forall e :: e in entries && e.layer != layer ==> e in r
  {
    var i := FindIndex(entries, layer);
    if i == -1 then entries
    else
      assert entries == entries[..i] + [entries[i]] + entries[i + 1..];
      Splice(entries, i)
  }

  /** A layer that is not registered leaves the registry as it is. */
  lemma RemoveFirstAbsent(entries: seq<Entry>, layer: Layer)
    requires !HasLayer(entries, layer)
    ensures RemoveFirst(entries, layer) == entries
  {
  }

  /**
   * A registered layer loses exactly one entry, the first holding it; the
   * entries before it are untouched and those after it move up by one.
   */
  lemma RemoveFirstPresent(entries: seq<Entry>, layer: Layer)
    requires HasLayer(entries, layer)
    ensures var i := FindIndex(entries, layer);
      && 0 <= i < |entries|
      && entries[i].layer == layer
      && (forall k :: 0 <= k < i ==> entries[k].layer != layer)
      && RemoveFirst(entries, layer) == entries[..i] + entries[i + 1..]
      && multiset(RemoveFirst(entries, layer)) + multiset{entries[i]} == multiset(entries)
  {
  }

  /**
   * With distinct layers, a delete removes the one entry holding the layer and
   * nothing else: afterwards the layer is unregistered, the other entries all
   * remain, and layers stay distinct.
   */
  lemma {:induction false} RemoveFirstDistinct(entries: seq<Entry>, layer: Layer)
    requires DistinctLayers(entries)
    ensures var r := RemoveFirst(entries, layer);
      && DistinctLayers(r)
      && !HasLayer(r, layer)
      && (forall e :: e in r <==> e in entries && e.layer != layer)
      && |r| == if HasLayer(entries, layer) then |entries| - 1 else |entries|
  {
    var r := RemoveFirst(entries, layer);
    var i := FindIndex(entries, layer);
    if i != -1 {
      forall e | e in entries && e.layer != layer
        ensures e in r
      {
        var k :| 0 <= k < |entries| && entries[k] == e;
        if k < i {
          assert r[k] == e;
        } else {
          assert k != i;
          assert r[k - 1] == e;
        }
      }
      forall e | e in r
        ensures e in entries && e.layer != layer
      {
        var k :| 0 <= k < |r| && r[k] == e;
        if k < i {
          assert e == entries[k];
        } else {
          assert e == entries[k + 1];
        }
      }
      forall a, b | 0 <= a < b < |r|
        ensures r[a].layer != r[b].layer
      {
        var a' := if a < i then a else a + 1;
        var b' := if b < i then b else b + 1;
        assert r[a] == entries[a'] && r[b] == entries[b'] && a' < b';
      }
    }
  }

  /** Registering a layer not yet present keeps layers distinct. */
  lemma AppendKeepsDistinct(entries: seq<Entry>, e: Entry)
    requires DistinctLayers(entries)
    requires !HasLayer(entries, e.layer)
    ensures DistinctLayers(entries + [e])
  {
  }

  /** Every layer and marker the registry holds, i.e. what a full clear removes from the map. */
  ghost function Objects(entries: seq<Entry>): set<object> {
    if |entries| == 0 then {}
    else
      var last := entries[|entries| - 1];
      Objects(entries[..|entries| - 1]) + {last.layer, last.deleteMarker, last.areaMarker}
  }

  /** An object belongs to the registry's objects exactly when some entry holds it, as layer or as either marker. */
  lemma {:induction false} ObjectsMembership(entries: seq<Entry>, o: object)
    ensures o in Objects(entries) <==>
      exists k :: 0 <= k < |entries| &&
        (o == entries[k].layer || o == entries[k].deleteMarker || o == entries[k].areaMarker)
  {
    if |entries| > 0 {
      var front := entries[..|entries| - 1];
      ObjectsMembership(front, o);
      assert forall k :: 0 <= k < |front| ==> front[k] == entries[k];
    }
  }

  /** The area labels the registry holds. */
  ghost function AreaMarkers(entries: seq<Entry>): set<object> {
    if |entries| == 0 then {}
    else AreaMarkers(entries[..|entries| - 1]) + {entries[|entries| - 1].areaMarker}
  }

  /** Extending a prefix of the registry by one entry adds that entry's area label. */
  lemma AreaMarkersExtend(entries: seq<Entry>, i: int)
    requires 0 <= i < |entries|
    ensures AreaMarkers(entries[..i + 1]) == AreaMarkers(entries[..i]) + {entries[i].areaMarker}
  {
    assert entries[..i + 1][..i] == entries[..i];
  }

  /**
   * One step of relabelling: when the labels of the first `i` entries have been
   * replaced, taking the old label of entry `i` off the map and putting its new
   * one on extends the replacement to the first `i + 1` entries, provided the
   * old label is not among the new ones.
   */
  lemma ReplaceLabelStep(shown: set<object>, before: seq<Entry>, after: seq<Entry>, i: int)
    requires 0 <= i < |before| && |after| == |before|
    requires forall k :: 0 <= k < i ==> after[k].areaMarker != before[i].areaMarker
    ensures (shown - AreaMarkers(before[..i]) + AreaMarkers(after[..i]) - {before[i].areaMarker})
              + {after[i].areaMarker}
            == shown - AreaMarkers(before[..i + 1]) + AreaMarkers(after[..i + 1])
  {
    AreaMarkersMembership(after[..i], before[i].areaMarker);
    AreaMarkersExtend(before, i);
    AreaMarkersExtend(after, i);
  }

  /** An object is one of the registry's area labels exactly when some entry holds it as its area label. */
  lemma {:induction false} AreaMarkersMembership(entries: seq<Entry>, o: object)
    ensures o in AreaMarkers(entries) <==> exists k :: 0 <= k < |entries| && o == entries[k].areaMarker
  {
    if |entries| > 0 {
      var front := entries[..|entries| - 1];
      AreaMarkersMembership(front, o);
      assert forall k :: 0 <= k < |front| ==> front[k] == entries[k];
    }
  }

  /** The coordinates a measurement reports: centre and radius of a circle, or the rings of a polygon. */
  datatype Outline = CircleOutline(center: LatLng, radius: real) | Rings(latlngs: seq<seq<LatLng>>)

  /** One record of the measurement report. */
  datatype Measurement = Measurement(layer: Layer, area: AreaText, latlngs: Outline)

  /** The outline of a drawn circle or polygon: a circle reports its centre and radius, a polygon all its rings. */
  function OutlineOf(g: Geometry): (o: Outline)
    requires Drawable(g)
    ensures o.CircleOutline? <==> g.Circle?
    ensures g.Circle? ==> o.center == g.center && o.radius == g.radius
    ensures g.Polygon? ==> o.latlngs == g.rings
  {
    if g.Circle? then CircleOutline(g.center, g.radius) else Rings(g.rings)
  }

  /**
   * The measurement report: one record per entry, in registry order, giving the
   * entry's layer, its area text under the unit at `unitIndex`, and its outline.
   */
  function Measurements(entries: seq<Entry>, unitIndex: int, geodesic: seq<LatLng> -> real): (ms: seq<Measurement>)
    requires IsUnitIndex(unitIndex)
    requires forall k :: 0 <= k < |entries| ==> Drawable(entries[k].layer.geometry)
    ensures |ms| == |entries|
    ensures forall k :: 0 <= k < |ms| ==>
      && ms[k].layer == entries[k].layer
      && ms[k].area == Text(entries[k].layer.geometry, unitIndex, geodesic)
      && ms[k].latlngs == OutlineOf(entries[k].layer.geometry)
  {
    if |entries| == 0 then []
    else
      var g := entries[0].layer.geometry;
      [Measurement(entries[0].layer, Text(g, unitIndex, geodesic), OutlineOf(g))]
        + Measurements(entries[1..], unitIndex, geodesic)
  }
}
