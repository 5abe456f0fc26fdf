/**
 * Stand-ins for the mapping library's objects that the controller handles:
 * drawn layers, markers, and the map surface. Layers and markers are objects,
 * so two of them are the same exactly when they are the same reference. The map
 * surface is reduced to the set of objects currently added to it.
 */
module Leaflet {
  import opened Area

  /** A shape drawn on the map; the controller only reads its geometry. */
  class Layer {
    const geometry: Geometry

    constructor (geometry: Geometry)
      ensures this.geometry == geometry
    {
      this.geometry := geometry;
    }
  }

  /** Where a marker is placed: at a coordinate, or at the centre of the bounding box of a layer's geometry. */
  datatype Anchor = At(point: LatLng) | BoundsCenter(of: Geometry)

  /** A delete button (showing "X", clickable) or an area label (showing a text, not interactive). */
  datatype Icon = DeleteIcon | AreaIcon(text: AreaText)

  /** A marker placed on the map. */
  class Marker {
    const anchor: Anchor
    const icon: Icon

    constructor (anchor: Anchor, icon: Icon)
      ensures this.anchor == anchor && this.icon == icon
    {
      this.anchor := anchor;
      this.icon := icon;
    }
  }

  /** The map surface: which layers and markers are currently shown. */
  class LeafletMap {
    ghost var layers: set<object>

    constructor ()
      ensures layers == {}
    {
      layers := {};
    }

    /** Adding an object shows it; adding one already shown changes nothing. */
    method AddLayer(o: object)
      modifies this
      ensures layers == old(layers) + {o}
    {
      layers := layers + {o};
    }

    /** Removing an object hides it; removing one not shown changes nothing. */
    method RemoveLayer(o: object)
      modifies this
      ensures layers == old(layers) - {o}
    {
      layers := layers - {o};
    }
  }
}
