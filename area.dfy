/**
 * Area computation for a drawn layer: which branch gives the raw area in
 * square metres (circle, polygon ring, or zero), and how that raw area becomes
 * the label text of the current unit. Floating point is replaced by exact reals,
 * and the geodesic ring area of the external geometry utility is a parameter.
 */
module Area {
  import opened MeasureUnits

  /** A geographic coordinate. */
  datatype LatLng = LatLng(lat: real, lng: real)

  /**
   * The shape of a layer, as the controller can observe it:
   * a circle (centre and radius in metres); a polygon or rectangle, whose
   * coordinates are a list of rings; a polyline, whose coordinates are a flat
   * list of points; or any other layer, which has no coordinate list.
   */
  datatype Geometry =
    | Circle(center: LatLng, radius: real)
    | Polygon(rings: seq<seq<LatLng>>)
    | Polyline(points: seq<LatLng>)
    | Other

  /**
   * What the drawing toolkit delivers on completing a shape: a circle, or a
   * polygon (rectangles included) whose first ring has a first vertex.
   */
  predicate Drawable(g: Geometry) {
    g.Circle? || (g.Polygon? && |g.rings| > 0 && |g.rings[0]| > 0)
  }

  /** The value of the host language's constant for pi. */
  const Pi: real := 3.141592653589793

  /** The circle branch and the polygon branch whose first ring has more than one point. */
  predicate Measurable(g: Geometry) {
    g.Circle? || (g.Polygon? && |g.rings| > 0 && |g.rings[0]| > 1)
  }

  /**
   * Raw area in square metres. `geodesic` is the external geodesic ring area;
   * only the first ring of a polygon is measured. The first coordinate of a
   * (flat) polyline is a point, not a ring, so it never has "more than one point".
   */
  function RawArea(g: Geometry, geodesic: seq<LatLng> -> real): (r: real)
    ensures !Measurable(g) ==> r == 0.0
    ensures g.Circle? ==> r >= 0.0
    ensures Measurable(g) && g.Polygon? ==> r == geodesic(g.rings[0])
  {
    match g
    case Circle(_, radius) =>
      assert radius * radius >= 0.0;
      Pi * (radius * radius)
    case Polygon(rings) => if |rings| > 0 && |rings[0]| > 1 then geodesic(rings[0]) else 0.0
    case Polyline(_) => 0.0
    case Other => 0.0
  }

  /**
   * Outside the measured branches the raw area is zero: a layer with no
   * coordinate list, a (flat) polyline, a polygon with no rings, and a polygon
   * whose first ring has at most one point.
   */
  lemma UnmeasurableHasZeroArea(points: seq<LatLng>, rings: seq<seq<LatLng>>, geodesic: seq<LatLng> -> real)
    ensures RawArea(Other, geodesic) == 0.0
    ensures RawArea(Polyline(points), geodesic) == 0.0
    ensures RawArea(Polygon([]), geodesic) == 0.0
    ensures |rings| > 0 && |rings[0]| <= 1 ==> RawArea(Polygon(rings), geodesic) == 0.0
  {
  }

  /**
   * A circle's area is never negative and depends only on its radius: neither
   * its centre nor the geodesic utility changes it.
   */
  lemma CircleAreaFromRadiusOnly(c: LatLng, r: real, geodesic: seq<LatLng> -> real,
                                 c': LatLng, geodesic': seq<LatLng> -> real)
    ensures RawArea(Circle(c, r), geodesic) >= 0.0
    ensures RawArea(Circle(c', r), geodesic') == RawArea(Circle(c, r), geodesic)
  {
    assert r * r >= 0.0;
  }

  /** Label text: a converted amount followed by a unit symbol (fixed-point formatting not modelled). */
  datatype AreaText = AreaText(amount: real, symbol: string)

  /**
   * The label text of `g` under the unit at `unitIndex`: the amount is the raw
   * area expressed in that unit, and the suffix is that unit's symbol.
   */
  function Text(g: Geometry, unitIndex: int, geodesic: seq<LatLng> -> real): (t: AreaText)
    requires IsUnitIndex(unitIndex)
    ensures t.symbol == Symbol(unitIndex)
    ensures t.amount * Factor(unitIndex) == RawArea(g, geodesic)
  {
    AreaText(RawArea(g, geodesic) / Factor(unitIndex), Symbol(unitIndex))
  }

  /** A zero area reads as zero in every unit, e.g. "0.00 km²". */
  lemma ZeroAreaText(g: Geometry, unitIndex: int, geodesic: seq<LatLng> -> real)
    requires IsUnitIndex(unitIndex)
    requires RawArea(g, geodesic) == 0.0
    ensures Text(g, unitIndex, geodesic).amount == 0.0
  {
    TablesCoverUnits(unitIndex);
  }

  /** Switching unit rescales the amount by the ratio of the two conversion factors. */
  lemma {:induction false} TextRescales(g: Geometry, i: int, j: int, geodesic: seq<LatLng> -> real)
    requires IsUnitIndex(i) && IsUnitIndex(j)
    ensures Text(g, j, geodesic).amount * Factor(j) == Text(g, i, geodesic).amount * Factor(i)
    ensures Text(g, j, geodesic).symbol == Text(g, i, geodesic).symbol <==> i == j
  {
    SymbolIdentifiesUnit(i, j);
  }

  /** A circle of radius 1000 m shows pi square kilometres, i.e. "3.14 km²". */
  lemma KilometreCircle(c: LatLng, geodesic: seq<LatLng> -> real)
    ensures Text(Circle(c, 1000.0), 0, geodesic) == AreaText(Pi, "km²")
  {
  }
}
