/** Coordinate arithmetic of the midpoint screen: the midpoint of two places and
    the map viewport that frames them. Latitudes and longitudes are exact reals. */
module Geometry {

  /** A place on the map, as resolved by the autocomplete widget. */
  datatype Coordinate = Coordinate(latitude: real, longitude: real)

  /** A map viewport: its centre and its span on each axis. */
  datatype Region = Region(latitude: real, longitude: real, latitudeDelta: real, longitudeDelta: real) {

    /** The centre of the viewport as a coordinate */
    function Center(): Coordinate {
      Coordinate(latitude, longitude)
    }

    /** True when `c` lies inside the viewport (edges included) */
    predicate Contains(c: Coordinate) {
      && 2.0 * Abs(c.latitude - latitude) <= latitudeDelta
      && 2.0 * Abs(c.longitude - longitude) <= longitudeDelta
    }

    /** True when the viewport has zero extent on some axis: the map has no
        zoom level that shows it */
    predicate Degenerate() {
      latitudeDelta == 0.0 || longitudeDelta == 0.0
    }
  }

  function Abs(x: real): (r: real)
    ensures r >= 0.0
    ensures r == x || r == -x
  {
    if x < 0.0 then -x else x
  }

  /** True when `m` lies between `lo` and `hi`, in either order */
  predicate Between(lo: real, m: real, hi: real) {
    (lo <= m <= hi) || (hi <= m <= lo)
  }

  /** Reference definition of a midpoint, independent of how it is computed:
      on each axis `m` is as far beyond `a` as `b` is beyond `m`. */
  predicate IsMidpointOf(m: Coordinate, a: Coordinate, b: Coordinate) {
    && m.latitude - a.latitude == b.latitude - m.latitude
    && m.longitude - a.longitude == b.longitude - m.longitude
  }

  /** calculateMidpoint: the mean of the two places on each axis. */
  function Midpoint(a: Coordinate, b: Coordinate): (m: Coordinate)
    ensures IsMidpointOf(m, a, b)
    ensures Between(a.latitude, m.latitude, b.latitude)
    ensures Between(a.longitude, m.longitude, b.longitude)
  {
    Coordinate((a.latitude + b.latitude) / 2.0, (a.longitude + b.longitude) / 2.0)
  }

  /** calculateRegion: a viewport centred on the midpoint whose span on each
      axis is twice the distance between the two places on that axis. */
  function CalculateRegion(a: Coordinate, b: Coordinate): (r: Region)
    ensures r.Center() == Midpoint(a, b)
    ensures r.latitudeDelta >= 0.0 && r.longitudeDelta >= 0.0
    ensures r.latitudeDelta == 2.0 * Abs(a.latitude - b.latitude)
    ensures r.longitudeDelta == 2.0 * Abs(a.longitude - b.longitude)
    // each place sits halfway between the centre and the viewport's edge
    ensures 4.0 * Abs(a.latitude - r.latitude) == r.latitudeDelta
    ensures 4.0 * Abs(b.latitude - r.latitude) == r.latitudeDelta
    ensures 4.0 * Abs(a.longitude - r.longitude) == r.longitudeDelta
    ensures 4.0 * Abs(b.longitude - r.longitude) == r.longitudeDelta
    ensures r.Contains(a) && r.Contains(b)
  {
    var mid := Midpoint(a, b);
    Region(mid.latitude, mid.longitude,
           Abs(a.latitude - b.latitude) * 2.0,
           Abs(a.longitude - b.longitude) * 2.0)
  }

  /** The midpoint is the only coordinate meeting the reference definition. */
  lemma MidpointCharacterized(m: Coordinate, a: Coordinate, b: Coordinate)
    ensures IsMidpointOf(m, a, b) <==> m == Midpoint(a, b)
  {
  }

  /** Swapping the two places does not move the midpoint. */
  lemma MidpointSymmetric(a: Coordinate, b: Coordinate)
    ensures Midpoint(a, b) == Midpoint(b, a)
  {
  }

  /** The midpoint of a place with itself is that place. */
  lemma MidpointIdempotent(a: Coordinate)
    ensures Midpoint(a, a) == a
  {
  }

  /** Swapping the two places does not change the viewport. */
  lemma RegionSymmetric(a: Coordinate, b: Coordinate)
    ensures CalculateRegion(a, b) == CalculateRegion(b, a)
  {
    MidpointSymmetric(a, b);
  }

  /** A span is zero exactly when the two places agree on that axis; so the
      viewport is degenerate exactly when they share a latitude or a longitude,
      and in particular when they are the same place. */
  lemma RegionDegenerateIff(a: Coordinate, b: Coordinate)
    ensures CalculateRegion(a, b).latitudeDelta == 0.0 <==> a.latitude == b.latitude
    ensures CalculateRegion(a, b).longitudeDelta == 0.0 <==> a.longitude == b.longitude
    ensures CalculateRegion(a, b).Degenerate() <==> a.latitude == b.latitude || a.longitude == b.longitude
    ensures CalculateRegion(a, a) == Region(a.latitude, a.longitude, 0.0, 0.0)
  {
    MidpointIdempotent(a);
  }
}
