/** Choice of the metric projection in `get_size`: the Universal Transverse
    Mercator zone of the polygon's mean longitude (6-degree bands numbered
    from 1 at 180 W) and the matching WGS 84 / UTM EPSG code, 326zz in the
    northern hemisphere and 327zz in the southern one. */
module Utm {
  import opened Numeric

  /** Python's `int()` of a float: truncation toward zero. */
  function Trunc(x: real): (n: int)
    ensures x >= 0.0 ==> n as real <= x < n as real + 1.0
    ensures x < 0.0 ==> n as real - 1.0 < x <= n as real
  {
    if x >= 0.0 then x.Floor else -((-x).Floor)
  }

  /** `int((mean_lon + 180) / 6) + 1`. */
  function Zone(meanLon: real): int
  {
    Trunc((meanLon + 180.0) / 6.0) + 1
  }

  /** 32600 + zone when the mean latitude is not negative, else 32700 + zone. */
  function Epsg(zone: int, meanLat: real): int
  {
    if meanLat >= 0.0 then 32600 + zone else 32700 + zone
  }

  /** From 180 W eastward, zone z covers the longitudes
      [-180 + 6 (z - 1), -180 + 6 z). */
  lemma ZoneBand(meanLon: real, z: int)
    requires meanLon >= -180.0
    ensures Zone(meanLon) == z <==> -180.0 + 6.0 * (z - 1) as real <= meanLon < -180.0 + 6.0 * z as real
  {
    var q := (meanLon + 180.0) / 6.0;
    assert q >= 0.0;
    var t := Trunc(q);
    assert meanLon == 6.0 * q - 180.0;
    assert -180.0 + 6.0 * t as real <= meanLon < -180.0 + 6.0 * (t + 1) as real;
    if -180.0 + 6.0 * (z - 1) as real <= meanLon < -180.0 + 6.0 * z as real {
      assert (z - 1) as real <= q < z as real;
      assert t == z - 1;
    }
  }

  /** Every longitude in [-180, 180) gets a zone between 1 and 60. */
  lemma ZoneRange(meanLon: real)
    requires -180.0 <= meanLon < 180.0
    ensures 1 <= Zone(meanLon) <= 60
  {
    var q := (meanLon + 180.0) / 6.0;
    assert 0.0 <= q < 60.0;
  }

  /** For a zone in 1..60, the code is in 32601..32660 (north) or
      32701..32760 (south), the hemisphere decided by the latitude's sign. */
  lemma EpsgRange(zone: int, meanLat: real)
    requires 1 <= zone <= 60
    ensures meanLat >= 0.0 ==> 32601 <= Epsg(zone, meanLat) <= 32660
    ensures meanLat < 0.0 ==> 32701 <= Epsg(zone, meanLat) <= 32760
    ensures Epsg(zone, meanLat) % 100 == zone
  {
  }

  /** Truncation, not flooring: a mean longitude just west of 180 W still
      falls in zone 1 rather than zone 0. */
  lemma TruncationWestOfRange()
    ensures Zone(-183.0) == 1
    ensures Zone(-186.0) == 0
  {
  }

  /** A polygon vertex: longitude and latitude in degrees (altitude unused). */
  datatype Vertex = Vertex(lon: real, lat: real)

  datatype Projection = Projection(zone: int, epsg: int)

  /** No vertices: the NumPy mean of an empty list is NaN and `int()` of NaN raises. */
  datatype Error = NoVertices

  function Lons(polygon: seq<Vertex>): (xs: seq<real>)
    ensures |xs| == |polygon| && forall i :: 0 <= i < |xs| ==> xs[i] == polygon[i].lon
  {
    seq(|polygon|, i requires 0 <= i < |polygon| => polygon[i].lon)
  }

  function Lats(polygon: seq<Vertex>): (ys: seq<real>)
    ensures |ys| == |polygon| && forall i :: 0 <= i < |ys| ==> ys[i] == polygon[i].lat
  {
    seq(|polygon|, i requires 0 <= i < |polygon| => polygon[i].lat)
  }

  /** Every vertex longitude lies in [-180, 180). */
  predicate LonsInRange(polygon: seq<Vertex>)
  {
    forall i :: 0 <= i < |polygon| ==> -180.0 <= polygon[i].lon < 180.0
  }

  /** With every longitude in [-180, 180), the mean longitude does too, so
      its zone is in 1..60 and is the zone whose band holds it. */
  lemma MeanLonZone(polygon: seq<Vertex>)
    requires polygon != []
    ensures LonsInRange(polygon) ==>
              var m := Mean(Lons(polygon));
              1 <= Zone(m) <= 60 && -180.0 + 6.0 * (Zone(m) - 1) as real <= m < -180.0 + 6.0 * Zone(m) as real
  {
    if LonsInRange(polygon) {
      var m := Mean(Lons(polygon));
      MeanBounds(Lons(polygon), -180.0, 180.0);
      ZoneRange(m);
      ZoneBand(m, Zone(m));
    }
  }

  /** The zone and EPSG code `get_size` projects to. An empty polygon
      fails. With longitudes in [-180, 180) the zone is in 1..60 and its
      band holds the mean longitude, and the code is 326zz north of the
      equator (mean latitude not negative) and 327zz south of it, zz the
      zone. */
  function SelectProjection(polygon: seq<Vertex>): (r: Result<Projection, Error>)
    ensures r.Err? <==> polygon == []
    ensures r.Ok? && LonsInRange(polygon) ==>
              var m := Mean(Lons(polygon));
              1 <= r.value.zone <= 60
              && -180.0 + 6.0 * (r.value.zone - 1) as real <= m < -180.0 + 6.0 * r.value.zone as real
    ensures r.Ok? && LonsInRange(polygon) ==>
              r.value.epsg % 100 == r.value.zone
              && (r.value.epsg / 100 == 326 <==> Mean(Lats(polygon)) >= 0.0)
              && (r.value.epsg / 100 == 327 <==> Mean(Lats(polygon)) < 0.0)
  {
    if polygon == [] then Err(NoVertices)
    else
      var zone := Zone(Mean(Lons(polygon)));
      MeanLonZone(polygon);
      Ok(Projection(zone, Epsg(zone, Mean(Lats(polygon)))))
  }
}
