/** The heuristic circular isochrone (lib/bmad.ts). */
module Bmad {
  import opened JsNumber
  import opened Geo

  /** WGS84 equatorial radius, used for both offsets of a vertex */
  const EarthRadiusMeters: real := 6378137.0
  const DefaultPoints: int := 64
  const RadiusFloorMeters: real := 50.0
  const Method: string := "bmad-placeholder"

  /** Heuristic speed in metres per minute: driving, else transit, else walking */
  function Speed(mode: Mode): real
  {
    if mode == Driving then 800.0 else if mode == Transit then 600.0 else 80.0
  }

  /** `Math.max(50, timeMinutes * speed)` */
  function RadiusMeters(timeMinutes: real, mode: Mode): (r: real)
    ensures r >= RadiusFloorMeters && r >= timeMinutes * Speed(mode)
    ensures r == RadiusFloorMeters || r == timeMinutes * Speed(mode)
  {
    var reach := timeMinutes * Speed(mode);
    if reach > RadiusFloorMeters then reach else RadiusFloorMeters
  }

  /** A zero or negative time gives the 50 m floor; 15 minutes walking gives 1200 m. */
  lemma RadiusFloorAndExample(timeMinutes: real, mode: Mode)
    requires timeMinutes <= 0.0
    ensures RadiusMeters(timeMinutes, mode) == 50.0
    ensures RadiusMeters(15.0, Walking) == 1200.0
  {
  }

  /** For a fixed mode the radius never shrinks as time grows, and grows
      strictly once the later time is past the floor. */
  lemma RadiusMonotone(t1: real, t2: real, mode: Mode)
    requires t1 <= t2
    ensures RadiusMeters(t1, mode) <= RadiusMeters(t2, mode)
    ensures t1 < t2 && t2 * Speed(mode) > RadiusFloorMeters ==> RadiusMeters(t1, mode) < RadiusMeters(t2, mode)
  {
  }

  /** From one minute on, walking reaches less far than transit, and transit
      less far than driving. */
  lemma RadiusModeOrder(timeMinutes: real)
    requires timeMinutes >= 1.0
    ensures RadiusMeters(timeMinutes, Walking) < RadiusMeters(timeMinutes, Transit) < RadiusMeters(timeMinutes, Driving)
  {
  }

  // ---------------------------------------------------------------------
  // The ring

  /** Vertex at `fraction` (that is `i / points`) of a full turn from due
      east, offset by `radiusMeters` on a sphere of radius 6378137 m. The
      longitude offset divides by `cos(lat)`, which may be zero. */
  function VertexAt(trig: Trig, center: Center, radiusMeters: real, fraction: real): Position
  {
    var latRad := center.lat * Pi / 180.0;
    var theta := fraction * (2.0 * Pi);
    var dx := radiusMeters * trig.cos(theta);
    var dy := radiusMeters * trig.sin(theta);
    var dLat := dy / EarthRadiusMeters;
    var dLng := Divide(dx, EarthRadiusMeters * trig.cos(latRad));
    var newLat := (latRad + dLat) * (180.0 / Pi);
    var newLng := Times(Plus(dLng, center.lng * Pi / 180.0), 180.0 / Pi);
    Position(newLng, Fin(newLat))
  }

  /** A ring entry; `coords[0]` of an empty array reads as `undefined` */
  datatype RingEntry = Vertex(p: Position) | Undefined

  /** Reference ring: vertex `i` for `i` in `[0, points)` in increasing
      order, then the entry at index 0 again */
  function HeuristicRing(trig: Trig, center: Center, radiusMeters: real, points: int): seq<RingEntry>
  {
    if points <= 0 then [Undefined]
    else
      var vertices := seq(points, i requires 0 <= i < points =>
                            Vertex(VertexAt(trig, center, radiusMeters, i as real / points as real)));
      vertices + [vertices[0]]
  }

  datatype Properties = Properties(center: Center, timeMinutes: real, mode: Mode, methodName: string, radiusMeters: real)

  /** The GeoJSON Feature/Polygon the engine returns */
  datatype Isochrone = Isochrone(ring: seq<RingEntry>, properties: Properties)

  /** Reference result of `computeIsochroneBMAD` */
  function HeuristicIsochrone(trig: Trig, center: Center, timeMinutes: real, mode: Mode, points: Option<int>): Isochrone
  {
    var radius := RadiusMeters(timeMinutes, mode);
    Isochrone(HeuristicRing(trig, center, radius, points.GetOr(DefaultPoints)),
              Properties(center, timeMinutes, mode, Method, radius))
  }

  /** `computeIsochroneBMAD`: picks the point count and radius, pushes one
      vertex per point, then pushes `coords[0]` to close the ring. */
  method ComputeIsochroneBmad(trig: Trig, center: Center, timeMinutes: real, mode: Mode, points: Option<int>)
    returns (result: Isochrone)
    ensures result == HeuristicIsochrone(trig, center, timeMinutes, mode, points)
  {
    var n := points.GetOr(DefaultPoints);
    var radius := RadiusMeters(timeMinutes, mode);
    var coords: seq<RingEntry> := [];
    var i := 0;
    while i < n
      invariant 0 <= i && (n >= 0 ==> i <= n) && (n < 0 ==> i == 0)
      invariant |coords| == i
      invariant forall j :: 0 <= j < i ==> coords[j] == Vertex(VertexAt(trig, center, radius, j as real / n as real))
    {
      coords := coords + [Vertex(VertexAt(trig, center, radius, i as real / n as real))];
      i := i + 1;
    }
    var first := if |coords| > 0 then coords[0] else Undefined;
    coords := coords + [first];
    result := Isochrone(coords, Properties(center, timeMinutes, mode, Method, radius));
  }

  /** The ring has `points + 1` entries, closes on its first vertex, and
      entry `i < points` is the vertex at `i / points` of the turn. With no
      points the ring is the single entry `undefined`. */
  lemma HeuristicRingShape(trig: Trig, center: Center, radiusMeters: real, points: int)
    ensures points <= 0 ==> HeuristicRing(trig, center, radiusMeters, points) == [Undefined]
    ensures points >= 1 ==>
      var ring := HeuristicRing(trig, center, radiusMeters, points);
      && |ring| == points + 1
      && ring[0] == ring[points]
      && (forall i :: 0 <= i < points ==> ring[i] == Vertex(VertexAt(trig, center, radiusMeters, i as real / points as real)))
      && (forall i :: 0 <= i <= points ==> ring[i].Vertex?)
  {
  }

  /** Cross-multiplication for fractions with positive denominators */
  lemma FractionsEqual(x: real, a: real, y: real, b: real)
    requires a > 0.0 && b > 0.0 && x * b == y * a
    ensures x / a == y / b
  {
  }

  /** A vertex depends on its index only through `i / points`: vertex `i` of
      an `n`-gon is vertex `j` of an `m`-gon when `i * m == j * n`. */
  lemma VertexByFraction(trig: Trig, center: Center, radiusMeters: real, n: int, i: int, m: int, j: int)
    requires 0 <= i < n && 0 <= j < m && i * m == j * n
    ensures HeuristicRing(trig, center, radiusMeters, n)[i] == HeuristicRing(trig, center, radiusMeters, m)[j]
  {
    HeuristicRingShape(trig, center, radiusMeters, n);
    HeuristicRingShape(trig, center, radiusMeters, m);
    assert i as real * m as real == j as real * n as real by {
      assert (i * m) as real == (j * n) as real;
    }
    FractionsEqual(i as real, n as real, j as real, m as real);
  }

  /** The result echoes its inputs and closes a ring of 65 entries by
      default, or of 17 with 16 points. */
  lemma HeuristicIsochroneDefaults(trig: Trig, center: Center, timeMinutes: real, mode: Mode)
    ensures
      var f := HeuristicIsochrone(trig, center, timeMinutes, mode, None);
      && |f.ring| == 65 && f.ring[0] == f.ring[64]
      && f.properties == Properties(center, timeMinutes, mode, "bmad-placeholder", RadiusMeters(timeMinutes, mode))
    ensures |HeuristicIsochrone(trig, center, timeMinutes, mode, Some(16)).ring| == 17
  {
  }
}
