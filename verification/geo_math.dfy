/** Unit conversions, path length, average speed and the `Math.trunc` used by
    the resampler. */
module GeoMath {
  import opened TrackPoints

  /** Metres to international feet. The factor is within 1e-7 (relative) of the
      exact 1 / 0.3048. */
  function MetersToFeet(v: real): (feet: real)
    ensures Abs(feet * 0.3048 - v) <= Abs(v) / 10_000_000.0
  {
    v * 3.28084
  }

  function MetersToKm(v: real): (km: real)
    ensures km * 1000.0 == v
  {
    v / 1000.0
  }

  /** Metres to miles, using the rounded mile of 1609.34 m. */
  function MetersToMiles(v: real): (miles: real)
    ensures miles * 1609.34 == v
  {
    v / 1609.34
  }

  function MilesToMeters(v: real): (meters: real)
    ensures meters / 1609.34 == v
  {
    v * 1609.34
  }

  /** The two mile conversions are exact inverses of each other. */
  lemma MilesRoundTrip(v: real)
    ensures MilesToMeters(MetersToMiles(v)) == v
    ensures MetersToMiles(MilesToMeters(v)) == v
  {
  }

  /** Metres per second to miles per hour. The factor is within 1e-7
      (relative) of the exact 1 / 0.44704. */
  function MetersPerSecondToMilesPerHour(v: real): (mph: real)
    ensures Abs(mph * 0.44704 - v) <= Abs(v) / 10_000_000.0
  {
    v * 2.2369362921
  }

  /** The path length of a point list: the sum of the distances between
      consecutive points, accumulated front to back. */
  function DistanceFromArray(gc: DistanceFn, pts: seq<TrackPoint>): (d: real)
    ensures |pts| < 2 ==> d == 0.0
    ensures NonNegative(gc) ==> d >= 0.0
    decreases |pts|
  {
    if |pts| < 2 then 0.0
    else DistanceFromArray(gc, pts[..|pts| - 1]) + Dist(gc, pts[|pts| - 2], pts[|pts| - 1])
  }

  /** Path length is additive: joining two non-empty point lists adds exactly
      the hop between them. */
  lemma {:induction false} DistanceFromArrayAppend(gc: DistanceFn, a: seq<TrackPoint>, b: seq<TrackPoint>)
    requires a != [] && b != []
    ensures DistanceFromArray(gc, a + b)
         == DistanceFromArray(gc, a) + Dist(gc, Last(a), b[0]) + DistanceFromArray(gc, b)
    decreases |b|
  {
    if |b| == 1 {
      assert (a + b)[..|a + b| - 1] == a;
    } else {
      var b' := b[..|b| - 1];
      assert (a + b)[..|a + b| - 1] == a + b';
      DistanceFromArrayAppend(gc, a, b');
      assert b'[0] == b[0];
    }
  }

  /** Metres per second over the whole list: path length divided by the time
      between the first and the last point. Fewer than two points give 0. */
  function AverageSpeed(gc: DistanceFn, pts: seq<TrackPoint>): (speed: real)
    requires |pts| >= 2 ==> Last(pts).time != pts[0].time
    ensures |pts| < 2 ==> speed == 0.0
    ensures |pts| >= 2 ==>
      speed * ((Last(pts).time - pts[0].time) as real / 1000.0) == DistanceFromArray(gc, pts)
  {
    if |pts| < 2 then 0.0
    else
      var timeSeconds := (Last(pts).time - pts[0].time) as real / 1000.0;
      DistanceFromArray(gc, pts) / timeSeconds
  }

  /** `Math.trunc`: rounds toward zero. */
  function Trunc(x: real): (n: int)
    ensures 0.0 <= x ==> n as real <= x < n as real + 1.0
    ensures x < 0.0 ==> n as real - 1.0 < x <= n as real
  {
    if x >= 0.0 then x.Floor else -((-x).Floor)
  }

  lemma TruncMonotone(x: real, y: real)
    requires x <= y
    ensures Trunc(x) <= Trunc(y)
  {
    if 0.0 <= x {
      assert Trunc(x) as real <= x <= y < Trunc(y) as real + 1.0;
    } else if y < 0.0 {
      assert Trunc(x) as real - 1.0 < x <= y <= Trunc(y) as real;
    }
  }

  /** Dividing by a positive spacing keeps order. */
  lemma DivideMonotone(x: real, y: real, m: real)
    requires x <= y && m > 0.0
    ensures x / m <= y / m
  {
    assert y / m - x / m == (y - x) / m;
  }
}
