/** The data model shared by every analysis: GPS fixes, runs of fixes, the
    elevation-trend labels, and the great-circle routine of the GPX parsing
    library.
 */
module TrackPoints {

  /** A value that may be absent; `None` stands for the source's `null`. */
  datatype Option<+T> = None | Some(value: T)

  /** One GPS fix. Latitude and longitude in degrees, elevation in metres,
      time in milliseconds since the epoch (the source subtracts `Date`
      objects, which yields milliseconds). */
  datatype TrackPoint = TrackPoint(lat: real, lon: real, elevation: real, time: int)

  /** A contiguous run of fixes, as produced by gap detection. */
  datatype TrackRun = TrackRun(points: seq<TrackPoint>)

  /** The three trend labels of the elevation segmenter. */
  datatype ElevationChangeType = Flat | Rising | Falling

  /** The great-circle routine of the GPX parsing library: kilometres between
      (lat1, lon1) and (lat2, lon2). Its body is foreign code, so every
      analysis takes it as a parameter and nothing is assumed about it
      beyond what a contract states explicitly. */
  type DistanceFn = (real, real, real, real) -> real

  /** The library never reports a negative distance. */
  ghost predicate NonNegative(gc: DistanceFn)
  {
    forall lat1, lon1, lat2, lon2 :: gc(lat1, lon1, lat2, lon2) >= 0.0
  }

  /** Metres between two fixes; elevation plays no part. */
  function Dist(gc: DistanceFn, p: TrackPoint, q: TrackPoint): (d: real)
    ensures NonNegative(gc) ==> d >= 0.0
  {
    gc(p.lat, p.lon, q.lat, q.lon) * 1000.0
  }

  /** Metres between a fix and an arbitrary coordinate. */
  function DistTo(gc: DistanceFn, p: TrackPoint, lat: real, lon: real): (d: real)
    ensures NonNegative(gc) ==> d >= 0.0
  {
    gc(p.lat, p.lon, lat, lon) * 1000.0
  }

  /** All points of a list of runs, in run order. */
  function Flatten(runs: seq<TrackRun>): seq<TrackPoint>
  {
    if runs == [] then [] else runs[0].points + Flatten(runs[1..])
  }

  function Last<T>(s: seq<T>): T
    requires s != []
  {
    s[|s| - 1]
  }

  function Abs(x: real): (a: real)
    ensures a >= 0.0 && (a == x || a == -x)
  {
    if x < 0.0 then -x else x
  }
}
