/** `TrackSegment`: the statistics of one recorded segment, folded over its
    points, and the collection of all segments of a parsed GPX document. */
module TrackSegments {
  import opened TrackPoints
  import opened GeoMath
  import Gaps

  /** The two corners of a bounding box; `None` until a point is seen. */
  datatype Bounds = Bounds(minLat: Option<real>, minLon: Option<real>, maxLat: Option<real>, maxLon: Option<real>)

  const NoBounds := Bounds(None, None, None, None)

  datatype TrackSegment = TrackSegment(
    trackRuns: seq<TrackRun>,
    lowestElevation: Option<real>,
    highestElevation: Option<real>,
    bounds: Bounds,
    totalDistance: real,
    elevationGain: real,
    elevationLoss: real,
    numberOfPoints: nat)

  /** Which coordinate of a point a bound is about. */
  datatype Coordinate = Latitude | Longitude | Elevation

  function Get(p: TrackPoint, c: Coordinate): real
  {
    match c
    case Latitude => p.lat
    case Longitude => p.lon
    case Elevation => p.elevation
  }

  /** `b` is the least value of coordinate `c` over `pts`, and absent exactly
      when `pts` is empty. */
  ghost predicate IsLeast(b: Option<real>, pts: seq<TrackPoint>, c: Coordinate)
  {
    if pts == [] then b.None?
    else
      && b.Some?
      && (forall i :: 0 <= i < |pts| ==> b.value <= Get(pts[i], c))
      && (exists i :: 0 <= i < |pts| && Get(pts[i], c) == b.value)
  }

  /** `b` is the greatest value of coordinate `c` over `pts`, and absent
      exactly when `pts` is empty. */
  ghost predicate IsGreatest(b: Option<real>, pts: seq<TrackPoint>, c: Coordinate)
  {
    if pts == [] then b.None?
    else
      && b.Some?
      && (forall i :: 0 <= i < |pts| ==> Get(pts[i], c) <= b.value)
      && (exists i :: 0 <= i < |pts| && Get(pts[i], c) == b.value)
  }

  /** The running minimum: replaced when unset or when `x` is smaller. */
  function Lower(current: Option<real>, x: real): Option<real>
  {
    if current.None? || x < current.value then Some(x) else current
  }

  /** The running maximum: replaced when unset or when `x` is larger. */
  function Higher(current: Option<real>, x: real): Option<real>
  {
    if current.None? || x > current.value then Some(x) else current
  }

  lemma LowerExtends(b: Option<real>, pts: seq<TrackPoint>, t: TrackPoint, c: Coordinate)
    requires IsLeast(b, pts, c)
    ensures IsLeast(Lower(b, Get(t, c)), pts + [t], c)
  {
    var ext := pts + [t];
    assert ext[|pts|] == t;
    if pts != [] {
      var i :| 0 <= i < |pts| && Get(pts[i], c) == b.value;
      assert ext[i] == pts[i];
    }
  }

  lemma HigherExtends(b: Option<real>, pts: seq<TrackPoint>, t: TrackPoint, c: Coordinate)
    requires IsGreatest(b, pts, c)
    ensures IsGreatest(Higher(b, Get(t, c)), pts + [t], c)
  {
    var ext := pts + [t];
    assert ext[|pts|] == t;
    if pts != [] {
      var i :| 0 <= i < |pts| && Get(pts[i], c) == b.value;
      assert ext[i] == pts[i];
    }
  }

  /** The accumulator of the statistics loop. */
  datatype PointFold = PointFold(
    totalDistance: real,
    lowest: Option<real>,
    highest: Option<real>,
    bounds: Bounds,
    previous: Option<TrackPoint>,
    elevationGain: real,
    elevationLoss: real)

  const EmptyFold := PointFold(0.0, None, None, NoBounds, None, 0.0, 0.0)

  /** One iteration of the statistics loop: widen the box and the elevation
      range, then, from the second point on, add the hop and book the
      elevation change as gain (positive) or loss (otherwise). */
  function VisitPoint(gc: DistanceFn, f: PointFold, t: TrackPoint): PointFold
  {
    var bounds := Bounds(Lower(f.bounds.minLat, t.lat), Lower(f.bounds.minLon, t.lon),
                         Higher(f.bounds.maxLat, t.lat), Higher(f.bounds.maxLon, t.lon));
    var lowest := Lower(f.lowest, t.elevation);
    var highest := Higher(f.highest, t.elevation);
    match f.previous
    case None =>
      PointFold(f.totalDistance, lowest, highest, bounds, Some(t), f.elevationGain, f.elevationLoss)
    case Some(prev) =>
      var change := t.elevation - prev.elevation;
      PointFold(f.totalDistance + Dist(gc, prev, t), lowest, highest, bounds, Some(t),
                if change > 0.0 then f.elevationGain + change else f.elevationGain,
                if change > 0.0 then f.elevationLoss else f.elevationLoss + Abs(change))
  }

  /** The statistics loop over `pts`, front to back. */
  function FoldPoints(gc: DistanceFn, pts: seq<TrackPoint>): PointFold
    decreases |pts|
  {
    if pts == [] then EmptyFold else VisitPoint(gc, FoldPoints(gc, pts[..|pts| - 1]), Last(pts))
  }

  /** A step between equal elevations is booked as neither gain nor loss. */
  lemma LevelStepBooksNothing(gc: DistanceFn, f: PointFold, t: TrackPoint)
    requires f.previous.Some? && f.previous.value.elevation == t.elevation
    ensures VisitPoint(gc, f, t).elevationGain == f.elevationGain
    ensures VisitPoint(gc, f, t).elevationLoss == f.elevationLoss
  {
  }

  /** The climb from `p` to `q`: the elevation change when it is positive,
      otherwise 0. */
  function Rise(p: TrackPoint, q: TrackPoint): (r: real)
    ensures r >= 0.0
  {
    if q.elevation > p.elevation then q.elevation - p.elevation else 0.0
  }

  /** The descent from `p` to `q`: the size of the elevation change when it
      is not positive, otherwise 0. */
  function Drop(p: TrackPoint, q: TrackPoint): (r: real)
    ensures r >= 0.0
  {
    if q.elevation > p.elevation then 0.0 else p.elevation - q.elevation
  }

  /** Total ascent of a path: the climbs between consecutive points, summed. */
  function Ascent(pts: seq<TrackPoint>): (a: real)
    ensures |pts| < 2 ==> a == 0.0
    ensures a >= 0.0
    decreases |pts|
  {
    if |pts| < 2 then 0.0 else Ascent(pts[..|pts| - 1]) + Rise(pts[|pts| - 2], pts[|pts| - 1])
  }

  /** Total descent of a path: the descents between consecutive points,
      summed. */
  function Descent(pts: seq<TrackPoint>): (a: real)
    ensures |pts| < 2 ==> a == 0.0
    ensures a >= 0.0
    decreases |pts|
  {
    if |pts| < 2 then 0.0 else Descent(pts[..|pts| - 1]) + Drop(pts[|pts| - 2], pts[|pts| - 1])
  }

  /** Ascent less descent is the net climb from the first point to the last. */
  lemma {:induction false} AscentLessDescent(pts: seq<TrackPoint>)
    requires pts != []
    ensures Ascent(pts) - Descent(pts) == Last(pts).elevation - pts[0].elevation
    decreases |pts|
  {
    if |pts| >= 2 {
      var init := pts[..|pts| - 1];
      AscentLessDescent(init);
      assert init[0] == pts[0] && Last(init) == pts[|pts| - 2];
    }
  }

  /** Ascent and descent are additive: joining two non-empty paths adds
      exactly the climb, or the descent, across the join. */
  lemma {:induction false} AscentAppend(a: seq<TrackPoint>, b: seq<TrackPoint>)
    requires a != [] && b != []
    ensures Ascent(a + b) == Ascent(a) + Rise(Last(a), b[0]) + Ascent(b)
    ensures Descent(a + b) == Descent(a) + Drop(Last(a), b[0]) + Descent(b)
    decreases |b|
  {
    if |b| == 1 {
      assert (a + b)[..|a + b| - 1] == a;
    } else {
      var b' := b[..|b| - 1];
      assert (a + b)[..|a + b| - 1] == a + b';
      AscentAppend(a, b');
      assert b'[0] == b[0];
    }
  }

  /** The fold measures the path: its distance is the path length, its gain
      the total ascent and its loss the total descent, so their difference is
      the net climb. */
  lemma {:induction false} FoldMeasuresPath(gc: DistanceFn, pts: seq<TrackPoint>)
    ensures var f := FoldPoints(gc, pts);
      && f.previous == (if pts == [] then None else Some(Last(pts)))
      && f.totalDistance == DistanceFromArray(gc, pts)
      && f.elevationGain == Ascent(pts) && f.elevationLoss == Descent(pts)
      && (pts != [] ==> f.elevationGain - f.elevationLoss == Last(pts).elevation - pts[0].elevation)
    decreases |pts|
  {
    if pts != [] {
      var init := pts[..|pts| - 1];
      FoldMeasuresPath(gc, init);
      if init != [] {
        assert Last(init) == pts[|pts| - 2];
      }
      AscentLessDescent(pts);
    }
  }

  /** The running minimum the fold keeps for coordinate `c`. */
  function Least(f: PointFold, c: Coordinate): Option<real>
  {
    match c
    case Latitude => f.bounds.minLat
    case Longitude => f.bounds.minLon
    case Elevation => f.lowest
  }

  /** The running maximum the fold keeps for coordinate `c`. */
  function Greatest(f: PointFold, c: Coordinate): Option<real>
  {
    match c
    case Latitude => f.bounds.maxLat
    case Longitude => f.bounds.maxLon
    case Elevation => f.highest
  }

  /** The fold's running minimum of each coordinate is the least value over
      the points visited so far. */
  lemma {:induction false} FoldLeast(gc: DistanceFn, pts: seq<TrackPoint>, c: Coordinate)
    ensures IsLeast(Least(FoldPoints(gc, pts), c), pts, c)
    decreases |pts|
  {
    if pts != [] {
      var init := pts[..|pts| - 1];
      var f := FoldPoints(gc, init);
      FoldLeast(gc, init, c);
      assert init + [Last(pts)] == pts;
      assert Least(FoldPoints(gc, pts), c) == Lower(Least(f, c), Get(Last(pts), c));
      LowerExtends(Least(f, c), init, Last(pts), c);
    }
  }

  /** The fold's running maximum of each coordinate is the greatest value
      over the points visited so far. */
  lemma {:induction false} FoldGreatest(gc: DistanceFn, pts: seq<TrackPoint>, c: Coordinate)
    ensures IsGreatest(Greatest(FoldPoints(gc, pts), c), pts, c)
    decreases |pts|
  {
    if pts != [] {
      var init := pts[..|pts| - 1];
      var f := FoldPoints(gc, init);
      FoldGreatest(gc, init, c);
      assert init + [Last(pts)] == pts;
      assert Greatest(FoldPoints(gc, pts), c) == Higher(Greatest(f, c), Get(Last(pts), c));
      HigherExtends(Greatest(f, c), init, Last(pts), c);
    }
  }

  /** The fold's box and elevation range are the tight ones over `pts`. */
  lemma FoldBoundsPoints(gc: DistanceFn, pts: seq<TrackPoint>)
    ensures var f := FoldPoints(gc, pts);
      && IsLeast(f.bounds.minLat, pts, Latitude)
      && IsLeast(f.bounds.minLon, pts, Longitude)
      && IsGreatest(f.bounds.maxLat, pts, Latitude)
      && IsGreatest(f.bounds.maxLon, pts, Longitude)
      && IsLeast(f.lowest, pts, Elevation)
      && IsGreatest(f.highest, pts, Elevation)
  {
    FoldLeast(gc, pts, Latitude);
    FoldLeast(gc, pts, Longitude);
    FoldLeast(gc, pts, Elevation);
    FoldGreatest(gc, pts, Latitude);
    FoldGreatest(gc, pts, Longitude);
    FoldGreatest(gc, pts, Elevation);
  }

  /** The count, distance, total ascent and total descent of a segment,
      stated against its points. */
  ghost predicate Measures(gc: DistanceFn, pts: seq<TrackPoint>, s: TrackSegment)
  {
    && s.numberOfPoints == |pts|
    && s.totalDistance == DistanceFromArray(gc, pts)
    && s.elevationGain == Ascent(pts) && s.elevationLoss == Descent(pts)
    && s.elevationGain >= 0.0 && s.elevationLoss >= 0.0
    && (pts != [] ==> s.elevationGain - s.elevationLoss == Last(pts).elevation - pts[0].elevation)
  }

  /** The box and elevation range of a segment are the tight ones over its
      points. */
  ghost predicate Encloses(pts: seq<TrackPoint>, s: TrackSegment)
  {
    && IsLeast(s.bounds.minLat, pts, Latitude)
    && IsLeast(s.bounds.minLon, pts, Longitude)
    && IsGreatest(s.bounds.maxLat, pts, Latitude)
    && IsGreatest(s.bounds.maxLon, pts, Longitude)
    && IsLeast(s.lowestElevation, pts, Elevation)
    && IsGreatest(s.highestElevation, pts, Elevation)
  }

  /** The statistics every `TrackSegment` carries, stated against its points. */
  ghost predicate Summarises(gc: DistanceFn, pts: seq<TrackPoint>, s: TrackSegment)
  {
    Gaps.SplitsAtGaps(gc, pts, s.trackRuns) && Measures(gc, pts, s) && Encloses(pts, s)
  }

  /** `new TrackSegment(trackPoints)`: the runs of the points and their
      statistics. */
  function NewTrackSegment(gc: DistanceFn, pts: seq<TrackPoint>): (s: TrackSegment)
    ensures Summarises(gc, pts, s)
    ensures |Flatten(s.trackRuns)| == s.numberOfPoints
  {
    FoldMeasuresPath(gc, pts);
    FoldBoundsPoints(gc, pts);
    var f := FoldPoints(gc, pts);
    TrackSegment(Gaps.GetGaps(gc, pts), f.lowest, f.highest, f.bounds,
                 f.totalDistance, f.elevationGain, f.elevationLoss, |pts|)
  }

  /** One `<trk>` of a parsed GPX document: its point lists. */
  datatype GpxTrack = GpxTrack(segments: seq<seq<TrackPoint>>)

  /** A parsed GPX document. */
  datatype Gpx = Gpx(tracks: seq<GpxTrack>)

  /** The point lists of all tracks, in document order. */
  function GpxSegments(tracks: seq<GpxTrack>): seq<seq<TrackPoint>>
  {
    if tracks == [] then [] else tracks[0].segments + GpxSegments(tracks[1..])
  }

  /** The `TrackSegment`s of a list of tracks, in document order. */
  function SegmentsOfTracks(gc: DistanceFn, tracks: seq<GpxTrack>): (r: seq<TrackSegment>)
    ensures |r| == |GpxSegments(tracks)|
    ensures forall k :: 0 <= k < |r| ==> r[k] == NewTrackSegment(gc, GpxSegments(tracks)[k])
  {
    if tracks == [] then []
    else
      var own := tracks[0].segments;
      seq(|own|, k requires 0 <= k < |own| => NewTrackSegment(gc, own[k]))
        + SegmentsOfTracks(gc, tracks[1..])
  }

  /** `trackSegments(gpx)`: one `TrackSegment` per point list of the document. */
  function TrackSegmentsOf(gc: DistanceFn, gpx: Gpx): (r: seq<TrackSegment>)
    ensures |r| == |GpxSegments(gpx.tracks)|
    ensures forall k :: 0 <= k < |r| ==> Summarises(gc, GpxSegments(gpx.tracks)[k], r[k])
  {
    var r := SegmentsOfTracks(gc, gpx.tracks);
    assert forall k :: 0 <= k < |r| ==> Summarises(gc, GpxSegments(gpx.tracks)[k], NewTrackSegment(gc, GpxSegments(gpx.tracks)[k]));
    r
  }
}
