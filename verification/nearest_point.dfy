/** `findNearestPoint`: the point of a segment closest to a map coordinate,
    with its distance and duration from the segment's start. */
module NearestPoint {
  import opened TrackPoints
  import opened TrackSegments
  import Gaps

  /** One point visited by the scan, with the hop added to the running
      distance when it is visited: 0 for the first point of a run, else the
      distance from this point back to its predecessor in the run. */
  datatype Visit = Visit(point: TrackPoint, hop: real)

  function RunVisits(gc: DistanceFn, run: seq<TrackPoint>): (v: seq<Visit>)
    ensures |v| == |run|
    ensures forall k :: 0 <= k < |v| ==> v[k].point == run[k]
  {
    seq(|run|, k requires 0 <= k < |run| =>
      Visit(run[k], if k == 0 then 0.0 else Dist(gc, run[k], run[k - 1])))
  }

  /** The visits of a segment: run after run, every point once, in order. */
  function SegmentVisits(gc: DistanceFn, runs: seq<TrackRun>): (v: seq<Visit>)
    ensures |v| == |Flatten(runs)|
    ensures forall k :: 0 <= k < |v| ==> v[k].point == Flatten(runs)[k]
  {
    if runs == [] then []
    else RunVisits(gc, runs[0].points) + SegmentVisits(gc, runs[1..])
  }

  /** The state of the scan. */
  datatype NearestState = NearestState(
    bestDistance: Option<real>,
    nearestPoint: Option<TrackPoint>,
    distanceFromStart: real,
    currentDistance: real)

  const Unvisited := NearestState(None, None, 0.0, 0.0)

  /** Whether a point at distance `d` replaces the best so far. The source
      tests `!bestDistance || d < bestDistance`, and `!bestDistance` holds for
      an unset best and for a best of 0; `zeroIsUnset` selects that test, and
      `false` gives the evidently intended test for an unset best only. */
  predicate Replaces(best: Option<real>, d: real, zeroIsUnset: bool)
  {
    best.None? || (zeroIsUnset && best.value == 0.0) || d < best.value
  }

  /** The scan over `visits`, front to back. */
  function Scan(gc: DistanceFn, lat: real, lon: real, visits: seq<Visit>, zeroIsUnset: bool): (s: NearestState)
    ensures visits != [] ==> s.bestDistance.Some? && s.nearestPoint.Some?
    decreases |visits|
  {
    if visits == [] then Unvisited
    else
      var s := Scan(gc, lat, lon, visits[..|visits| - 1], zeroIsUnset);
      var v := Last(visits);
      var current := s.currentDistance + v.hop;
      var d := DistTo(gc, v.point, lat, lon);
      if Replaces(s.bestDistance, d, zeroIsUnset) then NearestState(Some(d), Some(v.point), current, current)
      else s.(currentDistance := current)
  }

  /** The search result: the point, its distance from the segment's first
      point along the runs, and the milliseconds since that first point. */
  datatype Nearest = Nearest(point: TrackPoint, distance: real, duration: int)

  function FindWith(gc: DistanceFn, segment: TrackSegment, lat: real, lon: real, zeroIsUnset: bool): Nearest
    requires |segment.trackRuns| > 0 && |segment.trackRuns[0].points| > 0
  {
    var runs := segment.trackRuns;
    var firstPoint := runs[0].points[0];
    var visits := SegmentVisits(gc, runs);
    assert visits != [] by {
      assert |Flatten(runs)| >= |runs[0].points|;
    }
    var s := Scan(gc, lat, lon, visits, zeroIsUnset);
    Nearest(s.nearestPoint.value, s.distanceFromStart, s.nearestPoint.value.time - firstPoint.time)
  }

  /** `findNearestPoint`, as written. The source dereferences the first point
      of the first run, so a segment without one is outside its domain. */
  function FindNearestPoint(gc: DistanceFn, segment: TrackSegment, lat: real, lon: real): Nearest
    requires |segment.trackRuns| > 0 && |segment.trackRuns[0].points| > 0
  {
    FindWith(gc, segment, lat, lon, true)
  }

  /** `findNearestPoint` with the evidently intended test for an unset best. */
  function FindNearestPointIntended(gc: DistanceFn, segment: TrackSegment, lat: real, lon: real): Nearest
    requires |segment.trackRuns| > 0 && |segment.trackRuns[0].points| > 0
  {
    FindWith(gc, segment, lat, lon, false)
  }

  /** The distance from each visited point to (lat, lon). */
  function Distances(gc: DistanceFn, lat: real, lon: real, visits: seq<Visit>): (ds: seq<real>)
    ensures |ds| == |visits|
    ensures forall j :: 0 <= j < |ds| ==> ds[j] == DistTo(gc, visits[j].point, lat, lon)
  {
    seq(|visits|, j requires 0 <= j < |visits| => DistTo(gc, visits[j].point, lat, lon))
  }

  /** Index `k` holds the smallest of `ds`, and no earlier index holds it. */
  ghost predicate IsFirstMinimum(ds: seq<real>, k: int)
  {
    && 0 <= k < |ds|
    && (forall j :: 0 <= j < |ds| ==> ds[k] <= ds[j])
    && (forall j :: 0 <= j < k ==> ds[k] < ds[j])
  }

  /** The index of the first smallest element. */
  function FirstMinimum(ds: seq<real>): (k: nat)
    requires ds != []
    ensures IsFirstMinimum(ds, k)
    decreases |ds|
  {
    if |ds| == 1 then 0
    else
      var init := ds[..|ds| - 1];
      var k := FirstMinimum(init);
      assert forall j :: 0 <= j < |init| ==> init[j] == ds[j];
      if Last(ds) < ds[k] then |ds| - 1 else k
  }

  /** The sum of the hops of `visits`. */
  function HopSum(visits: seq<Visit>): real
    decreases |visits|
  {
    if visits == [] then 0.0 else HopSum(visits[..|visits| - 1]) + Last(visits).hop
  }

  /** The scan's running distance is the sum of all hops. */
  lemma {:induction false} ScanSumsHops(gc: DistanceFn, lat: real, lon: real, visits: seq<Visit>, zeroIsUnset: bool)
    ensures Scan(gc, lat, lon, visits, zeroIsUnset).currentDistance == HopSum(visits)
    decreases |visits|
  {
    if visits != [] {
      ScanSumsHops(gc, lat, lon, visits[..|visits| - 1], zeroIsUnset);
    }
  }

  /** What the scan holds after visiting `visits`, given the first minimum
      `k` of their distances. */
  ghost predicate HoldsFirstMinimum(gc: DistanceFn, lat: real, lon: real, visits: seq<Visit>,
                                    s: NearestState, k: nat)
    requires k < |visits|
  {
    && s.nearestPoint == Some(visits[k].point)
    && s.bestDistance == Some(DistTo(gc, visits[k].point, lat, lon))
    && s.distanceFromStart == HopSum(visits[..k + 1])
  }

  /** One step of the scan keeps the first minimum. */
  lemma ScanStepKeepsFirstMinimum(gc: DistanceFn, lat: real, lon: real, visits: seq<Visit>, zeroIsUnset: bool)
    requires |visits| >= 2
    requires zeroIsUnset ==> forall j :: 0 <= j < |visits| ==> DistTo(gc, visits[j].point, lat, lon) > 0.0
    requires var init := visits[..|visits| - 1];
      HoldsFirstMinimum(gc, lat, lon, init, Scan(gc, lat, lon, init, zeroIsUnset),
                        FirstMinimum(Distances(gc, lat, lon, init)))
    requires Scan(gc, lat, lon, visits[..|visits| - 1], zeroIsUnset).currentDistance
          == HopSum(visits[..|visits| - 1])
    ensures HoldsFirstMinimum(gc, lat, lon, visits, Scan(gc, lat, lon, visits, zeroIsUnset),
                              FirstMinimum(Distances(gc, lat, lon, visits)))
  {
    var n := |visits|;
    var ds := Distances(gc, lat, lon, visits);
    var init := visits[..n - 1];
    assert Distances(gc, lat, lon, init) == ds[..n - 1];
    var s := Scan(gc, lat, lon, init, zeroIsUnset);
    var k' := FirstMinimum(ds[..n - 1]);
    var k := FirstMinimum(ds);
    assert k == if ds[n - 1] < ds[k'] then n - 1 else k';
    ReplacesIff(s.bestDistance, ds[k'], ds[n - 1], zeroIsUnset);
    if k == n - 1 {
      assert visits[..n] == visits;
    } else {
      assert init[..k' + 1] == visits[..k' + 1];
    }
  }

  /** The scan keeps the first minimum, with the hop sum up to it, provided a
      zero best is never mistaken for an unset one. */
  lemma {:induction false} ScanFindsFirstMinimum(gc: DistanceFn, lat: real, lon: real, visits: seq<Visit>,
                                                 zeroIsUnset: bool)
    requires visits != []
    requires zeroIsUnset ==> forall j :: 0 <= j < |visits| ==> DistTo(gc, visits[j].point, lat, lon) > 0.0
    ensures HoldsFirstMinimum(gc, lat, lon, visits, Scan(gc, lat, lon, visits, zeroIsUnset),
                              FirstMinimum(Distances(gc, lat, lon, visits)))
    decreases |visits|
  {
    if |visits| == 1 {
      assert visits[..1] == visits;
      assert visits[..0] == [];
    } else {
      var init := visits[..|visits| - 1];
      ScanFindsFirstMinimum(gc, lat, lon, init, zeroIsUnset);
      ScanSumsHops(gc, lat, lon, init, zeroIsUnset);
      ScanStepKeepsFirstMinimum(gc, lat, lon, visits, zeroIsUnset);
    }
  }

  lemma ReplacesIff(best: Option<real>, b: real, d: real, zeroIsUnset: bool)
    requires best == Some(b) && (zeroIsUnset ==> b > 0.0)
    ensures Replaces(best, d, zeroIsUnset) <==> d < b
  {
  }

  /** As written: when no point lies exactly on the query, the result is the
      first point at the smallest distance; its distance counts only the hops
      within runs up to it, and its duration is measured from the segment's
      first point in milliseconds. */
  lemma NearestIsFirstMinimum(gc: DistanceFn, segment: TrackSegment, lat: real, lon: real)
    requires |segment.trackRuns| > 0 && |segment.trackRuns[0].points| > 0
    requires forall p :: p in Flatten(segment.trackRuns) ==> DistTo(gc, p, lat, lon) > 0.0
    ensures var r := FindNearestPoint(gc, segment, lat, lon);
      var visits := SegmentVisits(gc, segment.trackRuns);
      var k := FirstMinimum(Distances(gc, lat, lon, visits));
      && r.point == Flatten(segment.trackRuns)[k]
      && r.distance == HopSum(visits[..k + 1])
      && r.duration == r.point.time - segment.trackRuns[0].points[0].time
  {
    var visits := SegmentVisits(gc, segment.trackRuns);
    assert forall j :: 0 <= j < |visits| ==> visits[j].point in Flatten(segment.trackRuns);
    ScanFindsFirstMinimum(gc, lat, lon, visits, true);
  }

  /** With the intended test the result is the first point at the smallest
      distance for every query, including one that lies exactly on a point. */
  lemma NearestIntendedIsFirstMinimum(gc: DistanceFn, segment: TrackSegment, lat: real, lon: real)
    requires |segment.trackRuns| > 0 && |segment.trackRuns[0].points| > 0
    ensures var r := FindNearestPointIntended(gc, segment, lat, lon);
      var visits := SegmentVisits(gc, segment.trackRuns);
      var k := FirstMinimum(Distances(gc, lat, lon, visits));
      && r.point == Flatten(segment.trackRuns)[k]
      && r.distance == HopSum(visits[..k + 1])
      && r.duration == r.point.time - segment.trackRuns[0].points[0].time
  {
    ScanFindsFirstMinimum(gc, lat, lon, SegmentVisits(gc, segment.trackRuns), false);
  }

  /** A distance routine that is 0 km between equal coordinates and 1 km
      otherwise. */
  function Exact(lat1: real, lon1: real, lat2: real, lon2: real): real
  {
    if lat1 == lat2 && lon1 == lon2 then 0.0 else 1.0
  }

  /** A query placed exactly on the first of two points recorded 1 ms apart,
      which `new TrackSegment` keeps in one run: as written the scan takes the
      0 m best for unset and returns the second point; the intended test
      returns the first. */
  lemma ExactHitIsOverwritten()
    ensures var p := TrackPoint(0.0, 0.0, 0.0, 0);
      var q := TrackPoint(1.0, 1.0, 0.0, 1);
      var segment := NewTrackSegment(Exact, [p, q]);
      && segment.trackRuns == [TrackRun([p, q])]
      && FindNearestPoint(Exact, segment, 0.0, 0.0).point == q
      && FindNearestPointIntended(Exact, segment, 0.0, 0.0).point == p
  {
    var p := TrackPoint(0.0, 0.0, 0.0, 0);
    var q := TrackPoint(1.0, 1.0, 0.0, 1);
    var pts := [p, q];
    assert !Gaps.IsGap(Exact, p, q);
    assert Gaps.GapsFrom(Exact, pts, 2, 0) == [TrackRun(pts[0..])];
    assert pts[0..] == pts;
    assert NewTrackSegment(Exact, pts).trackRuns == [TrackRun(pts)];
    var runs := [TrackRun([p, q])];
    var visits := SegmentVisits(Exact, runs);
    assert runs[1..] == [];
    assert visits == RunVisits(Exact, [p, q]);
    assert visits[..1][..0] == [];
    assert visits[0].point == p && visits[1].point == q;
    assert Last(visits[..1]) == visits[0];
    assert Scan(Exact, 0.0, 0.0, visits[..1][..0], true) == Unvisited;
    assert Scan(Exact, 0.0, 0.0, visits[..1][..0], false) == Unvisited;
    var s1 := Scan(Exact, 0.0, 0.0, visits[..1], true);
    assert DistTo(Exact, p, 0.0, 0.0) == 0.0;
    assert DistTo(Exact, q, 0.0, 0.0) == 1000.0;
    assert s1.bestDistance == Some(0.0);
    assert visits[..2] == visits;
    assert Scan(Exact, 0.0, 0.0, visits, true).nearestPoint == Some(q);
    var t1 := Scan(Exact, 0.0, 0.0, visits[..1], false);
    assert t1.bestDistance == Some(0.0) && t1.nearestPoint == Some(p);
    assert Scan(Exact, 0.0, 0.0, visits, false).nearestPoint == Some(p);
  }
}
