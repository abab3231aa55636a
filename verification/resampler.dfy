/** Distance and time markers along the runs of each segment. */
module Resampler {
  import opened TrackPoints
  import opened GeoMath
  import opened TrackSegments

  /** A distance marker: the point where the `distance`-th spacing was
      crossed. */
  datatype DistanceMarker = DistanceMarker(point: TrackPoint, distance: int)

  /** A time marker: the point where a time spacing was crossed, with the
      seconds elapsed since the segment's first point. */
  datatype TimeMarker = TimeMarker(point: TrackPoint, time: real)

  /** The state of the distance sweep within one segment. */
  datatype DistanceSweep = DistanceSweep(distance: real, previous: TrackPoint, markers: seq<DistanceMarker>)

  /** Whether a step that takes the accumulated distance from `from` to `to`
      earns a marker: the whole number of spacings grows, and the overshoot
      past the new whole number is at most a tenth of a spacing. */
  predicate EarnsDistanceMarker(from: real, to: real, metersApart: real)
    requires metersApart > 0.0
  {
    Trunc(from / metersApart) < Trunc(to / metersApart)
    && to / metersApart - Trunc(to / metersApart) as real <= 0.1
  }

  /** One visit of the distance sweep: add the hop from the previous point,
      and mark the current point with the new whole number of spacings when it
      earns a marker. */
  function DistanceStep(gc: DistanceFn, metersApart: real, s: DistanceSweep, current: TrackPoint): DistanceSweep
    requires metersApart > 0.0
  {
    var distance := s.distance + Dist(gc, s.previous, current);
    var after := Trunc(distance / metersApart);
    DistanceSweep(distance, current,
                  if EarnsDistanceMarker(s.distance, distance, metersApart)
                  then s.markers + [DistanceMarker(current, after)]
                  else s.markers)
  }

  /** The distance sweep over `pts`, starting with `first` as the previous
      point and 0 m accumulated. */
  function SweepDistance(gc: DistanceFn, metersApart: real, first: TrackPoint, pts: seq<TrackPoint>): DistanceSweep
    requires metersApart > 0.0
    decreases |pts|
  {
    if pts == [] then DistanceSweep(0.0, first, [])
    else DistanceStep(gc, metersApart, SweepDistance(gc, metersApart, first, pts[..|pts| - 1]), Last(pts))
  }

  /** The markers of one segment: nothing when it has no runs or its first run
      is empty; otherwise the sweep over all its points, run after run, from
      its very first point. */
  function SegmentDistancePoints(gc: DistanceFn, segment: TrackSegment, metersApart: real): (r: seq<DistanceMarker>)
    requires metersApart > 0.0
    ensures segment.trackRuns == [] || segment.trackRuns[0].points == [] ==> r == []
  {
    var runs := segment.trackRuns;
    if |runs| > 0 && |runs[0].points| > 0 then
      SweepDistance(gc, metersApart, runs[0].points[0], Flatten(runs)).markers
    else []
  }

  /** `getDistancePoints`: the markers of every segment, in order; the
      accumulated distance restarts at every segment. */
  function DistancePoints(gc: DistanceFn, segments: seq<TrackSegment>, metersApart: real): seq<DistanceMarker>
    requires metersApart > 0.0
  {
    if segments == [] then []
    else SegmentDistancePoints(gc, segments[0], metersApart) + DistancePoints(gc, segments[1..], metersApart)
  }

  /** Reference for the distance sweep over `path` (the start point followed
      by the visited points): the markers of steps 1..`n`, where step `k`
      reaches `path[k]` and the accumulated distance after it is the length
      of `path[..k + 1]`. */
  function DistanceCrossings(gc: DistanceFn, metersApart: real, path: seq<TrackPoint>, n: nat): seq<DistanceMarker>
    requires metersApart > 0.0 && n < |path|
  {
    if n == 0 then []
    else
      var from := DistanceFromArray(gc, path[..n]);
      var to := DistanceFromArray(gc, path[..n + 1]);
      DistanceCrossings(gc, metersApart, path, n - 1)
        + (if EarnsDistanceMarker(from, to, metersApart)
           then [DistanceMarker(path[n], Trunc(to / metersApart))] else [])
  }

  /** The sweep's running distance is the length of the path from the start
      point through every visited point (so the hop from the start point to
      itself is counted, and so is every hop between runs), and its markers
      are exactly the reference crossings. */
  lemma {:induction false} SweepDistanceMatchesCrossings(gc: DistanceFn, metersApart: real, first: TrackPoint,
                                                         pts: seq<TrackPoint>, k: nat)
    requires metersApart > 0.0 && k <= |pts|
    ensures var s := SweepDistance(gc, metersApart, first, pts[..k]);
      var path := [first] + pts;
      && s.distance == DistanceFromArray(gc, path[..k + 1])
      && s.previous == path[k]
      && s.markers == DistanceCrossings(gc, metersApart, path, k)
    decreases k
  {
    if k > 0 {
      var path := [first] + pts;
      SweepDistanceMatchesCrossings(gc, metersApart, first, pts, k - 1);
      var s0 := SweepDistance(gc, metersApart, first, pts[..k - 1]);
      assert pts[..k][..k - 1] == pts[..k - 1];
      assert Last(pts[..k]) == path[k];
      assert SweepDistance(gc, metersApart, first, pts[..k]) == DistanceStep(gc, metersApart, s0, path[k]);
      assert path[..k + 1][..k] == path[..k];
      assert DistanceFromArray(gc, path[..k + 1]) == s0.distance + Dist(gc, path[k - 1], path[k]);
    }
  }

  /** The distance sweep over a whole path. */
  lemma SweepDistanceWhole(gc: DistanceFn, metersApart: real, first: TrackPoint, pts: seq<TrackPoint>)
    requires metersApart > 0.0
    ensures var s := SweepDistance(gc, metersApart, first, pts);
      && s.distance == DistanceFromArray(gc, [first] + pts)
      && s.markers == DistanceCrossings(gc, metersApart, [first] + pts, |pts|)
  {
    SweepDistanceMatchesCrossings(gc, metersApart, first, pts, |pts|);
    assert pts[..|pts|] == pts;
    assert ([first] + pts)[..|pts| + 1] == [first] + pts;
  }

  /** The markers of a distance sweep are at least 1, strictly increasing,
      and never past the whole number of spacings covered. */
  ghost predicate DistanceMarkersOrdered(s: DistanceSweep, metersApart: real)
    requires metersApart > 0.0
  {
    && s.distance >= 0.0
    && (forall i :: 0 <= i < |s.markers| ==> 1 <= s.markers[i].distance <= Trunc(s.distance / metersApart))
    && (forall i, j :: 0 <= i < j < |s.markers| ==> s.markers[i].distance < s.markers[j].distance)
  }

  lemma DistanceStepKeepsOrder(gc: DistanceFn, metersApart: real, s: DistanceSweep, current: TrackPoint)
    requires metersApart > 0.0 && NonNegative(gc)
    requires DistanceMarkersOrdered(s, metersApart)
    ensures DistanceMarkersOrdered(DistanceStep(gc, metersApart, s, current), metersApart)
  {
    var distance := s.distance + Dist(gc, s.previous, current);
    var before := Trunc(s.distance / metersApart);
    var after := Trunc(distance / metersApart);
    DivideMonotone(0.0, s.distance, metersApart);
    assert before >= 0;
    DivideMonotone(s.distance, distance, metersApart);
    TruncMonotone(s.distance / metersApart, distance / metersApart);
    assert before <= after;
    var r := DistanceStep(gc, metersApart, s, current);
    assert r.distance == distance && r.distance >= 0.0;
    assert r.markers == s.markers || r.markers == s.markers + [DistanceMarker(current, after)];
  }

  /** With non-negative distances, the sweep's markers count up strictly from
      1. */
  lemma {:induction false} SweepDistanceIncreasing(gc: DistanceFn, metersApart: real, first: TrackPoint,
                                                   pts: seq<TrackPoint>)
    requires metersApart > 0.0 && NonNegative(gc)
    ensures DistanceMarkersOrdered(SweepDistance(gc, metersApart, first, pts), metersApart)
    decreases |pts|
  {
    if pts != [] {
      var init := pts[..|pts| - 1];
      SweepDistanceIncreasing(gc, metersApart, first, init);
      DistanceStepKeepsOrder(gc, metersApart, SweepDistance(gc, metersApart, first, init), Last(pts));
    }
  }

  /** `getDistancePoints` handles segments independently: the markers of a
      list of segments are those of its parts, joined. */
  lemma {:induction false} DistancePointsSplit(gc: DistanceFn, a: seq<TrackSegment>, b: seq<TrackSegment>,
                                               metersApart: real)
    requires metersApart > 0.0
    ensures DistancePoints(gc, a + b, metersApart)
         == DistancePoints(gc, a, metersApart) + DistancePoints(gc, b, metersApart)
    decreases |a|
  {
    if a != [] {
      assert (a + b)[1..] == a[1..] + b;
      DistancePointsSplit(gc, a[1..], b, metersApart);
    } else {
      assert a + b == b;
    }
  }

  /** Within a segment with non-negative distances, the distance markers
      count strictly up from 1. */
  lemma SegmentDistancePointsIncrease(gc: DistanceFn, segment: TrackSegment, metersApart: real)
    requires metersApart > 0.0 && NonNegative(gc)
    ensures var r := SegmentDistancePoints(gc, segment, metersApart);
      && (forall i :: 0 <= i < |r| ==> r[i].distance >= 1)
      && (forall i, j :: 0 <= i < j < |r| ==> r[i].distance < r[j].distance)
  {
    var runs := segment.trackRuns;
    if |runs| > 0 && |runs[0].points| > 0 {
      SweepDistanceIncreasing(gc, metersApart, runs[0].points[0], Flatten(runs));
    }
  }

  /** A distance routine along a meridian: the latitude difference, taken as
      kilometres. */
  function AlongMeridian(lat1: real, lon1: real, lat2: real, lon2: real): real
  {
    Abs(lat2 - lat1)
  }

  /** The point `k` km north of the origin. */
  function North(k: nat): TrackPoint
  {
    TrackPoint(k as real, 0.0, 0.0, 0)
  }

  /** A straight track of `n + 1` points 1 km apart. */
  function Straight(n: nat): (pts: seq<TrackPoint>)
    ensures |pts| == n + 1 && forall k :: 0 <= k <= n ==> pts[k] == North(k)
  {
    seq(n + 1, k requires 0 <= k <= n => North(k))
  }

  /** The markers 1..`n`, each on the point that far along the straight
      track. */
  function EveryUnit(n: nat): (r: seq<DistanceMarker>)
    ensures |r| == n && forall k :: 0 <= k < n ==> r[k] == DistanceMarker(North(k + 1), k + 1)
  {
    seq(n, k requires 0 <= k < n => DistanceMarker(North(k + 1), k + 1))
  }

  /** Sweeping the first `k` points of the straight track every kilometre:
      the first visit re-adds the start point at 0 m, and every later visit
      lands exactly on a whole kilometre and is marked. */
  lemma {:induction false} StraightSweep(n: nat, k: nat)
    requires 1 <= k <= n + 1
    ensures SweepDistance(AlongMeridian, 1000.0, North(0), Straight(n)[..k])
         == DistanceSweep((k - 1) as real * 1000.0, North(k - 1), EveryUnit(k - 1))
    decreases k
  {
    var pts := Straight(n);
    var gc: DistanceFn := AlongMeridian;
    assert pts[..k][..k - 1] == pts[..k - 1];
    assert Last(pts[..k]) == North(k - 1);
    if k == 1 {
      assert SweepDistance(gc, 1000.0, North(0), pts[..0]) == DistanceSweep(0.0, North(0), []);
      assert Dist(gc, North(0), North(0)) == 0.0;
      assert EveryUnit(0) == [];
    } else {
      StraightSweep(n, k - 1);
      UnitStep(k - 1);
    }
  }

  /** One more kilometre along the straight track earns one more marker. */
  lemma UnitStep(k: nat)
    requires k >= 1
    ensures DistanceStep(AlongMeridian, 1000.0, DistanceSweep((k - 1) as real * 1000.0, North(k - 1), EveryUnit(k - 1)),
                         North(k))
         == DistanceSweep(k as real * 1000.0, North(k), EveryUnit(k))
  {
    var before := (k - 1) as real * 1000.0;
    assert Dist(AlongMeridian, North(k - 1), North(k)) == 1000.0;
    assert before / 1000.0 == (k - 1) as real;
    assert (before + 1000.0) / 1000.0 == k as real;
    assert EarnsDistanceMarker(before, before + 1000.0, 1000.0);
    assert EveryUnit(k - 1) + [DistanceMarker(North(k), k)] == EveryUnit(k);
  }

  /** A straight track `n` km long marked every kilometre gets the markers
      1..`n`, the last on its final point, since the overshoot there is 0:
      a 5 km track gets five markers. */
  lemma StraightTrackMarksEveryUnit(n: nat)
    ensures var segment := TrackSegment([TrackRun(Straight(n))], None, None, NoBounds, 0.0, 0.0, 0.0, n + 1);
      DistancePoints(AlongMeridian, [segment], 1000.0) == EveryUnit(n)
  {
    var pts := Straight(n);
    var runs := [TrackRun(pts)];
    var segment := TrackSegment(runs, None, None, NoBounds, 0.0, 0.0, 0.0, n + 1);
    StraightSweep(n, n + 1);
    assert pts[..n + 1] == pts;
    assert runs[1..] == [];
    assert Flatten(runs) == pts;
    assert runs[0].points[0] == North(0);
    assert SegmentDistancePoints(AlongMeridian, segment, 1000.0) == EveryUnit(n);
    assert [segment][1..] == [];
  }

  /** The state of the time sweep within one segment. */
  datatype TimeSweep = TimeSweep(seconds: real, previous: TrackPoint, markers: seq<TimeMarker>)

  /** Seconds between two timestamps in milliseconds. */
  function Seconds(from: TrackPoint, to: TrackPoint): real
  {
    (to.time - from.time) as real / 1000.0
  }

  /** One visit of the time sweep: add the seconds since the previous point,
      and mark the current point with the accumulated seconds whenever the
      whole number of spacings grows. */
  function TimeStep(secondsApart: real, s: TimeSweep, current: TrackPoint): TimeSweep
    requires secondsApart > 0.0
  {
    var seconds := s.seconds + Seconds(s.previous, current);
    TimeSweep(seconds, current,
              if Trunc(s.seconds / secondsApart) < Trunc(seconds / secondsApart)
              then s.markers + [TimeMarker(current, seconds)]
              else s.markers)
  }

  /** The time sweep over `pts`, starting with `first` as the previous point
      and 0 s accumulated. */
  function SweepTime(secondsApart: real, first: TrackPoint, pts: seq<TrackPoint>): TimeSweep
    requires secondsApart > 0.0
    decreases |pts|
  {
    if pts == [] then TimeSweep(0.0, first, [])
    else TimeStep(secondsApart, SweepTime(secondsApart, first, pts[..|pts| - 1]), Last(pts))
  }

  function SegmentTimePoints(segment: TrackSegment, secondsApart: real): (r: seq<TimeMarker>)
    requires secondsApart > 0.0
    ensures segment.trackRuns == [] || segment.trackRuns[0].points == [] ==> r == []
  {
    var runs := segment.trackRuns;
    if |runs| > 0 && |runs[0].points| > 0 then
      SweepTime(secondsApart, runs[0].points[0], Flatten(runs)).markers
    else []
  }

  /** `getTimePoints`: the markers of every segment, in order; the elapsed
      time restarts at every segment. */
  function TimePoints(segments: seq<TrackSegment>, secondsApart: real): seq<TimeMarker>
    requires secondsApart > 0.0
  {
    if segments == [] then []
    else SegmentTimePoints(segments[0], secondsApart) + TimePoints(segments[1..], secondsApart)
  }

  /** Reference for the time sweep over `path`: the markers of steps 1..`n`,
      where the elapsed time after step `k` is the seconds from `path[0]` to
      `path[k]`. */
  function TimeCrossings(secondsApart: real, path: seq<TrackPoint>, n: nat): seq<TimeMarker>
    requires secondsApart > 0.0 && n < |path|
  {
    if n == 0 then []
    else
      var from := Seconds(path[0], path[n - 1]);
      var to := Seconds(path[0], path[n]);
      TimeCrossings(secondsApart, path, n - 1)
        + (if Trunc(from / secondsApart) < Trunc(to / secondsApart) then [TimeMarker(path[n], to)] else [])
  }

  /** The time sweep's running total is the elapsed time from the start point
      (the per-step differences telescope), and its markers are exactly the
      reference crossings, with no overshoot filter. */
  lemma {:induction false} SweepTimeMatchesCrossings(secondsApart: real, first: TrackPoint,
                                                     pts: seq<TrackPoint>, k: nat)
    requires secondsApart > 0.0 && k <= |pts|
    ensures var s := SweepTime(secondsApart, first, pts[..k]);
      var path := [first] + pts;
      && s.seconds == Seconds(first, path[k])
      && s.previous == path[k]
      && s.markers == TimeCrossings(secondsApart, path, k)
    decreases k
  {
    if k > 0 {
      var path := [first] + pts;
      SweepTimeMatchesCrossings(secondsApart, first, pts, k - 1);
      var s0 := SweepTime(secondsApart, first, pts[..k - 1]);
      assert pts[..k][..k - 1] == pts[..k - 1];
      assert Last(pts[..k]) == path[k];
      assert SweepTime(secondsApart, first, pts[..k]) == TimeStep(secondsApart, s0, path[k]);
      assert s0.seconds + Seconds(path[k - 1], path[k]) == Seconds(first, path[k]);
    }
  }

  /** Every marker of the sweep carries the seconds from `first` to its own
      point. */
  ghost predicate MarkersCarryElapsed(s: TimeSweep, first: TrackPoint)
  {
    forall i :: 0 <= i < |s.markers| ==> s.markers[i].time == Seconds(first, s.markers[i].point)
  }

  /** Every time marker carries the seconds from the segment's first point to
      the marker's own point. */
  lemma {:induction false} TimeMarkersCarryElapsed(secondsApart: real, first: TrackPoint, pts: seq<TrackPoint>)
    requires secondsApart > 0.0
    ensures var s := SweepTime(secondsApart, first, pts);
      s.seconds == Seconds(first, s.previous) && MarkersCarryElapsed(s, first)
    decreases |pts|
  {
    if pts != [] {
      TimeMarkersCarryElapsed(secondsApart, first, pts[..|pts| - 1]);
    }
  }

  /** Timestamps never decrease along `pts`. */
  predicate TimeOrdered(pts: seq<TrackPoint>)
  {
    forall i :: 0 < i < |pts| ==> pts[i - 1].time <= pts[i].time
  }

  /** The markers of a time sweep are strictly increasing and never ahead of
      the elapsed time. */
  ghost predicate TimeMarkersOrdered(s: TimeSweep)
  {
    && (forall i :: 0 <= i < |s.markers| ==> s.markers[i].time <= s.seconds)
    && (forall i, j :: 0 <= i < j < |s.markers| ==> s.markers[i].time < s.markers[j].time)
  }

  lemma TimeStepKeepsOrder(secondsApart: real, s: TimeSweep, current: TrackPoint)
    requires secondsApart > 0.0 && TimeMarkersOrdered(s) && s.previous.time <= current.time
    ensures TimeMarkersOrdered(TimeStep(secondsApart, s, current))
  {
    assert Seconds(s.previous, current) >= 0.0;
  }

  /** With non-decreasing timestamps, time markers are strictly increasing and
      never ahead of the elapsed time. */
  lemma {:induction false} SweepTimeIncreasing(secondsApart: real, first: TrackPoint, pts: seq<TrackPoint>)
    requires secondsApart > 0.0 && TimeOrdered([first] + pts)
    ensures var s := SweepTime(secondsApart, first, pts);
      TimeMarkersOrdered(s) && s.previous == Last([first] + pts)
    decreases |pts|
  {
    if pts != [] {
      var path := [first] + pts;
      var init := pts[..|pts| - 1];
      assert [first] + init == path[..|pts|];
      SweepTimeIncreasing(secondsApart, first, init);
      assert path[|pts| - 1] == Last([first] + init);
      assert path[|pts|] == Last(pts);
      TimeStepKeepsOrder(secondsApart, SweepTime(secondsApart, first, init), Last(pts));
    }
  }

  /** Within a segment whose timestamps never decrease, time markers are
      strictly increasing and each carries its point's elapsed seconds since
      the segment's first point. */
  lemma SegmentTimePointsIncrease(segment: TrackSegment, secondsApart: real)
    requires secondsApart > 0.0 && TimeOrdered(Flatten(segment.trackRuns))
    ensures var r := SegmentTimePoints(segment, secondsApart);
      && (forall i, j :: 0 <= i < j < |r| ==> r[i].time < r[j].time)
      && (forall i :: 0 <= i < |r| ==>
            r[i].time == Seconds(segment.trackRuns[0].points[0], r[i].point))
  {
    var runs := segment.trackRuns;
    if |runs| > 0 && |runs[0].points| > 0 {
      var first := runs[0].points[0];
      var pts := Flatten(runs);
      StartRepeatedKeepsOrder(pts);
      SweepTimeIncreasing(secondsApart, first, pts);
      TimeMarkersCarryElapsed(secondsApart, first, pts);
      assert SegmentTimePoints(segment, secondsApart) == SweepTime(secondsApart, first, pts).markers;
    }
  }

  /** Repeating the first point in front keeps timestamps ordered. */
  lemma StartRepeatedKeepsOrder(pts: seq<TrackPoint>)
    requires pts != [] && TimeOrdered(pts)
    ensures TimeOrdered([pts[0]] + pts)
  {
    var path := [pts[0]] + pts;
    forall i | 0 < i < |path|
      ensures path[i - 1].time <= path[i].time
    {
      if i > 1 {
        assert path[i - 1] == pts[i - 2] && path[i] == pts[i - 1];
      }
    }
  }

  /** `getTimePoints` handles segments independently. */
  lemma {:induction false} TimePointsSplit(a: seq<TrackSegment>, b: seq<TrackSegment>, secondsApart: real)
    requires secondsApart > 0.0
    ensures TimePoints(a + b, secondsApart) == TimePoints(a, secondsApart) + TimePoints(b, secondsApart)
    decreases |a|
  {
    if a != [] {
      assert (a + b)[1..] == a[1..] + b;
      TimePointsSplit(a[1..], b, secondsApart);
    } else {
      assert a + b == b;
    }
  }
}
