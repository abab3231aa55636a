/** `TrackInfo`: a named track whose statistics are folded over the
    already-computed statistics of its segments. */
module TrackInfos {
  import opened TrackPoints
  import opened GeoMath
  import opened TrackSegments

  datatype TrackInfo = TrackInfo(
    name: string,
    trackSegments: seq<TrackSegment>,
    numberOfPoints: int,
    lowestElevation: Option<real>,
    highestElevation: Option<real>,
    bounds: Bounds,
    totalDistance: real,
    elevationGain: real,
    elevationLoss: real)

  /** The number a JavaScript relational comparison sees: `null` reads as 0. */
  function JsNumber(v: Option<real>): real
  {
    if v.None? then 0.0 else v.value
  }

  /** Folding a segment's minimum into the running one. The source tests
      `current == null || v < current` and then copies `v`, so a `null`
      segment value compares as 0 and can replace the running minimum with
      `null`; `nullAsZero` selects that behaviour, and `false` gives the
      evidently intended one, which skips absent values. */
  function MergeLower(current: Option<real>, v: Option<real>, nullAsZero: bool): Option<real>
  {
    if nullAsZero then
      if current.None? || JsNumber(v) < current.value then v else current
    else if v.None? then current
    else Lower(current, v.value)
  }

  /** The same for a maximum. */
  function MergeHigher(current: Option<real>, v: Option<real>, nullAsZero: bool): Option<real>
  {
    if nullAsZero then
      if current.None? || JsNumber(v) > current.value then v else current
    else if v.None? then current
    else Higher(current, v.value)
  }

  /** The accumulator of the loop over segments. */
  datatype InfoFold = InfoFold(
    numberOfPoints: int,
    totalDistance: real,
    lowest: Option<real>,
    highest: Option<real>,
    bounds: Bounds,
    elevationGain: real,
    elevationLoss: real)

  const EmptyInfo := InfoFold(0, 0.0, None, None, NoBounds, 0.0, 0.0)

  function VisitSegment(f: InfoFold, segment: TrackSegment, nullAsZero: bool): InfoFold
  {
    var b := segment.bounds;
    InfoFold(
      f.numberOfPoints + segment.numberOfPoints,
      f.totalDistance + segment.totalDistance,
      MergeLower(f.lowest, segment.lowestElevation, nullAsZero),
      MergeHigher(f.highest, segment.highestElevation, nullAsZero),
      Bounds(MergeLower(f.bounds.minLat, b.minLat, nullAsZero),
             MergeLower(f.bounds.minLon, b.minLon, nullAsZero),
             MergeHigher(f.bounds.maxLat, b.maxLat, nullAsZero),
             MergeHigher(f.bounds.maxLon, b.maxLon, nullAsZero)),
      f.elevationGain + segment.elevationGain,
      f.elevationLoss + segment.elevationLoss)
  }

  /** The loop over segments, front to back. */
  function FoldSegments(segments: seq<TrackSegment>, nullAsZero: bool): InfoFold
    decreases |segments|
  {
    if segments == [] then EmptyInfo
    else VisitSegment(FoldSegments(segments[..|segments| - 1], nullAsZero), Last(segments), nullAsZero)
  }

  function InfoWith(name: Option<string>, segments: seq<TrackSegment>, nullAsZero: bool): (t: TrackInfo)
  {
    var f := FoldSegments(segments, nullAsZero);
    TrackInfo(if name.None? then "" else name.value, segments, f.numberOfPoints, f.lowest, f.highest,
              f.bounds, f.totalDistance, f.elevationGain, f.elevationLoss)
  }

  /** `new TrackInfo(name, trackSegments)`, as written. A missing name reads
      as the empty string. */
  function NewTrackInfo(name: Option<string>, segments: seq<TrackSegment>): (t: TrackInfo)
    ensures name.None? ==> t.name == ""
    ensures segments == [] ==>
      && t.numberOfPoints == 0 && t.totalDistance == 0.0
      && t.elevationGain == 0.0 && t.elevationLoss == 0.0
      && t.bounds == NoBounds && t.lowestElevation.None? && t.highestElevation.None?
  {
    InfoWith(name, segments, true)
  }

  /** `new TrackInfo(name, trackSegments)` with absent segment values
      skipped. */
  function NewTrackInfoIntended(name: Option<string>, segments: seq<TrackSegment>): (t: TrackInfo)
  {
    InfoWith(name, segments, false)
  }

  /** All point lists of a track, joined. */
  function Concat(parts: seq<seq<TrackPoint>>): seq<TrackPoint>
    decreases |parts|
  {
    if parts == [] then [] else Concat(parts[..|parts| - 1]) + Last(parts)
  }

  /** The sum of `step` over the joins of a track: from the last point of
      the parts before to the first point of the next part. A part with no
      points makes no join, so its neighbours join across it. */
  function JoinSum(parts: seq<seq<TrackPoint>>, step: (TrackPoint, TrackPoint) -> real): real
    decreases |parts|
  {
    if parts == [] then 0.0
    else
      var init := parts[..|parts| - 1];
      JoinSum(init, step)
        + (if Concat(init) != [] && Last(parts) != [] then step(Last(Concat(init)), Last(parts)[0]) else 0.0)
  }

  /** The hops across the joins of a track. */
  function JoinHops(gc: DistanceFn, parts: seq<seq<TrackPoint>>): real
  {
    JoinSum(parts, (p, q) => Dist(gc, p, q))
  }

  /** The climbs across the joins of a track. */
  function JoinRises(parts: seq<seq<TrackPoint>>): real
  {
    JoinSum(parts, Rise)
  }

  /** The descents across the joins of a track. */
  function JoinDrops(parts: seq<seq<TrackPoint>>): real
  {
    JoinSum(parts, Drop)
  }

  /** Each of `segments` carries the totals of the matching point list. */
  ghost predicate MeasuredBy(gc: DistanceFn, parts: seq<seq<TrackPoint>>, segments: seq<TrackSegment>)
  {
    |segments| == |parts| && forall k :: 0 <= k < |parts| ==> Measures(gc, parts[k], segments[k])
  }

  /** Each of `segments` carries the box and range of the matching point
      list. */
  ghost predicate EnclosedBy(parts: seq<seq<TrackPoint>>, segments: seq<TrackSegment>)
  {
    |segments| == |parts| && forall k :: 0 <= k < |parts| ==> Encloses(parts[k], segments[k])
  }

  /** The track counts every point of every segment once, whether or not
      segments are empty. */
  lemma {:induction false} InfoCountsPoints(gc: DistanceFn, parts: seq<seq<TrackPoint>>,
                                            segments: seq<TrackSegment>, nullAsZero: bool)
    requires MeasuredBy(gc, parts, segments)
    ensures FoldSegments(segments, nullAsZero).numberOfPoints == |Concat(parts)|
    decreases |parts|
  {
    if parts != [] {
      assert MeasuredBy(gc, parts[..|parts| - 1], segments[..|segments| - 1]);
      InfoCountsPoints(gc, parts[..|parts| - 1], segments[..|segments| - 1], nullAsZero);
      assert Measures(gc, Last(parts), Last(segments));
    }
  }

  /** The track's distance is the length of the joined path less the hops
      across joins: segment totals are summed, never recomputed over the
      joined points. Segments with no points add nothing. */
  lemma {:induction false} InfoDistanceSkipsJoins(gc: DistanceFn, parts: seq<seq<TrackPoint>>,
                                                  segments: seq<TrackSegment>, nullAsZero: bool)
    requires MeasuredBy(gc, parts, segments)
    ensures FoldSegments(segments, nullAsZero).totalDistance + JoinHops(gc, parts)
         == DistanceFromArray(gc, Concat(parts))
    decreases |parts|
  {
    if parts != [] {
      var init := parts[..|parts| - 1];
      assert MeasuredBy(gc, init, segments[..|segments| - 1]);
      InfoDistanceSkipsJoins(gc, init, segments[..|segments| - 1], nullAsZero);
      assert Measures(gc, Last(parts), Last(segments));
      if Concat(init) == [] {
        assert Concat(parts) == Last(parts);
      } else if Last(parts) == [] {
        assert Concat(parts) == Concat(init);
      } else {
        DistanceFromArrayAppend(gc, Concat(init), Last(parts));
      }
    }
  }

  /** The track's gain is the total ascent of the joined path less the climbs
      across joins, and its loss the total descent less the descents across
      joins: segment totals are summed, never recomputed over the joined
      points. Segments with no points add nothing. */
  lemma {:induction false} InfoAscentSkipsJoins(gc: DistanceFn, parts: seq<seq<TrackPoint>>,
                                                segments: seq<TrackSegment>, nullAsZero: bool)
    requires MeasuredBy(gc, parts, segments)
    ensures var f := FoldSegments(segments, nullAsZero);
      && f.elevationGain + JoinRises(parts) == Ascent(Concat(parts))
      && f.elevationLoss + JoinDrops(parts) == Descent(Concat(parts))
    decreases |parts|
  {
    if parts != [] {
      var init := parts[..|parts| - 1];
      assert MeasuredBy(gc, init, segments[..|segments| - 1]);
      InfoAscentSkipsJoins(gc, init, segments[..|segments| - 1], nullAsZero);
      assert Measures(gc, Last(parts), Last(segments));
      if Concat(init) == [] {
        assert Concat(parts) == Last(parts);
      } else if Last(parts) == [] {
        assert Concat(parts) == Concat(init);
      } else {
        AscentAppend(Concat(init), Last(parts));
      }
    }
  }

  /** Gain and loss stay non-negative, and their difference plus the net
      climb across joins is the net climb of the joined path. */
  lemma {:induction false} InfoClimbSkipsJoins(gc: DistanceFn, parts: seq<seq<TrackPoint>>,
                                               segments: seq<TrackSegment>, nullAsZero: bool)
    requires MeasuredBy(gc, parts, segments)
    ensures var f := FoldSegments(segments, nullAsZero);
      && f.elevationGain >= 0.0 && f.elevationLoss >= 0.0
      && (Concat(parts) != [] ==>
            f.elevationGain - f.elevationLoss + (JoinRises(parts) - JoinDrops(parts))
            == Last(Concat(parts)).elevation - Concat(parts)[0].elevation)
    decreases |parts|
  {
    if parts != [] {
      assert MeasuredBy(gc, parts[..|parts| - 1], segments[..|segments| - 1]);
      InfoClimbSkipsJoins(gc, parts[..|parts| - 1], segments[..|segments| - 1], nullAsZero);
      assert Measures(gc, Last(parts), Last(segments));
    }
    InfoAscentSkipsJoins(gc, parts, segments, nullAsZero);
    if Concat(parts) != [] {
      AscentLessDescent(Concat(parts));
    }
  }

  /** Merging two tight bounds gives the tight bound of the joined lists. */
  lemma MergeLowerJoins(a: Option<real>, b: Option<real>, xs: seq<TrackPoint>, ys: seq<TrackPoint>, c: Coordinate)
    requires IsLeast(a, xs, c) && IsLeast(b, ys, c)
    ensures IsLeast(MergeLower(a, b, false), xs + ys, c)
  {
    var zs := xs + ys;
    if xs != [] && ys != [] {
      var i :| 0 <= i < |xs| && Get(xs[i], c) == a.value;
      var j :| 0 <= j < |ys| && Get(ys[j], c) == b.value;
      assert zs[i] == xs[i] && zs[|xs| + j] == ys[j];
    } else if xs != [] {
      var i :| 0 <= i < |xs| && Get(xs[i], c) == a.value;
      assert zs[i] == xs[i];
      assert zs == xs;
    } else {
      assert zs == ys;
    }
  }

  lemma MergeHigherJoins(a: Option<real>, b: Option<real>, xs: seq<TrackPoint>, ys: seq<TrackPoint>, c: Coordinate)
    requires IsGreatest(a, xs, c) && IsGreatest(b, ys, c)
    ensures IsGreatest(MergeHigher(a, b, false), xs + ys, c)
  {
    var zs := xs + ys;
    if xs != [] && ys != [] {
      var i :| 0 <= i < |xs| && Get(xs[i], c) == a.value;
      var j :| 0 <= j < |ys| && Get(ys[j], c) == b.value;
      assert zs[i] == xs[i] && zs[|xs| + j] == ys[j];
    } else if xs != [] {
      var i :| 0 <= i < |xs| && Get(xs[i], c) == a.value;
      assert zs[i] == xs[i];
      assert zs == xs;
    } else {
      assert zs == ys;
    }
  }

  /** The box and elevation range a fold holds are the tight ones over
      `pts`. */
  ghost predicate Tight(f: InfoFold, pts: seq<TrackPoint>)
  {
    && IsLeast(f.bounds.minLat, pts, Latitude)
    && IsLeast(f.bounds.minLon, pts, Longitude)
    && IsGreatest(f.bounds.maxLat, pts, Latitude)
    && IsGreatest(f.bounds.maxLon, pts, Longitude)
    && IsLeast(f.lowest, pts, Elevation)
    && IsGreatest(f.highest, pts, Elevation)
  }

  /** With absent values skipped, the track's box and elevation range are the
      tight ones over all points of all segments, empty segments included. */
  lemma {:induction false} IntendedBoundsCoverAllPoints(parts: seq<seq<TrackPoint>>, segments: seq<TrackSegment>)
    requires EnclosedBy(parts, segments)
    ensures Tight(FoldSegments(segments, false), Concat(parts))
    decreases |parts|
  {
    if parts != [] {
      var init := parts[..|parts| - 1];
      var f := FoldSegments(segments[..|segments| - 1], false);
      var s := Last(segments);
      assert EnclosedBy(init, segments[..|segments| - 1]);
      IntendedBoundsCoverAllPoints(init, segments[..|segments| - 1]);
      assert Encloses(Last(parts), s);
      MergeLowerJoins(f.bounds.minLat, s.bounds.minLat, Concat(init), Last(parts), Latitude);
      MergeLowerJoins(f.bounds.minLon, s.bounds.minLon, Concat(init), Last(parts), Longitude);
      MergeHigherJoins(f.bounds.maxLat, s.bounds.maxLat, Concat(init), Last(parts), Latitude);
      MergeHigherJoins(f.bounds.maxLon, s.bounds.maxLon, Concat(init), Last(parts), Longitude);
      MergeLowerJoins(f.lowest, s.lowestElevation, Concat(init), Last(parts), Elevation);
      MergeHigherJoins(f.highest, s.highestElevation, Concat(init), Last(parts), Elevation);
    }
  }

  /** Every bound and extreme of the segment is present. */
  predicate Complete(segment: TrackSegment)
  {
    && segment.bounds.minLat.Some? && segment.bounds.minLon.Some?
    && segment.bounds.maxLat.Some? && segment.bounds.maxLon.Some?
    && segment.lowestElevation.Some? && segment.highestElevation.Some?
  }

  /** When every segment is complete, the as-written merge agrees with the
      intended one. */
  lemma {:induction false} MergePoliciesAgree(segments: seq<TrackSegment>)
    requires forall k :: 0 <= k < |segments| ==> Complete(segments[k])
    ensures FoldSegments(segments, true) == FoldSegments(segments, false)
    decreases |segments|
  {
    if segments != [] {
      MergePoliciesAgree(segments[..|segments| - 1]);
      assert Complete(Last(segments));
    }
  }

  /** As written, when every segment has at least one point, the track's box
      and elevation range are the tight ones over all its points. */
  lemma BoundsCoverAllPoints(parts: seq<seq<TrackPoint>>, segments: seq<TrackSegment>)
    requires EnclosedBy(parts, segments)
    requires forall k :: 0 <= k < |parts| ==> parts[k] != []
    ensures Tight(FoldSegments(segments, true), Concat(parts))
  {
    forall k | 0 <= k < |segments|
      ensures Complete(segments[k])
    {
      assert Encloses(parts[k], segments[k]);
    }
    MergePoliciesAgree(segments);
    IntendedBoundsCoverAllPoints(parts, segments);
  }

  /** Segments built from point lists measure and enclose them. */
  lemma SegmentsOfPointLists(gc: DistanceFn, parts: seq<seq<TrackPoint>>, segments: seq<TrackSegment>)
    requires |segments| == |parts|
    requires forall k :: 0 <= k < |parts| ==> segments[k] == NewTrackSegment(gc, parts[k])
    ensures MeasuredBy(gc, parts, segments) && EnclosedBy(parts, segments)
  {
    forall k | 0 <= k < |parts|
      ensures Measures(gc, parts[k], segments[k]) && Encloses(parts[k], segments[k])
    {
      assert Summarises(gc, parts[k], NewTrackSegment(gc, parts[k]));
    }
  }

  /** As written, the track's box and range are tight over all its points
      whenever no point list is empty. */
  lemma BoundsWithoutEmptyLists(parts: seq<seq<TrackPoint>>, segments: seq<TrackSegment>)
    requires EnclosedBy(parts, segments)
    ensures (forall k :: 0 <= k < |parts| ==> parts[k] != []) ==>
      Tight(FoldSegments(segments, true), Concat(parts))
  {
    if forall k :: 0 <= k < |parts| ==> parts[k] != [] {
      BoundsCoverAllPoints(parts, segments);
    }
  }

  /** The `TrackInfo`, as written, of segments that measure and enclose a
      track's point lists, as every `TrackSegment` built from them does
      (`SegmentsOfPointLists`). It counts every point, and its distance, gain,
      loss and net climb miss exactly the joins between segments, empty ones
      included. When no point list is empty its box and elevation range are
      tight over all points; an empty one can wipe them
      (`EmptySegmentWipesBound`). */
  lemma TrackInfoOfPointLists(gc: DistanceFn, name: Option<string>, parts: seq<seq<TrackPoint>>,
                               segments: seq<TrackSegment>)
    requires MeasuredBy(gc, parts, segments) && EnclosedBy(parts, segments)
    ensures var t := NewTrackInfo(name, segments);
      && t.trackSegments == segments
      && t.numberOfPoints == |Concat(parts)|
      && t.totalDistance + JoinHops(gc, parts) == DistanceFromArray(gc, Concat(parts))
      && t.elevationGain + JoinRises(parts) == Ascent(Concat(parts))
      && t.elevationLoss + JoinDrops(parts) == Descent(Concat(parts))
      && t.elevationGain >= 0.0 && t.elevationLoss >= 0.0
      && (Concat(parts) != [] ==>
            t.elevationGain - t.elevationLoss + (JoinRises(parts) - JoinDrops(parts))
            == Last(Concat(parts)).elevation - Concat(parts)[0].elevation)
      && ((forall k :: 0 <= k < |parts| ==> parts[k] != []) ==>
            && IsLeast(t.bounds.minLat, Concat(parts), Latitude)
            && IsLeast(t.bounds.minLon, Concat(parts), Longitude)
            && IsGreatest(t.bounds.maxLat, Concat(parts), Latitude)
            && IsGreatest(t.bounds.maxLon, Concat(parts), Longitude)
            && IsLeast(t.lowestElevation, Concat(parts), Elevation)
            && IsGreatest(t.highestElevation, Concat(parts), Elevation))
  {
    InfoCountsPoints(gc, parts, segments, true);
    InfoDistanceSkipsJoins(gc, parts, segments, true);
    InfoClimbSkipsJoins(gc, parts, segments, true);
    InfoAscentSkipsJoins(gc, parts, segments, true);
    BoundsWithoutEmptyLists(parts, segments);
  }

  /** A track of one segment at latitude 5 followed by an empty segment: as
      written the empty segment's `null` compares as 0 and wipes the minimum
      latitude; with absent values skipped it stays 5. */
  lemma EmptySegmentWipesBound()
    ensures var p := TrackPoint(5.0, 0.0, 0.0, 0);
      var full := TrackSegment([TrackRun([p])], Some(0.0), Some(0.0), Bounds(Some(5.0), Some(0.0), Some(5.0), Some(0.0)),
                               0.0, 0.0, 0.0, 1);
      var empty := TrackSegment([TrackRun([])], None, None, NoBounds, 0.0, 0.0, 0.0, 0);
      && NewTrackInfo(None, [full, empty]).bounds.minLat == None
      && NewTrackInfoIntended(None, [full, empty]).bounds.minLat == Some(5.0)
  {
    var p := TrackPoint(5.0, 0.0, 0.0, 0);
    var full := TrackSegment([TrackRun([p])], Some(0.0), Some(0.0), Bounds(Some(5.0), Some(0.0), Some(5.0), Some(0.0)),
                             0.0, 0.0, 0.0, 1);
    var empty := TrackSegment([TrackRun([])], None, None, NoBounds, 0.0, 0.0, 0.0, 0);
    assert [full, empty][..1] == [full];
    assert [full][..0] == [];
    assert FoldSegments([], true) == EmptyInfo && FoldSegments([], false) == EmptyInfo;
    var one := FoldSegments([full], true);
    assert one.bounds.minLat == Some(5.0);
    assert FoldSegments([full, empty], true).bounds.minLat == None;
    var oneI := FoldSegments([full], false);
    assert oneI.bounds.minLat == Some(5.0);
    assert FoldSegments([full, empty], false).bounds.minLat == Some(5.0);
  }
}
