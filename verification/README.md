# TrackInfo track analysis in Dafny

A functional model of the track-analysis core of TrackInfo: the helpers in
`trackhelpers.js` and the aggregate constructors in `trackmodels.js`. A GPS
recording is a list of timestamped points. From it the program derives:

- **runs**: the recording split at time and space gaps;
- **elevation-trend segments**: a hysteresis state machine labelling stretches
  Flat, Rising or Falling;
- **distance and time markers**: a sweep along each segment;
- **the nearest recorded point** to a map coordinate;
- **per-segment and per-track statistics**: point count, path length,
  elevation gain and loss, bounding box and elevation range.

Every operation is a pure function over immutable `seq`s. The loops that
accumulate state from element to element (the point loop of `TrackSegment`,
the segment loop of `TrackInfo`, the distance and time sweeps, the nearest-point
scan, `distanceFromArray`) are left folds written as prefix recursion
(`F(s) = Step(F(s[..|s|-1]), last)`). The loops that only collect independent
per-element results recurse head-first or use a sequence comprehension:
`DistancePoints` and `TimePoints` over segments, `SegmentVisits` over runs, and
`SegmentsOfTracks` over tracks and their point lists. The two state machines,
`Gaps.GapsFrom` and `ElevationTrend.TrendSegments`, recurse forward over an
index and carry their state as parameters (`runStart`; `changeType`, `anchor`
and `segStart`). Either way the model
visits elements in the same order as the source.

Files (one module each):

| file | module | models |
|---|---|---|
| `track_points.dfy` | `TrackPoints` | the point record, runs, the trend labels, the metre distance built on the great-circle routine |
| `geo_math.dfy` | `GeoMath` | unit conversions, `distanceFromArray`, `getAverageSpeed`, `Math.trunc` |
| `gaps.dfy` | `Gaps` | `getGaps` |
| `elevation_trend.dfy` | `ElevationTrend` | `getElevationChanges`, `getElevationChangeType` |
| `track_segments.dfy` | `TrackSegments` | `new TrackSegment(points)`, `trackSegments(gpx)` |
| `resampler.dfy` | `Resampler` | `getDistancePoints`, `getTimePoints` |
| `nearest_point.dfy` | `NearestPoint` | `findNearestPoint` |
| `track_info.dfy` | `TrackInfos` | `new TrackInfo(name, segments)` |

Modelling choices:

- **The great-circle routine is a parameter.** `gpx-parse`'s
  `calculateDistance` returns kilometres. Every operation that measures
  distance takes it as a parameter `gc: DistanceFn`, and `Dist`/`DistTo`
  multiply its result by 1000, as `calculateDistance` and
  `calculateDistanceToLatLng` do (`trackhelpers.js:11-20`). Nothing is assumed
  about it except where a lemma states `NonNegative(gc)`. Argument order is
  kept exactly, because symmetry is not assumed: `findNearestPoint` measures
  from a point back to its predecessor.
- **Numbers are exact.** Coordinates, elevations and distances are `real`, and
  times are `int` milliseconds. `Math.trunc` is modelled exactly as
  truncation toward zero (`GeoMath.Trunc`).
- **Three source defects carry a policy flag.** Where the source is defective
  (see Findings), the operation takes a boolean that chooses the behaviour:
  - `dropCutPoint` in `ElevationTrend.TrendSegments`;
  - `zeroIsUnset` in `NearestPoint.Scan`;
  - `nullAsZero` in `TrackInfos.MergeLower` and `TrackInfos.MergeHigher`.

  The as-written operation (`ElevationChanges`, `FindNearestPoint`,
  `NewTrackInfo`) passes the value that reproduces the source. The corrected
  one (`ElevationChangesIntended`, `FindNearestPointIntended`,
  `NewTrackInfoIntended`) passes the other value. Lemmas relate the two.
- **The final marker lands on the final point.** A straight track exactly n
  spacings long gets distance markers 1..n; the last lands on the final point,
  where the overshoot is 0 (`trackhelpers.js:158-160`).
  `Resampler.StraightTrackMarksEveryUnit` proves this for every n.

## Model

| member | source | states |
|---|---|---|
| TrackPoints.Dist | trackhelpers.js:11-14 | metres between two fixes: the library's kilometres times 1000, never negative when the library never is |
| TrackPoints.DistTo | trackhelpers.js:17-20 | metres from a fix to a coordinate: the library's kilometres times 1000, never negative when the library never is |
| GeoMath.MetersToFeet | trackhelpers.js:22-24 | the result times 0.3048 m per foot is within a relative 1e-7 of the input metres |
| GeoMath.MetersToKm | trackhelpers.js:26-28 | kilometres times 1000 give back the metres |
| GeoMath.MetersToMiles | trackhelpers.js:30-32 | miles times 1609.34 give back the metres |
| GeoMath.MilesToMeters | trackhelpers.js:34-36 | metres divided by 1609.34 give back the miles |
| GeoMath.MilesRoundTrip | trackhelpers.js:30-36 | the two mile conversions undo each other, in both orders |
| GeoMath.MetersPerSecondToMilesPerHour | trackhelpers.js:38-40 | the result times 0.44704 (m/s per mph) is within a relative 1e-7 of the input |
| GeoMath.DistanceFromArray | trackhelpers.js:134-140 | fewer than two points give 0; the length is non-negative when every distance is |
| GeoMath.DistanceFromArrayAppend | trackhelpers.js:134-140 | the length of two joined lists is the sum of their lengths plus the single hop between them |
| GeoMath.AverageSpeed | trackhelpers.js:124-132 | fewer than two points give 0; otherwise speed times the seconds from first to last point is the path length |
| GeoMath.Trunc | trackhelpers.js:153-155 | `Math.trunc` rounds toward zero: within 1 below a non-negative argument and within 1 above a negative one |
| Gaps.GapsFromSplits | trackhelpers.js:62-73 | from any position, the scan's runs join back to the rest of the input; every run boundary is a gap and no run contains one |
| Gaps.GetGaps | trackhelpers.js:59-74 | at least one run; the runs join back to the input exactly; a new run starts exactly where more than 1 ms and more than 100 m separate consecutive points; empty input gives one empty run, otherwise no run is empty |
| ElevationTrend.ChangeType | trackhelpers.js:112-122 | within 2 m of an armed anchor the trend is Flat; otherwise Flat, Rising and Falling hold exactly when the second elevation is equal, higher or lower |
| ElevationTrend.AnchorOnlySuppresses | trackhelpers.js:112-122 | an anchor only turns a trend into Flat, never into the other direction |
| ElevationTrend.ChangeTypeReverses | trackhelpers.js:117-121 | without an anchor, swapping the elevations swaps Rising and Falling and keeps Flat |
| ElevationTrend.TrendSegments | trackhelpers.js:89-108 | the scan yields at least one segment, the first with the current label, and neighbouring segments never share a label |
| ElevationTrend.Segmentation | trackhelpers.js:76-110 | empty input gives no segments and only empty input does; one point gives one Flat segment holding it; neighbouring labels differ |
| ElevationTrend.TrendPartition | trackhelpers.js:98-108 | with the corrected slice the segments are non-empty and join back to the points scanned |
| ElevationTrend.TrendLosesOnePerCut | trackhelpers.js:98-100 | as written, k segments hold the scanned points less k - 1 |
| ElevationTrend.TrendPoliciesAgree | trackhelpers.js:98-100 | both slicings cut at the same places with the same labels; as written every segment but the last lacks its final point |
| ElevationTrend.TrendLastIsSuffix | trackhelpers.js:108 | the last segment runs from the last cut to the end of the input |
| ElevationTrend.TrendStaysFlat | trackhelpers.js:89-104 | while elevations stay strictly within 2 m of an armed Flat anchor, the scan never cuts |
| ElevationTrend.TrendKeepsRising | trackhelpers.js:89-104 | while every step climbs at least 2 m, a Rising scan never cuts |
| ElevationTrend.ElevationChangesShape | trackhelpers.js:76-110 | for non-empty input, n points and k segments hold n - (k - 1) points; the first label is the trend of the first step under the anchor, and the last segment is a suffix of the input |
| ElevationTrend.ElevationChangesIntendedPartitions | trackhelpers.js:76-110 | the corrected segmentation splits the input into non-empty segments that join back to it |
| ElevationTrend.ElevationChangesDropCutPoints | trackhelpers.js:99 | the segmentation as written is the corrected one with the final point of every segment but the last removed |
| ElevationTrend.TrendLabels | trackhelpers.js:89-108 | from any scan state whose current segment so far follows its label, with a Flat scan anchored at the segment's first point, every segment follows its label, the first point of each later segment breaks the trend of the one before, and its label is the unanchored trend of the step into it |
| ElevationTrend.ElevationChangesIntendedLabels | trackhelpers.js:76-122 | with the corrected slice, a Rising segment strictly climbs point to point, a Falling one strictly falls, and every point of a Flat one is strictly within 2 m of its first point; the next segment starts no higher than a Rising segment ends, no lower than a Falling one ends, and at least 2 m from a Flat one's first point; each later label is the trend, with no anchor, of the step from the previous segment's last point to its own first point |
| ElevationTrend.ElevationChangesLabelled | trackhelpers.js:76-122 | as written, every segment still strictly climbs, strictly falls or stays within 2 m of its first point, as its label says |
| ElevationTrend.ElevationChangesCutLabels | trackhelpers.js:97-102 | as written, each later label is the unanchored trend of the step from the point the slice drops to the first point of the next cut |
| ElevationTrend.ShortClimbIsOwnSegment | trackhelpers.js:89-108 | elevations 0, 1, 5, 4, 3 give Flat [0, 1], Rising [5], Falling [4, 3] when corrected, and Flat [0], an empty Rising segment, Falling [4, 3] as written |
| ElevationTrend.FlatProfileIsOneSegment | trackhelpers.js:85-108 | a profile strictly within 2 m of its first elevation is one Flat segment holding every point |
| ElevationTrend.RisingProfileIsOneSegment | trackhelpers.js:85-108 | a profile climbing at least 2 m per step is one Rising segment holding every point |
| ElevationTrend.CutDropsPoint | trackhelpers.js:99 | at elevations 0, 0, 5 the written slice loses the second point and the corrected slice keeps it |
| TrackSegments.LowerExtends | trackmodels.js:32-48 | folding one more point into a least value gives the least value of the longer list |
| TrackSegments.HigherExtends | trackmodels.js:39-51 | folding one more point into a greatest value gives the greatest value of the longer list |
| TrackSegments.LevelStepBooksNothing | trackmodels.js:56-61 | a step between equal elevations changes neither gain nor loss |
| TrackSegments.AscentLessDescent | trackmodels.js:56-61 | total ascent less total descent is the last elevation less the first |
| TrackSegments.AscentAppend | trackmodels.js:56-61 | total ascent and total descent of two joined paths are their own totals plus the climb, or the descent, across the join |
| TrackSegments.FoldMeasuresPath | trackmodels.js:53-64 | the distance is the path length; the gain is the total ascent (the positive elevation changes between consecutive points, summed) and the loss the total descent (the sizes of the other changes, summed); gain less loss is the last elevation less the first |
| TrackSegments.FoldLeast | trackmodels.js:31-48 | each running minimum is null exactly for no points, below every point's coordinate and attained by a point |
| TrackSegments.FoldGreatest | trackmodels.js:39-51 | each running maximum is null exactly for no points, above every point's coordinate and attained by a point |
| TrackSegments.FoldBoundsPoints | trackmodels.js:26-51 | the box and the elevation range are the tight ones over the points |
| TrackSegments.NewTrackSegment | trackmodels.js:20-74 | the runs are the split at gaps; the count and distance measure the points, the gain is their total ascent and the loss their total descent; the box and range are tight; the runs hold every point once |
| TrackSegments.SegmentsOfTracks | trackhelpers.js:46-52 | one segment per point list of every track, in document order, each built from its own point list |
| TrackSegments.TrackSegmentsOf | trackhelpers.js:43-55 | one segment per point list of the document, each summarising its own points |
| Resampler.SegmentDistancePoints | trackhelpers.js:146-148 | a segment without runs, or whose first run is empty, gets no distance markers |
| Resampler.SweepDistanceMatchesCrossings | trackhelpers.js:149-163 | the running distance is the path length from the repeated first point through every visited point, run joins included, and the markers are exactly the crossings within 0.1 spacing, each labelled with the new whole number of spacings |
| Resampler.SweepDistanceWhole | trackhelpers.js:149-165 | over a whole segment the sweep's distance and markers are the reference ones |
| Resampler.DistanceStepKeepsOrder | trackhelpers.js:153-162 | one visit keeps markers at least 1, strictly increasing and never past the spacings covered |
| Resampler.SweepDistanceIncreasing | trackhelpers.js:149-165 | with non-negative distances, markers count strictly up from 1 and never pass the spacings covered |
| Resampler.SegmentDistancePointsIncrease | trackhelpers.js:145-166 | within one segment the distance markers are at least 1 and strictly increasing |
| Resampler.DistancePointsSplit | trackhelpers.js:142-170 | segments are marked independently: the markers of joined segment lists are the joined markers, so the distance restarts at each segment |
| Resampler.StraightSweep | trackhelpers.js:152-163 | on a straight 1 km-spaced track, the first visit adds 0 m and each later visit lands on a whole kilometre and is marked |
| Resampler.StraightTrackMarksEveryUnit | trackhelpers.js:142-170 | a straight track n spacings long gets markers 1..n, the last on its final point |
| Resampler.SweepTimeMatchesCrossings | trackhelpers.js:179-192 | the running seconds are the elapsed time from the first point, and a marker falls on every crossing, with no overshoot filter |
| Resampler.TimeMarkersCarryElapsed | trackhelpers.js:184-190 | every time marker carries the seconds from the segment's first point to its own point |
| Resampler.TimeStepKeepsOrder | trackhelpers.js:184-191 | with a non-decreasing timestamp, one visit keeps markers strictly increasing and never ahead of the elapsed time |
| Resampler.SweepTimeIncreasing | trackhelpers.js:179-194 | with non-decreasing timestamps, time markers are strictly increasing and never ahead of the elapsed time |
| Resampler.SegmentTimePointsIncrease | trackhelpers.js:175-196 | within a segment with ordered timestamps, time markers strictly increase and equal (point time - first time) / 1000 |
| Resampler.SegmentTimePoints | trackhelpers.js:176-178 | a segment without runs, or whose first run is empty, gets no time markers |
| Resampler.TimePointsSplit | trackhelpers.js:172-199 | segments are timed independently: the markers of joined segment lists are the joined markers |
| NearestPoint.RunVisits | trackhelpers.js:212-216 | a run is visited point by point, in order |
| NearestPoint.SegmentVisits | trackhelpers.js:211-225 | the scan visits every point of every run once, in document order |
| NearestPoint.Scan | trackhelpers.js:211-225 | after visiting at least one point, a best distance and a nearest point are set |
| NearestPoint.FirstMinimum | trackhelpers.js:219-223 | reference: the index of the smallest distance that no earlier index ties |
| NearestPoint.ScanSumsHops | trackhelpers.js:214-216 | the running distance is the sum of the hops, 0 at the start of each run |
| NearestPoint.ReplacesIff | trackhelpers.js:219 | with a positive best, or with the corrected test, a point replaces the best exactly when it is strictly closer |
| NearestPoint.ScanFindsFirstMinimum | trackhelpers.js:211-225 | the scan holds the first closest point and the hop sum up to it, provided no zero best is mistaken for unset |
| NearestPoint.NearestIsFirstMinimum | trackhelpers.js:201-229 | as written, when every point is at a positive distance, the result is the first closest point, its distance counts only hops within runs up to it, and its duration is its time less the first point's, in ms |
| NearestPoint.NearestIntendedIsFirstMinimum | trackhelpers.js:201-229 | with the corrected test, the same holds for every query, including one exactly on a point |
| NearestPoint.ExactHitIsOverwritten | trackhelpers.js:219 | for `new TrackSegment` of two points 1 ms apart, which form one run, a query exactly on the first returns the second as written and the first when corrected |
| TrackInfos.NewTrackInfo | trackmodels.js:77-124 | a missing name becomes ""; no segments give zero count, distance, gain and loss and null bounds and extremes |
| TrackInfos.InfoCountsPoints | trackmodels.js:114 | the point count is the number of points of all segments |
| TrackInfos.InfoDistanceSkipsJoins | trackmodels.js:111 | for any segments, empty ones included: the total distance plus the hops across the joins between segments is the length of the joined path; a segment with no points adds nothing and makes no join |
| TrackInfos.InfoClimbSkipsJoins | trackmodels.js:112-113 | for any segments, empty ones included: gain and loss are non-negative, and gain less loss plus the net climb across the joins is the last elevation of the joined path less the first |
| TrackInfos.InfoAscentSkipsJoins | trackmodels.js:112-113 | for any segments, empty ones included: the track's gain plus the climbs across the joins is the total ascent of the joined path, and its loss plus the descents across the joins is the total descent |
| TrackInfos.MergeLowerJoins | trackmodels.js:90-95 | merging two tight minima, skipping nulls, gives the tight minimum of the joined lists |
| TrackInfos.MergeHigherJoins | trackmodels.js:97-102 | merging two tight maxima, skipping nulls, gives the tight maximum of the joined lists |
| TrackInfos.IntendedBoundsCoverAllPoints | trackmodels.js:89-110 | with nulls skipped, the track's box and range are tight over all points of all segments |
| TrackInfos.MergePoliciesAgree | trackmodels.js:89-110 | when every segment has all its bounds and extremes, the merge as written equals the corrected one |
| TrackInfos.BoundsCoverAllPoints | trackmodels.js:89-110 | as written, when every segment has a point, the track's box and range are tight over all its points |
| TrackInfos.SegmentsOfPointLists | trackmodels.js:20-74 | segments built by `new TrackSegment` from a track's point lists, empty ones included, carry the count, distance, ascent, descent, box and range of their own list |
| TrackInfos.BoundsWithoutEmptyLists | trackmodels.js:89-110 | as written, when no point list is empty, the track's box and range are tight over all its points |
| TrackInfos.TrackInfoOfPointLists | trackmodels.js:77-124 | for segments that carry the statistics of any point lists, as built segments do: every point counted; distance, gain, loss and net climb miss exactly the joins between segments; when no point list is empty, box and range are tight over all points |
| TrackInfos.EmptySegmentWipesBound | trackmodels.js:90-92 | a segment at latitude 5 followed by an empty one: as written the minimum latitude becomes null, corrected it stays 5 |

## Left out

- `trackinfo.js`: Leaflet map setup, GPX loading over the network, DOM updates
  and marker rendering. It also calls helpers that `trackhelpers.js` does not
  define.
- The great-circle formula inside `gpx-parse`. It is floating-point
  trigonometry in a foreign library, so it is a function parameter here, and
  neither symmetry nor "zero exactly at equal points" is assumed.
- IEEE-754 rounding. All arithmetic is exact `real` arithmetic.
- GeoMath.MetersToFeet: states closeness to 1/0.3048 rather than equality,
  because the source's factor 3.28084 is itself rounded.
- GeoMath.MetersPerSecondToMilesPerHour: states closeness to 1/0.44704 rather
  than equality, because the factor 2.2369362921 is itself rounded.
- `NaN` and `Infinity` results are not modelled; the operations that could
  produce them take preconditions instead.
- GeoMath.AverageSpeed: requires distinct first and last timestamps when there
  are at least two points. The source divides by zero there.
- Resampler.SegmentDistancePoints: requires a positive spacing, as do the other
  sweep functions.
- Resampler.SegmentTimePoints: requires a positive spacing.
- NearestPoint.FindNearestPoint: requires a first point in the first run.
  Without one the source dereferences `undefined`.
- `Date` objects: times are integers in milliseconds.
- The dead `lastPoint` variables of the two sweeps (`trackhelpers.js:150`,
  `trackhelpers.js:180`).
- What `new TrackSegment(type, slice)` would do when `getElevationChanges`
  calls the one-argument constructor with two arguments. Elevation segments
  are modelled as (label, points) pairs.
- `gpx.tracks` missing is read as an empty list of tracks.
- `new TrackInfo` takes any list of segments. `TrackInfos.TrackInfoOfPointLists`
  relates it to points only for segments built by `new TrackSegment`.
- TrackInfos.TrackInfoOfPointLists: states the box and range only when no
  point list is empty. An empty one can wipe them, which is the defect below.
- ElevationTrend.RisingProfileIsOneSegment: needs at least two points. A
  single point is Flat.
- NearestPoint.NearestIsFirstMinimum: assumes no point lies exactly on the
  query. That case is the defect below, and `NearestIntendedIsFirstMinimum`
  covers it for the corrected scan.
- TrackInfos.BoundsCoverAllPoints: assumes every segment has a point. The
  empty-segment case is the defect below.

## Findings

| source | as written | input that shows it | evidently intended | confidence | as-written member | corrected member |
|---|---|---|---|---|---|---|
| trackhelpers.js:99 | a cut at index i closes the segment with `slice(segmentStart, i - 1)`, leaving point i - 1 in no segment | elevations 0, 0, 5: the Flat segment holds only the first point, and the second is lost | `slice(segmentStart, i)`, so the segments partition the input | high (not executed) | ElevationTrend.ElevationChangesDropCutPoints, ElevationTrend.CutDropsPoint | ElevationTrend.ElevationChangesIntendedPartitions |
| trackhelpers.js:219 | `!bestDistance` is also true for a best distance of 0, so an exact hit is replaced by the next point visited | a query exactly on the first of two points returns the second point | test for an unset best only (`bestDistance === undefined`) | high (not executed) | NearestPoint.ExactHitIsOverwritten | NearestPoint.NearestIntendedIsFirstMinimum |
| trackmodels.js:90-109 | a segment's `null` bound or extreme compares as 0 against the running value, so it can replace a real value with `null` | a segment at latitude 5 followed by an empty segment: the track's minimum latitude becomes `null` | skip segments whose value is `null` | medium (not executed) | TrackInfos.EmptySegmentWipesBound | TrackInfos.IntendedBoundsCoverAllPoints |
