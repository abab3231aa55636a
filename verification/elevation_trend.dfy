/** Elevation-trend segmentation: a hysteresis state machine that labels
    stretches of a point list Flat, Rising or Falling. */
module ElevationTrend {
  import opened TrackPoints

  /** A stretch of points with one trend label. */
  datatype ElevationSegment = ElevationSegment(kind: ElevationChangeType, points: seq<TrackPoint>)

  /** `getElevationChangeType`: the trend from `ele1` to `ele2`. An armed
      anchor suppresses any change that stays strictly within 2 m of it. */
  function ChangeType(ele1: real, ele2: real, anchor: Option<real>): (t: ElevationChangeType)
    ensures anchor.Some? && Abs(ele2 - anchor.value) < 2.0 ==> t == Flat
    ensures !(anchor.Some? && Abs(ele2 - anchor.value) < 2.0) ==>
      && (t == Flat <==> ele2 == ele1)
      && (t == Rising <==> ele2 > ele1)
      && (t == Falling <==> ele2 < ele1)
  {
    if anchor.Some? && Abs(ele2 - anchor.value) < 2.0 then Flat
    else
      var diff := ele2 - ele1;
      if Abs(diff) <= 0.0 then Flat
      else if diff > 0.0 then Rising
      else Falling
  }

  /** The anchor can only turn a trend into Flat, never into another trend. */
  lemma AnchorOnlySuppresses(ele1: real, ele2: real, anchor: real)
    ensures ChangeType(ele1, ele2, Some(anchor)) == Flat
         || ChangeType(ele1, ele2, Some(anchor)) == ChangeType(ele1, ele2, None)
  {
  }

  /** Without an anchor, reversing a step swaps Rising and Falling. */
  lemma ChangeTypeReverses(ele1: real, ele2: real)
    ensures ChangeType(ele1, ele2, None) == Rising <==> ChangeType(ele2, ele1, None) == Falling
    ensures ChangeType(ele1, ele2, None) == Flat <==> ChangeType(ele2, ele1, None) == Flat
  {
  }

  /** The scan of `getElevationChanges` from index `i`, in the state
      (`changeType`, `anchor`) with the current segment starting at
      `segStart`. At each step the anchor is disarmed while the running trend
      is not Flat; a change of trend closes the current segment and re-arms
      the anchor at the current elevation.

      The source closes a segment at index `i` with the slice
      `[segStart, i - 1)`, which leaves point `i - 1` out of every segment;
      `dropCutPoint` selects that behaviour, and `false` gives the evidently
      intended slice `[segStart, i)`. */
  function TrendSegments(pts: seq<TrackPoint>, i: nat, changeType: ElevationChangeType,
                         anchor: Option<real>, segStart: nat, dropCutPoint: bool): (r: seq<ElevationSegment>)
    requires segStart < i <= |pts|
    ensures |r| >= 1 && r[0].kind == changeType
    ensures forall k :: 0 < k < |r| ==> r[k - 1].kind != r[k].kind
    decreases |pts| - i
  {
    if i == |pts| then
      [ElevationSegment(changeType, pts[segStart..])]
    else
      var armed := if changeType != Flat then None else anchor;
      var newType := ChangeType(pts[i - 1].elevation, pts[i].elevation, armed);
      if newType != changeType then
        var cutEnd := if dropCutPoint then i - 1 else i;
        [ElevationSegment(changeType, pts[segStart..cutEnd])]
          + TrendSegments(pts, i + 1, newType, Some(pts[i].elevation), i, dropCutPoint)
      else
        TrendSegments(pts, i + 1, changeType, armed, segStart, dropCutPoint)
  }

  /** The segmentation with the given slicing policy. */
  function Segmentation(pts: seq<TrackPoint>, dropCutPoint: bool): (r: seq<ElevationSegment>)
    ensures pts == [] <==> r == []
    ensures |pts| == 1 ==> r == [ElevationSegment(Flat, pts)]
    ensures forall k :: 0 < k < |r| ==> r[k - 1].kind != r[k].kind
  {
    if |pts| == 0 then []
    else if |pts| > 1 then
      var anchor := pts[0].elevation;
      var changeType := ChangeType(pts[0].elevation, pts[1].elevation, Some(anchor));
      TrendSegments(pts, 1, changeType, Some(anchor), 0, dropCutPoint)
    else
      [ElevationSegment(Flat, pts)]
  }

  /** `getElevationChanges`, as written. */
  function ElevationChanges(pts: seq<TrackPoint>): seq<ElevationSegment>
  {
    Segmentation(pts, true)
  }

  /** `getElevationChanges` with the evidently intended slice `[segStart, i)`. */
  function ElevationChangesIntended(pts: seq<TrackPoint>): seq<ElevationSegment>
  {
    Segmentation(pts, false)
  }

  /** All points of a list of segments, in order. */
  function Points(segs: seq<ElevationSegment>): seq<TrackPoint>
  {
    if segs == [] then [] else segs[0].points + Points(segs[1..])
  }

  /** Segments that are all non-empty and hold `pts` between them. */
  ghost predicate Partitions(r: seq<ElevationSegment>, pts: seq<TrackPoint>)
  {
    Points(r) == pts && forall k :: 0 <= k < |r| ==> r[k].points != []
  }

  /** At a cut the intended slice is non-empty and joins the partition of the
      rest of the list. */
  lemma PartitionAtCut(pts: seq<TrackPoint>, i: nat, changeType: ElevationChangeType,
                       anchor: Option<real>, segStart: nat)
    requires segStart < i < |pts|
    requires var armed := if changeType != Flat then None else anchor;
      ChangeType(pts[i - 1].elevation, pts[i].elevation, armed) != changeType
    requires var armed := if changeType != Flat then None else anchor;
      var newType := ChangeType(pts[i - 1].elevation, pts[i].elevation, armed);
      Partitions(TrendSegments(pts, i + 1, newType, Some(pts[i].elevation), i, false), pts[i..])
    ensures Partitions(TrendSegments(pts, i, changeType, anchor, segStart, false), pts[segStart..])
  {
    var armed := if changeType != Flat then None else anchor;
    var newType := ChangeType(pts[i - 1].elevation, pts[i].elevation, armed);
    var rest := TrendSegments(pts, i + 1, newType, Some(pts[i].elevation), i, false);
    var r := [ElevationSegment(changeType, pts[segStart..i])] + rest;
    assert TrendSegments(pts, i, changeType, anchor, segStart, false) == r;
    assert r[1..] == rest;
    assert pts[segStart..] == pts[segStart..i] + pts[i..];
  }

  /** With the intended slicing the segments are non-empty and partition the
      points from `segStart` on. */
  lemma {:induction false} TrendPartition(pts: seq<TrackPoint>, i: nat, changeType: ElevationChangeType,
                                          anchor: Option<real>, segStart: nat)
    requires segStart < i <= |pts|
    ensures Partitions(TrendSegments(pts, i, changeType, anchor, segStart, false), pts[segStart..])
    decreases |pts| - i
  {
    if i == |pts| {
      var r := TrendSegments(pts, i, changeType, anchor, segStart, false);
      assert Points(r) == pts[segStart..] + Points([]);
    } else {
      var armed := if changeType != Flat then None else anchor;
      var newType := ChangeType(pts[i - 1].elevation, pts[i].elevation, armed);
      if newType != changeType {
        TrendPartition(pts, i + 1, newType, Some(pts[i].elevation), i);
        PartitionAtCut(pts, i, changeType, anchor, segStart);
      } else {
        TrendPartition(pts, i + 1, changeType, armed, segStart);
      }
    }
  }

  /** As written, each cut loses one point: `k` segments hold the points from
      `segStart` on less `k - 1`. */
  lemma {:induction false} TrendLosesOnePerCut(pts: seq<TrackPoint>, i: nat, changeType: ElevationChangeType,
                                               anchor: Option<real>, segStart: nat)
    requires segStart < i <= |pts|
    ensures var r := TrendSegments(pts, i, changeType, anchor, segStart, true);
      |Points(r)| == |pts| - segStart - (|r| - 1)
    decreases |pts| - i
  {
    var r := TrendSegments(pts, i, changeType, anchor, segStart, true);
    if i < |pts| {
      var armed := if changeType != Flat then None else anchor;
      var newType := ChangeType(pts[i - 1].elevation, pts[i].elevation, armed);
      if newType != changeType {
        TrendLosesOnePerCut(pts, i + 1, newType, Some(pts[i].elevation), i);
        assert r[1..] == TrendSegments(pts, i + 1, newType, Some(pts[i].elevation), i, true);
      } else {
        TrendLosesOnePerCut(pts, i + 1, changeType, armed, segStart);
      }
    }
  }

  /** Two segmentations cut at the same places with the same labels, and every
      segment of `written` but the last is the matching segment of `intended`
      without its final point. */
  ghost predicate DropsCutPoints(written: seq<ElevationSegment>, intended: seq<ElevationSegment>)
  {
    && |written| == |intended|
    && (forall k :: 0 <= k < |written| ==> written[k].kind == intended[k].kind)
    && (forall k :: 0 <= k < |written| - 1 ==>
          intended[k].points != [] && written[k].points == intended[k].points[..|intended[k].points| - 1])
    && (written != [] ==> Last(written).points == Last(intended).points)
  }

  lemma DropsCutPointsCons(headW: ElevationSegment, head: ElevationSegment,
                            w: seq<ElevationSegment>, n: seq<ElevationSegment>)
    requires DropsCutPoints(w, n) && w != []
    requires headW.kind == head.kind && head.points != []
    requires headW.points == head.points[..|head.points| - 1]
    ensures DropsCutPoints([headW] + w, [head] + n)
  {
    var written := [headW] + w;
    var intended := [head] + n;
    assert forall k :: 0 < k < |written| ==> written[k] == w[k - 1] && intended[k] == n[k - 1];
  }

  /** At a cut both policies emit a segment with the same label, the written
      one lacking the intended one's final point, and carry on alike. */
  lemma PoliciesAgreeAtCut(pts: seq<TrackPoint>, i: nat, changeType: ElevationChangeType,
                           anchor: Option<real>, segStart: nat)
    requires segStart < i < |pts|
    requires var armed := if changeType != Flat then None else anchor;
      ChangeType(pts[i - 1].elevation, pts[i].elevation, armed) != changeType
    requires var armed := if changeType != Flat then None else anchor;
      var newType := ChangeType(pts[i - 1].elevation, pts[i].elevation, armed);
      DropsCutPoints(TrendSegments(pts, i + 1, newType, Some(pts[i].elevation), i, true),
                     TrendSegments(pts, i + 1, newType, Some(pts[i].elevation), i, false))
    ensures DropsCutPoints(TrendSegments(pts, i, changeType, anchor, segStart, true),
                           TrendSegments(pts, i, changeType, anchor, segStart, false))
  {
    var armed := if changeType != Flat then None else anchor;
    var newType := ChangeType(pts[i - 1].elevation, pts[i].elevation, armed);
    var next := Some(pts[i].elevation);
    var w := TrendSegments(pts, i + 1, newType, next, i, true);
    var n := TrendSegments(pts, i + 1, newType, next, i, false);
    var head := ElevationSegment(changeType, pts[segStart..i]);
    var headW := ElevationSegment(changeType, pts[segStart..i - 1]);
    assert TrendSegments(pts, i, changeType, anchor, segStart, true) == [headW] + w;
    assert TrendSegments(pts, i, changeType, anchor, segStart, false) == [head] + n;
    assert head.points[..|head.points| - 1] == headW.points;
    DropsCutPointsCons(headW, head, w, n);
  }

  /** The two slicing policies cut at the same places with the same labels. */
  lemma {:induction false} TrendPoliciesAgree(pts: seq<TrackPoint>, i: nat, changeType: ElevationChangeType,
                                              anchor: Option<real>, segStart: nat)
    requires segStart < i <= |pts|
    ensures DropsCutPoints(TrendSegments(pts, i, changeType, anchor, segStart, true),
                           TrendSegments(pts, i, changeType, anchor, segStart, false))
    decreases |pts| - i
  {
    if i < |pts| {
      var armed := if changeType != Flat then None else anchor;
      var newType := ChangeType(pts[i - 1].elevation, pts[i].elevation, armed);
      if newType != changeType {
        TrendPoliciesAgree(pts, i + 1, newType, Some(pts[i].elevation), i);
        PoliciesAgreeAtCut(pts, i, changeType, anchor, segStart);
      } else {
        TrendPoliciesAgree(pts, i + 1, changeType, armed, segStart);
      }
    }
  }

  /** The last segment always runs from the last cut to the end of the list. */
  lemma {:induction false} TrendLastIsSuffix(pts: seq<TrackPoint>, i: nat, changeType: ElevationChangeType,
                                             anchor: Option<real>, segStart: nat, dropCutPoint: bool)
    requires segStart < i <= |pts|
    ensures exists j :: (segStart <= j < |pts| &&
      Last(TrendSegments(pts, i, changeType, anchor, segStart, dropCutPoint)).points == pts[j..])
    decreases |pts| - i
  {
    var r := TrendSegments(pts, i, changeType, anchor, segStart, dropCutPoint);
    if i == |pts| {
      assert Last(r).points == pts[segStart..];
    } else {
      var armed := if changeType != Flat then None else anchor;
      var newType := ChangeType(pts[i - 1].elevation, pts[i].elevation, armed);
      if newType != changeType {
        TrendLastIsSuffix(pts, i + 1, newType, Some(pts[i].elevation), i, dropCutPoint);
      } else {
        TrendLastIsSuffix(pts, i + 1, changeType, armed, segStart, dropCutPoint);
      }
    }
  }

  /** While every elevation stays strictly within 2 m of an armed Flat anchor,
      the scan never cuts. */
  lemma {:induction false} TrendStaysFlat(pts: seq<TrackPoint>, i: nat, anchor: real,
                                          segStart: nat, dropCutPoint: bool)
    requires segStart < i <= |pts|
    requires forall k :: i <= k < |pts| ==> Abs(pts[k].elevation - anchor) < 2.0
    ensures TrendSegments(pts, i, Flat, Some(anchor), segStart, dropCutPoint)
         == [ElevationSegment(Flat, pts[segStart..])]
    decreases |pts| - i
  {
    if i < |pts| {
      TrendStaysFlat(pts, i + 1, anchor, segStart, dropCutPoint);
    }
  }

  /** While every step rises by at least 2 m, a Rising scan never cuts. */
  lemma {:induction false} TrendKeepsRising(pts: seq<TrackPoint>, i: nat, anchor: Option<real>,
                                            segStart: nat, dropCutPoint: bool)
    requires segStart < i <= |pts|
    requires forall k :: i <= k < |pts| ==> pts[k].elevation >= pts[k - 1].elevation + 2.0
    ensures TrendSegments(pts, i, Rising, anchor, segStart, dropCutPoint)
         == [ElevationSegment(Rising, pts[segStart..])]
    decreases |pts| - i
  {
    if i < |pts| {
      TrendKeepsRising(pts, i + 1, None, segStart, dropCutPoint);
    }
  }

  /** Points `lo` up to `hi` of `pts` follow the trend `kind`: consecutive
      points strictly climb (Rising) or strictly fall (Falling), or every
      point stays strictly within 2 m of point `lo` (Flat). */
  ghost predicate Follows(pts: seq<TrackPoint>, lo: nat, hi: nat, kind: ElevationChangeType)
    requires lo <= hi <= |pts|
  {
    match kind
    case Rising => forall j :: lo < j < hi ==> pts[j - 1].elevation < pts[j].elevation
    case Falling => forall j :: lo < j < hi ==> pts[j - 1].elevation > pts[j].elevation
    case Flat => forall j :: lo <= j < hi ==> Abs(pts[j].elevation - pts[lo].elevation) < 2.0
  }

  /** A segment's points follow its label. */
  ghost predicate Labelled(seg: ElevationSegment)
  {
    Follows(seg.points, 0, |seg.points|, seg.kind)
  }

  /** The first point of `next` breaks the trend of `seg`: it does not climb
      above the end of a Rising segment, does not fall below the end of a
      Falling one, and lies at least 2 m from the start of a Flat one. The
      label of `next` is the trend of that step, with no anchor. */
  ghost predicate Breaks(seg: ElevationSegment, next: ElevationSegment)
  {
    && seg.points != [] && next.points != []
    && next.kind == ChangeType(Last(seg.points).elevation, next.points[0].elevation, None)
    && match seg.kind
       case Rising => next.points[0].elevation <= Last(seg.points).elevation
       case Falling => next.points[0].elevation >= Last(seg.points).elevation
       case Flat => Abs(next.points[0].elevation - seg.points[0].elevation) >= 2.0
  }

  /** Every segment follows its label and is broken by the next one. */
  ghost predicate Labels(r: seq<ElevationSegment>)
  {
    && (forall k :: 0 <= k < |r| ==> Labelled(r[k]))
    && (forall k :: 0 < k < |r| ==> Breaks(r[k - 1], r[k]))
  }

  lemma FollowsSlice(pts: seq<TrackPoint>, lo: nat, hi: nat, kind: ElevationChangeType)
    requires lo <= hi <= |pts| && Follows(pts, lo, hi, kind)
    ensures Labelled(ElevationSegment(kind, pts[lo..hi]))
  {
    var s := pts[lo..hi];
    assert forall j :: 0 <= j < |s| ==> s[j] == pts[lo + j];
  }

  /** A prefix of a labelled segment is labelled. */
  lemma LabelledPrefix(seg: ElevationSegment, n: nat)
    requires Labelled(seg) && n <= |seg.points|
    ensures Labelled(ElevationSegment(seg.kind, seg.points[..n]))
  {
    var s := seg.points[..n];
    assert forall j :: 0 <= j < |s| ==> s[j] == seg.points[j];
  }

  /** A step the scan does not cut at extends the trend of the current
      segment by one point. */
  lemma FollowsStep(pts: seq<TrackPoint>, i: nat, changeType: ElevationChangeType,
                    anchor: Option<real>, segStart: nat)
    requires segStart < i < |pts|
    requires changeType == Flat ==> anchor == Some(pts[segStart].elevation)
    requires Follows(pts, segStart, i, changeType)
    requires var armed := if changeType != Flat then None else anchor;
      ChangeType(pts[i - 1].elevation, pts[i].elevation, armed) == changeType
    ensures Follows(pts, segStart, i + 1, changeType)
  {
    if changeType == Flat {
      assert Abs(pts[i - 1].elevation - pts[segStart].elevation) < 2.0;
    }
  }

  /** At a cut, the closed segment follows its label and is broken by the
      first segment of the rest, which starts at the cut point. */
  lemma LabelsAtCut(pts: seq<TrackPoint>, i: nat, changeType: ElevationChangeType,
                    anchor: Option<real>, segStart: nat)
    requires segStart < i < |pts|
    requires changeType == Flat ==> anchor == Some(pts[segStart].elevation)
    requires Follows(pts, segStart, i, changeType)
    requires var armed := if changeType != Flat then None else anchor;
      ChangeType(pts[i - 1].elevation, pts[i].elevation, armed) != changeType
    requires var armed := if changeType != Flat then None else anchor;
      var newType := ChangeType(pts[i - 1].elevation, pts[i].elevation, armed);
      Labels(TrendSegments(pts, i + 1, newType, Some(pts[i].elevation), i, false))
    ensures Labels(TrendSegments(pts, i, changeType, anchor, segStart, false))
  {
    var armed := if changeType != Flat then None else anchor;
    var newType := ChangeType(pts[i - 1].elevation, pts[i].elevation, armed);
    var rest := TrendSegments(pts, i + 1, newType, Some(pts[i].elevation), i, false);
    TrendPartition(pts, i + 1, newType, Some(pts[i].elevation), i);
    var head := ElevationSegment(changeType, pts[segStart..i]);
    var r := [head] + rest;
    assert TrendSegments(pts, i, changeType, anchor, segStart, false) == r;
    FollowsSlice(pts, segStart, i, changeType);
    assert Points(rest) == rest[0].points + Points(rest[1..]);
    assert rest[0].points[0] == pts[i];
    assert Last(head.points) == pts[i - 1] && head.points[0] == pts[segStart];
    assert rest[0].kind == newType == ChangeType(pts[i - 1].elevation, pts[i].elevation, None);
    assert Breaks(head, rest[0]);
    assert forall k :: 0 < k < |r| ==> r[k] == rest[k - 1];
  }

  /** A segment of one point follows any label. */
  lemma FollowsOne(pts: seq<TrackPoint>, i: nat, kind: ElevationChangeType)
    requires i < |pts|
    ensures Follows(pts, i, i + 1, kind)
  {
  }

  /** The scan's final segment follows its label. */
  lemma LabelsAtEnd(pts: seq<TrackPoint>, changeType: ElevationChangeType,
                    anchor: Option<real>, segStart: nat)
    requires segStart < |pts|
    requires Follows(pts, segStart, |pts|, changeType)
    ensures Labels(TrendSegments(pts, |pts|, changeType, anchor, segStart, false))
  {
    FollowsSlice(pts, segStart, |pts|, changeType);
    assert pts[segStart..|pts|] == pts[segStart..];
  }

  /** A step without a cut leaves the segments of the rest of the scan
      unchanged. */
  lemma LabelsWithoutCut(pts: seq<TrackPoint>, i: nat, changeType: ElevationChangeType,
                         anchor: Option<real>, segStart: nat)
    requires segStart < i < |pts|
    requires var armed := if changeType != Flat then None else anchor;
      ChangeType(pts[i - 1].elevation, pts[i].elevation, armed) == changeType
    requires var armed := if changeType != Flat then None else anchor;
      Labels(TrendSegments(pts, i + 1, changeType, armed, segStart, false))
    ensures Labels(TrendSegments(pts, i, changeType, anchor, segStart, false))
  {
    var armed := if changeType != Flat then None else anchor;
    assert TrendSegments(pts, i, changeType, anchor, segStart, false)
        == TrendSegments(pts, i + 1, changeType, armed, segStart, false);
  }

  /** With the intended slicing every segment from `segStart` on follows its
      label and is broken by the next, provided the current segment follows
      the current label so far and a Flat scan is anchored at its first
      point. */
  lemma {:induction false} TrendLabels(pts: seq<TrackPoint>, i: nat, changeType: ElevationChangeType,
                                       anchor: Option<real>, segStart: nat)
    requires segStart < i <= |pts|
    requires changeType == Flat ==> anchor == Some(pts[segStart].elevation)
    requires Follows(pts, segStart, i, changeType)
    ensures Labels(TrendSegments(pts, i, changeType, anchor, segStart, false))
    decreases |pts| - i
  {
    if i == |pts| {
      LabelsAtEnd(pts, changeType, anchor, segStart);
    } else {
      var armed := if changeType != Flat then None else anchor;
      var newType := ChangeType(pts[i - 1].elevation, pts[i].elevation, armed);
      if newType != changeType {
        FollowsOne(pts, i, newType);
        TrendLabels(pts, i + 1, newType, Some(pts[i].elevation), i);
        LabelsAtCut(pts, i, changeType, anchor, segStart);
      } else {
        FollowsStep(pts, i, changeType, anchor, segStart);
        TrendLabels(pts, i + 1, changeType, armed, segStart);
        LabelsWithoutCut(pts, i, changeType, anchor, segStart);
      }
    }
  }

  /** The intended segmentation labels every segment by what its points do:
      a Rising segment strictly climbs, a Falling one strictly falls, a Flat
      one stays strictly within 2 m of its first point; and the first point
      of each later segment breaks the trend of the one before. */
  lemma ElevationChangesIntendedLabels(pts: seq<TrackPoint>)
    ensures Labels(ElevationChangesIntended(pts))
  {
    if |pts| > 1 {
      var anchor := pts[0].elevation;
      var changeType := ChangeType(pts[0].elevation, pts[1].elevation, Some(anchor));
      TrendLabels(pts, 1, changeType, Some(anchor), 0);
    } else if |pts| == 1 {
      FollowsSlice(pts, 0, 1, Flat);
      assert pts[0..1] == pts;
    }
  }

  /** Segment `k` of `written` carries the unanchored trend of the step from
      the last point of intended segment `k - 1` to the first of intended
      segment `k`. */
  ghost predicate CutLabel(written: seq<ElevationSegment>, intended: seq<ElevationSegment>, k: int)
  {
    && 0 < k < |written| && k < |intended|
    && intended[k - 1].points != [] && intended[k].points != []
    && written[k].kind
       == ChangeType(Last(intended[k - 1].points).elevation, intended[k].points[0].elevation, None)
  }

  /** As written, each later label is still the unanchored trend of the step
      into the segment, taken from the point the written slice drops. */
  lemma ElevationChangesCutLabels(pts: seq<TrackPoint>)
    ensures var r := ElevationChanges(pts);
      var n := ElevationChangesIntended(pts);
      |n| == |r| && forall k :: 0 < k < |r| ==> CutLabel(r, n, k)
  {
    var r := ElevationChanges(pts);
    var n := ElevationChangesIntended(pts);
    ElevationChangesIntendedLabels(pts);
    ElevationChangesDropCutPoints(pts);
    forall k | 0 < k < |r|
      ensures CutLabel(r, n, k)
    {
      assert Breaks(n[k - 1], n[k]);
      assert r[k].kind == n[k].kind;
    }
  }

  /** As written every segment still follows its label: each is a prefix of
      the intended one. */
  lemma ElevationChangesLabelled(pts: seq<TrackPoint>)
    ensures var r := ElevationChanges(pts);
      forall k :: 0 <= k < |r| ==> Labelled(r[k])
  {
    var r := ElevationChanges(pts);
    var n := ElevationChangesIntended(pts);
    ElevationChangesIntendedLabels(pts);
    ElevationChangesDropCutPoints(pts);
    forall k | 0 <= k < |r|
      ensures Labelled(r[k])
    {
      assert Labelled(n[k]);
      if k < |r| - 1 {
        LabelledPrefix(n[k], |n[k].points| - 1);
      } else {
        assert r[k].points == n[k].points[..|n[k].points|];
        LabelledPrefix(n[k], |n[k].points|);
      }
    }
  }

  /** Elevations 0, 1, 5, 4 and 3: the short climb to 5 m is a segment of its
      own, labelled by the step into it, before the descent. As written that
      segment is empty, since its only point is the one the slice drops. */
  lemma ShortClimbIsOwnSegment()
    ensures var p0 := TrackPoint(0.0, 0.0, 0.0, 0);
      var p1 := TrackPoint(0.0, 0.0, 1.0, 1000);
      var p2 := TrackPoint(0.0, 0.0, 5.0, 2000);
      var p3 := TrackPoint(0.0, 0.0, 4.0, 3000);
      var p4 := TrackPoint(0.0, 0.0, 3.0, 4000);
      && ElevationChangesIntended([p0, p1, p2, p3, p4])
           == [ElevationSegment(Flat, [p0, p1]), ElevationSegment(Rising, [p2]),
               ElevationSegment(Falling, [p3, p4])]
      && ElevationChanges([p0, p1, p2, p3, p4])
           == [ElevationSegment(Flat, [p0]), ElevationSegment(Rising, []),
               ElevationSegment(Falling, [p3, p4])]
  {
    var p0 := TrackPoint(0.0, 0.0, 0.0, 0);
    var p1 := TrackPoint(0.0, 0.0, 1.0, 1000);
    var p2 := TrackPoint(0.0, 0.0, 5.0, 2000);
    var p3 := TrackPoint(0.0, 0.0, 4.0, 3000);
    var p4 := TrackPoint(0.0, 0.0, 3.0, 4000);
    var pts := [p0, p1, p2, p3, p4];
    assert pts[0..1] == [p0] && pts[0..2] == [p0, p1] && pts[2..2] == [] && pts[2..3] == [p2];
    assert pts[3..] == [p3, p4];
  }

  /** `getElevationChanges` keeps every point but one per cut, and its last
      segment is a suffix of the input. */
  lemma ElevationChangesShape(pts: seq<TrackPoint>)
    requires pts != []
    ensures var r := ElevationChanges(pts);
      && |Points(r)| == |pts| - (|r| - 1)
      && r[0].kind == (if |pts| == 1 then Flat
                       else ChangeType(pts[0].elevation, pts[1].elevation, Some(pts[0].elevation)))
      && exists j :: 0 <= j < |pts| && Last(r).points == pts[j..]
  {
    if |pts| > 1 {
      var anchor := pts[0].elevation;
      var changeType := ChangeType(pts[0].elevation, pts[1].elevation, Some(anchor));
      TrendLosesOnePerCut(pts, 1, changeType, Some(anchor), 0);
      TrendLastIsSuffix(pts, 1, changeType, Some(anchor), 0, true);
    } else {
      assert Points(ElevationChanges(pts)) == pts + Points([]);
      assert Last(ElevationChanges(pts)).points == pts[0..];
    }
  }

  /** The intended segmentation partitions the input into non-empty
      segments. */
  lemma ElevationChangesIntendedPartitions(pts: seq<TrackPoint>)
    ensures var r := ElevationChangesIntended(pts);
      Points(r) == pts && forall k :: 0 <= k < |r| ==> r[k].points != []
  {
    if |pts| > 1 {
      var anchor := pts[0].elevation;
      var changeType := ChangeType(pts[0].elevation, pts[1].elevation, Some(anchor));
      TrendPartition(pts, 1, changeType, Some(anchor), 0);
    } else if |pts| == 1 {
      assert Points(ElevationChangesIntended(pts)) == pts + Points([]);
    }
  }

  /** As written, the segmentation is the intended one with the final point of
      every segment but the last removed. */
  lemma ElevationChangesDropCutPoints(pts: seq<TrackPoint>)
    ensures DropsCutPoints(ElevationChanges(pts), ElevationChangesIntended(pts))
  {
    if |pts| > 1 {
      var anchor := pts[0].elevation;
      var changeType := ChangeType(pts[0].elevation, pts[1].elevation, Some(anchor));
      TrendPoliciesAgree(pts, 1, changeType, Some(anchor), 0);
    }
  }

  /** A profile that stays strictly within 2 m of its first elevation is one
      Flat segment holding every point. */
  lemma FlatProfileIsOneSegment(pts: seq<TrackPoint>)
    requires pts != []
    requires forall k :: 0 <= k < |pts| ==> Abs(pts[k].elevation - pts[0].elevation) < 2.0
    ensures ElevationChanges(pts) == [ElevationSegment(Flat, pts)]
    ensures ElevationChangesIntended(pts) == [ElevationSegment(Flat, pts)]
  {
    if |pts| > 1 {
      TrendStaysFlat(pts, 1, pts[0].elevation, 0, true);
      TrendStaysFlat(pts, 1, pts[0].elevation, 0, false);
    }
  }

  /** A profile rising by at least 2 m at every step is one Rising segment
      holding every point. */
  lemma RisingProfileIsOneSegment(pts: seq<TrackPoint>)
    requires |pts| >= 2
    requires forall k :: 0 < k < |pts| ==> pts[k].elevation >= pts[k - 1].elevation + 2.0
    ensures ElevationChanges(pts) == [ElevationSegment(Rising, pts)]
    ensures ElevationChangesIntended(pts) == [ElevationSegment(Rising, pts)]
  {
    TrendKeepsRising(pts, 1, Some(pts[0].elevation), 0, true);
    TrendKeepsRising(pts, 1, Some(pts[0].elevation), 0, false);
  }

  /** Three points at 0 m, 0 m and 5 m: the cut before the climb drops the
      second point as written, and keeps it with the intended slice. */
  lemma CutDropsPoint()
    ensures var p0 := TrackPoint(0.0, 0.0, 0.0, 0);
      var p1 := TrackPoint(0.0, 0.0, 0.0, 1000);
      var p2 := TrackPoint(0.0, 0.0, 5.0, 2000);
      && ElevationChanges([p0, p1, p2])
           == [ElevationSegment(Flat, [p0]), ElevationSegment(Rising, [p2])]
      && ElevationChangesIntended([p0, p1, p2])
           == [ElevationSegment(Flat, [p0, p1]), ElevationSegment(Rising, [p2])]
  {
    var p0 := TrackPoint(0.0, 0.0, 0.0, 0);
    var p1 := TrackPoint(0.0, 0.0, 0.0, 1000);
    var p2 := TrackPoint(0.0, 0.0, 5.0, 2000);
    var pts := [p0, p1, p2];
    assert pts[0..0] == [] && pts[0..1] == [p0] && pts[0..2] == [p0, p1] && pts[2..] == [p2];
  }
}
