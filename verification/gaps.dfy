/** Gap detection: splitting a point list into contiguous runs. */
module Gaps {
  import opened TrackPoints

  /** A gap separates two consecutive fixes when more than 1 ms passed AND
      they are more than 100 m apart. */
  predicate IsGap(gc: DistanceFn, prev: TrackPoint, cur: TrackPoint)
  {
    cur.time - prev.time > 1 && Dist(gc, prev, cur) > 100.0
  }

  /** No two consecutive points of `pts` are separated by a gap. */
  predicate Contiguous(gc: DistanceFn, pts: seq<TrackPoint>)
  {
    forall j :: 0 < j < |pts| ==> !IsGap(gc, pts[j - 1], pts[j])
  }

  /** Runs `r - 1` and `r` are both non-empty and a gap separates the last
      point of the one from the first point of the other. */
  predicate GapBefore(gc: DistanceFn, runs: seq<TrackRun>, r: int)
    requires 0 < r < |runs|
  {
    runs[r - 1].points != [] && runs[r].points != [] &&
    IsGap(gc, Last(runs[r - 1].points), runs[r].points[0])
  }

  /** What `getGaps` promises: the runs concatenate back to the input, every
      boundary between runs is a gap and no run contains one. */
  predicate SplitsAtGaps(gc: DistanceFn, pts: seq<TrackPoint>, runs: seq<TrackRun>)
  {
    && |runs| >= 1
    && Flatten(runs) == pts
    && (forall r :: 0 <= r < |runs| ==> Contiguous(gc, runs[r].points))
    && (forall r :: 0 < r < |runs| ==> GapBefore(gc, runs, r))
  }

  /** The scan of `getGaps` from index `i`, with the current run starting at
      `runStart`. */
  function GapsFrom(gc: DistanceFn, pts: seq<TrackPoint>, i: nat, runStart: nat): (runs: seq<TrackRun>)
    requires runStart < i && runStart <= |pts|
    ensures |runs| >= 1
    decreases |pts| - i
  {
    if i >= |pts| then
      [TrackRun(pts[runStart..])]
    else if IsGap(gc, pts[i - 1], pts[i]) then
      [TrackRun(pts[runStart..i])] + GapsFrom(gc, pts, i + 1, i)
    else
      GapsFrom(gc, pts, i + 1, runStart)
  }

  /** A contiguous run followed by a gap and then a split of the rest is a
      split of the whole. */
  lemma GapThenRuns(gc: DistanceFn, head: seq<TrackPoint>, tail: seq<TrackPoint>, rest: seq<TrackRun>)
    requires head != [] && Contiguous(gc, head) && SplitsAtGaps(gc, tail, rest)
    requires rest[0].points != [] && IsGap(gc, Last(head), rest[0].points[0])
    ensures SplitsAtGaps(gc, head + tail, [TrackRun(head)] + rest)
  {
    var runs := [TrackRun(head)] + rest;
    assert runs[1..] == rest;
    forall r | 0 < r < |runs|
      ensures GapBefore(gc, runs, r)
    {
      if r > 1 {
        assert GapBefore(gc, rest, r - 1);
      }
    }
  }

  /** Appending a point that follows the last one without a gap keeps a
      stretch contiguous. */
  lemma ContiguousExtend(gc: DistanceFn, pts: seq<TrackPoint>, t: TrackPoint)
    requires Contiguous(gc, pts) && (pts != [] ==> !IsGap(gc, Last(pts), t))
    ensures Contiguous(gc, pts + [t])
  {
    var ext := pts + [t];
    forall j | 0 < j < |ext|
      ensures !IsGap(gc, ext[j - 1], ext[j])
    {
      if j < |pts| {
        assert ext[j - 1] == pts[j - 1] && ext[j] == pts[j];
      }
    }
  }

  /** A contiguous list is a split of itself into one run. */
  lemma SingleRun(gc: DistanceFn, pts: seq<TrackPoint>)
    requires Contiguous(gc, pts)
    ensures SplitsAtGaps(gc, pts, [TrackRun(pts)])
  {
    assert Flatten([TrackRun(pts)]) == pts + Flatten([]);
  }

  /** In a split of a non-empty list no run is empty, and the first run
      starts with the list's first point. */
  lemma SplitHead(gc: DistanceFn, pts: seq<TrackPoint>, runs: seq<TrackRun>)
    requires SplitsAtGaps(gc, pts, runs) && pts != []
    ensures forall r :: 0 <= r < |runs| ==> runs[r].points != []
    ensures runs[0].points != [] && runs[0].points[0] == pts[0]
  {
    forall r | 0 <= r < |runs|
      ensures runs[r].points != []
    {
      if r > 0 {
        assert GapBefore(gc, runs, r);
      } else if |runs| > 1 {
        assert GapBefore(gc, runs, 1);
      } else {
        assert Flatten(runs) == runs[0].points + Flatten(runs[1..]);
        assert runs[1..] == [];
      }
    }
    assert Flatten(runs) == runs[0].points + Flatten(runs[1..]);
  }

  /** At a gap the scan closes the current run and starts a new one. */
  lemma GapStep(gc: DistanceFn, pts: seq<TrackPoint>, i: nat, runStart: nat)
    requires runStart < i < |pts| && IsGap(gc, pts[i - 1], pts[i])
    requires Contiguous(gc, pts[runStart..i])
    requires SplitsAtGaps(gc, pts[i..], GapsFrom(gc, pts, i + 1, i))
    ensures SplitsAtGaps(gc, pts[runStart..], GapsFrom(gc, pts, i, runStart))
  {
    var rest := GapsFrom(gc, pts, i + 1, i);
    assert GapsFrom(gc, pts, i, runStart) == [TrackRun(pts[runStart..i])] + rest;
    SplitHead(gc, pts[i..], rest);
    assert pts[runStart..] == pts[runStart..i] + pts[i..];
    assert Last(pts[runStart..i]) == pts[i - 1];
    GapThenRuns(gc, pts[runStart..i], pts[i..], rest);
  }

  /** Without a gap the scan extends the current run. */
  lemma NoGapStep(gc: DistanceFn, pts: seq<TrackPoint>, i: nat, runStart: nat)
    requires runStart < i < |pts| && !IsGap(gc, pts[i - 1], pts[i])
    requires Contiguous(gc, pts[runStart..i])
    ensures Contiguous(gc, pts[runStart..if i + 1 < |pts| then i + 1 else |pts|])
    ensures GapsFrom(gc, pts, i, runStart) == GapsFrom(gc, pts, i + 1, runStart)
  {
    assert pts[runStart..i + 1] == pts[runStart..i] + [pts[i]];
    assert Last(pts[runStart..i]) == pts[i - 1];
    ContiguousExtend(gc, pts[runStart..i], pts[i]);
  }

  /** The scan splits the rest of the list at its gaps, given that the
      current run is contiguous so far. */
  lemma {:induction false} GapsFromSplits(gc: DistanceFn, pts: seq<TrackPoint>, i: nat, runStart: nat)
    requires runStart < i && runStart <= |pts|
    requires Contiguous(gc, pts[runStart..if i < |pts| then i else |pts|])
    ensures SplitsAtGaps(gc, pts[runStart..], GapsFrom(gc, pts, i, runStart))
    decreases |pts| - i
  {
    if i >= |pts| {
      assert pts[runStart..if i < |pts| then i else |pts|] == pts[runStart..];
      SingleRun(gc, pts[runStart..]);
    } else if IsGap(gc, pts[i - 1], pts[i]) {
      assert pts[i..i + 1] == [pts[i]];
      GapsFromSplits(gc, pts, i + 1, i);
      GapStep(gc, pts, i, runStart);
    } else {
      NoGapStep(gc, pts, i, runStart);
      GapsFromSplits(gc, pts, i + 1, runStart);
    }
  }

  /** `getGaps`: the runs of `pts`. An empty input gives a single empty run;
      otherwise no run is empty. */
  function GetGaps(gc: DistanceFn, pts: seq<TrackPoint>): (runs: seq<TrackRun>)
    ensures SplitsAtGaps(gc, pts, runs)
    ensures pts == [] ==> runs == [TrackRun([])]
    ensures pts != [] ==> forall r :: 0 <= r < |runs| ==> runs[r].points != []
  {
    GapsFromSplits(gc, pts, 1, 0);
    var runs := GapsFrom(gc, pts, 1, 0);
    if pts == [] then runs else SplitHead(gc, pts, runs); runs
  }
}
