/** `group_lines` (src/medical_ocr/ocr_processor.py): detections are sorted
    into reading order (top-left y, then top-left x), cut into runs wherever
    the y-centre of a detection is not within the tolerance of the y-centre
    of the detection added just before it, and every run is sorted by its
    top-left x to give a line. */
module OcrLines {
  import opened OcrDetections
  import opened Sorting
  import opened Collections

  type Line = seq<Detection>

  /** The default `y_tolerance`, in box-coordinate units. */
  const DefaultYTolerance: int := 15

  /** `abs(curr_y - prev_y) < y_tolerance` with `curr_y`, `prev_y` the
      y-centres of `curr` and `prev`. */
  predicate SameBand(prev: Detection, curr: Detection, yTolerance: int) {
    Abs(DoubledYCentre(curr) - DoubledYCentre(prev)) < 2 * yTolerance
  }

  function Flatten<T>(ss: seq<seq<T>>): seq<T> {
    if ss == [] then [] else Flatten(ss[..|ss| - 1]) + Last(ss)
  }

  /** One detection `x` reaching the loop of `group_lines`: it joins the open
      (last) run when it is in the same band as the last detection added to
      that run, and opens a new run otherwise. */
  function AddToRuns(runs: seq<Line>, x: Detection, yTolerance: int): (r: seq<Line>)
    ensures Flatten(r) == Flatten(runs) + [x]
    ensures |r| > 0 && Last(r) != []
    ensures (forall k :: 0 <= k < |runs| ==> runs[k] != []) ==> forall k :: 0 <= k < |r| ==> r[k] != []
  {
    if |runs| > 0 && Last(runs) != [] && SameBand(Last(Last(runs)), x, yTolerance) then
      var r := runs[..|runs| - 1] + [Last(runs) + [x]];
      assert r[..|r| - 1] == runs[..|runs| - 1];
      assert runs == runs[..|runs| - 1] + [Last(runs)];
      r
    else
      var r := runs + [[x]];
      assert r[..|r| - 1] == runs;
      r
  }

  /** The runs the loop of `group_lines` builds from the reading-order list
      `s`, before each run is sorted.  The runs cut `s` into consecutive
      non-empty pieces. */
  function Runs(s: seq<Detection>, yTolerance: int): (r: seq<Line>)
    ensures |r| == 0 <==> |s| == 0
    ensures forall k :: 0 <= k < |r| ==> r[k] != []
    decreases |s|
  {
    if |s| == 0 then [] else AddToRuns(Runs(s[..|s| - 1], yTolerance), Last(s), yTolerance)
  }

  /** The runs, put back together, are the input again. */
  lemma {:induction false} RunsCutInput(s: seq<Detection>, yTolerance: int)
    ensures Flatten(Runs(s, yTolerance)) == s
    decreases |s|
  {
    if |s| > 0 {
      RunsCutInput(s[..|s| - 1], yTolerance);
      assert s == s[..|s| - 1] + [Last(s)];
    }
  }

  /** Every run sorted by top-left x (`sorted(current_line, key=box[0][0])`). */
  function SortEach(runs: seq<Line>): (lines: seq<Line>)
    ensures |lines| == |runs|
  {
    seq(|runs|, k requires 0 <= k < |runs| => SortBy(runs[k], LeftLe))
  }

  /** The value of `group_lines(detections, y_tolerance)`. */
  function Lines(detections: seq<Detection>, yTolerance: int): seq<Line> {
    SortEach(Runs(SortBy(detections, ReadingOrderLe), yTolerance))
  }

  /** `group_lines`. */
  method GroupLines(detections: seq<Detection>, yTolerance: int) returns (lines: seq<Line>)
    ensures lines == Lines(detections, yTolerance)
  {
    if |detections| == 0 {
      return [];
    }
    var sorted := SortBy(detections, ReadingOrderLe);
    lines := [];
    var currentLine := [sorted[0]];
    ghost var closed: seq<Line> := [];
    FirstRun(sorted, yTolerance);
    for i := 1 to |sorted|
      invariant currentLine != []
      invariant Runs(sorted[..i], yTolerance) == closed + [currentLine]
      invariant lines == SortEach(closed)
    {
      var prevY := DoubledYCentre(currentLine[|currentLine| - 1]);
      var currY := DoubledYCentre(sorted[i]);
      if Abs(currY - prevY) < 2 * yTolerance {
        RunsJoin(sorted, i, closed, currentLine, yTolerance);
        currentLine := currentLine + [sorted[i]];
      } else {
        RunsBreak(sorted, i, closed, currentLine, yTolerance);
        SortEachAppend(closed, currentLine);
        lines := lines + [SortBy(currentLine, LeftLe)];
        closed := closed + [currentLine];
        currentLine := [sorted[i]];
      }
    }
    LastLine(sorted, closed, currentLine, yTolerance);
    lines := lines + [SortBy(currentLine, LeftLe)];
  }

  lemma RunsAppend(s: seq<Detection>, x: Detection, yTolerance: int)
    requires |s| > 0
    ensures var prev := Runs(s, yTolerance);
      Runs(s + [x], yTolerance) ==
        if SameBand(Last(Last(prev)), x, yTolerance) then prev[..|prev| - 1] + [Last(prev) + [x]]
        else prev + [[x]]
  {
    assert (s + [x])[..|s|] == s;
  }

  lemma FirstRun(s: seq<Detection>, yTolerance: int)
    requires |s| > 0
    ensures Runs(s[..1], yTolerance) == [] + [[s[0]]]
  {
    assert s[..1] == [s[0]];
  }

  /** A turn of the loop of `group_lines` that adds `s[i]` to the open run. */
  lemma RunsJoin(s: seq<Detection>, i: nat, closed: seq<Line>, open: Line, yTolerance: int)
    requires 0 < i < |s| && open != [] && Runs(s[..i], yTolerance) == closed + [open]
    requires SameBand(Last(open), s[i], yTolerance)
    ensures Runs(s[..i + 1], yTolerance) == closed + [open + [s[i]]]
  {
    assert s[..i + 1] == s[..i] + [s[i]];
    RunsAppend(s[..i], s[i], yTolerance);
    assert (closed + [open])[..|closed|] == closed;
  }

  /** A turn of the loop of `group_lines` that closes the open run. */
  lemma RunsBreak(s: seq<Detection>, i: nat, closed: seq<Line>, open: Line, yTolerance: int)
    requires 0 < i < |s| && open != [] && Runs(s[..i], yTolerance) == closed + [open]
    requires !SameBand(Last(open), s[i], yTolerance)
    ensures Runs(s[..i + 1], yTolerance) == (closed + [open]) + [[s[i]]]
  {
    assert s[..i + 1] == s[..i] + [s[i]];
    RunsAppend(s[..i], s[i], yTolerance);
  }

  /** After the loop of `group_lines`, sorting the open run completes the lines. */
  lemma LastLine(sorted: seq<Detection>, closed: seq<Line>, open: Line, yTolerance: int)
    requires Runs(sorted[..|sorted|], yTolerance) == closed + [open]
    ensures SortEach(closed) + [SortBy(open, LeftLe)] == SortEach(Runs(sorted, yTolerance))
  {
    assert sorted[..|sorted|] == sorted;
    SortEachAppend(closed, open);
  }

  lemma SortEachAppend(runs: seq<Line>, run: Line)
    ensures SortEach(runs + [run]) == SortEach(runs) + [SortBy(run, LeftLe)]
  {
  }

  // ---------------------------------------------------------------------
  // Properties of the runs

  /** Inside every run each detection is in the band of the one before it. */
  ghost predicate ChainedInside(r: seq<Line>, yTolerance: int) {
    forall k, j :: 0 <= k < |r| && 0 < j < |r[k]| ==> SameBand(r[k][j - 1], r[k][j], yTolerance)
  }

  /** The first detection of every run is out of the band of the last
      detection of the run before. */
  ghost predicate SeparatedAcross(r: seq<Line>, yTolerance: int) {
    forall k :: 0 < k < |r| && r[k - 1] != [] && r[k] != [] ==> !SameBand(Last(r[k - 1]), r[k][0], yTolerance)
  }

  /** The runs are exactly the chains of the loop: consecutive detections in
      a run are within the tolerance, and a new run starts exactly where the
      next detection is out of the band of the last one added. */
  lemma {:induction false} RunsChain(s: seq<Detection>, yTolerance: int)
    ensures ChainedInside(Runs(s, yTolerance), yTolerance)
    ensures SeparatedAcross(Runs(s, yTolerance), yTolerance)
    decreases |s|
  {
    if |s| > 1 {
      var init, x := s[..|s| - 1], Last(s);
      assert s == init + [x];
      var prev := Runs(init, yTolerance);
      RunsChain(init, yTolerance);
      RunsAppend(init, x, yTolerance);
      var m := |prev|;
      assert prev == prev[..m - 1] + [Last(prev)];
      if SameBand(Last(Last(prev)), x, yTolerance) {
        ExtendOpenRun(prev[..m - 1], Last(prev), x, yTolerance);
      } else {
        StartNewRun(prev, x, yTolerance);
      }
    }
  }

  lemma ExtendOpenRun(closed: seq<Line>, open: Line, x: Detection, yTolerance: int)
    requires open != [] && SameBand(Last(open), x, yTolerance)
    requires ChainedInside(closed + [open], yTolerance) && SeparatedAcross(closed + [open], yTolerance)
    ensures ChainedInside(closed + [open + [x]], yTolerance) && SeparatedAcross(closed + [open + [x]], yTolerance)
  {
    var before, after := closed + [open], closed + [open + [x]];
    forall k, j | 0 <= k < |after| && 0 < j < |after[k]|
      ensures SameBand(after[k][j - 1], after[k][j], yTolerance)
    {
      if k < |closed| {
        assert after[k] == before[k];
      } else if j < |open| {
        assert after[k][j - 1] == before[k][j - 1] && after[k][j] == before[k][j];
      }
    }
    forall k | 0 < k < |after| && after[k - 1] != [] && after[k] != []
      ensures !SameBand(Last(after[k - 1]), after[k][0], yTolerance)
    {
      assert after[k - 1] == before[k - 1];
      assert after[k][0] == before[k][0];
    }
  }

  lemma StartNewRun(runs: seq<Line>, x: Detection, yTolerance: int)
    requires runs != [] && Last(runs) != [] && !SameBand(Last(Last(runs)), x, yTolerance)
    requires ChainedInside(runs, yTolerance) && SeparatedAcross(runs, yTolerance)
    ensures ChainedInside(runs + [[x]], yTolerance) && SeparatedAcross(runs + [[x]], yTolerance)
  {
    var after := runs + [[x]];
    forall k, j | 0 <= k < |after| && 0 < j < |after[k]|
      ensures SameBand(after[k][j - 1], after[k][j], yTolerance)
    {
      assert after[k] == runs[k];
    }
    forall k | 0 < k < |after| && after[k - 1] != [] && after[k] != []
      ensures !SameBand(Last(after[k - 1]), after[k][0], yTolerance)
    {
      assert after[k - 1] == runs[k - 1];
      if k < |runs| {
        assert after[k] == runs[k];
      }
    }
  }

  lemma {:induction false} InFlatten<T>(ss: seq<seq<T>>, k: nat, a: T)
    requires k < |ss| && a in ss[k]
    ensures a in Flatten(ss)
    decreases |ss|
  {
    if k < |ss| - 1 {
      InFlatten(ss[..|ss| - 1], k, a);
    }
  }

  /** Every detection of an earlier piece precedes, in reading order, every
      detection of a later piece. */
  ghost predicate PiecesInReadingOrder(r: seq<Line>) {
    forall k, k', a, b :: 0 <= k < k' < |r| && a in r[k] && b in r[k'] ==> ReadingOrderLe(a, b)
  }

  /** Every detection of every piece precedes `x` in reading order. */
  ghost predicate AllBefore(r: seq<Line>, x: Detection) {
    forall k, a :: 0 <= k < |r| && a in r[k] ==> ReadingOrderLe(a, x)
  }

  /** When `s` is in reading order, so are its runs. */
  lemma {:induction false} RunsFollowReadingOrder(s: seq<Detection>, yTolerance: int)
    requires SortedBy(s, ReadingOrderLe)
    ensures PiecesInReadingOrder(Runs(s, yTolerance))
    decreases |s|
  {
    if |s| > 1 {
      var init, x := s[..|s| - 1], Last(s);
      assert s == init + [x];
      var prev := Runs(init, yTolerance);
      RunsFollowReadingOrder(init, yTolerance);
      RunsAppend(init, x, yTolerance);
      RunsBeforeLast(s, yTolerance);
      var m := |prev|;
      assert prev == prev[..m - 1] + [Last(prev)];
      if SameBand(Last(Last(prev)), x, yTolerance) {
        ExtendOpenRunInOrder(prev[..m - 1], Last(prev), x);
      } else {
        NewRunInOrder(prev, x);
      }
    }
  }

  /** In a sorted list, every detection of the runs before the last one
      precedes the last one. */
  lemma RunsBeforeLast(s: seq<Detection>, yTolerance: int)
    requires |s| > 1 && SortedBy(s, ReadingOrderLe)
    ensures AllBefore(Runs(s[..|s| - 1], yTolerance), Last(s))
  {
    var init := s[..|s| - 1];
    var prev := Runs(init, yTolerance);
    RunsCutInput(init, yTolerance);
    forall k, a | 0 <= k < |prev| && a in prev[k]
      ensures ReadingOrderLe(a, Last(s))
    {
      InFlatten(prev, k, a);
      var i :| 0 <= i < |init| && init[i] == a;
      assert s[i] == a;
    }
  }

  lemma ExtendOpenRunInOrder(closed: seq<Line>, open: Line, x: Detection)
    requires PiecesInReadingOrder(closed + [open]) && AllBefore(closed + [open], x)
    ensures PiecesInReadingOrder(closed + [open + [x]])
  {
    var before, after := closed + [open], closed + [open + [x]];
    forall k, k', a, b | 0 <= k < k' < |after| && a in after[k] && b in after[k']
      ensures ReadingOrderLe(a, b)
    {
      assert after[k] == before[k];
      if k' < |closed| || b in open {
        assert b in before[k'];
      } else {
        assert b == x;
      }
    }
  }

  lemma NewRunInOrder(runs: seq<Line>, x: Detection)
    requires PiecesInReadingOrder(runs) && AllBefore(runs, x)
    ensures PiecesInReadingOrder(runs + [[x]])
  {
    var after := runs + [[x]];
    forall k, k', a, b | 0 <= k < k' < |after| && a in after[k] && b in after[k']
      ensures ReadingOrderLe(a, b)
    {
      assert after[k] == runs[k];
      if k' < |runs| {
        assert after[k'] == runs[k'];
      }
    }
  }

  lemma {:induction false} FlattenSortEach(runs: seq<Line>)
    ensures multiset(Flatten(SortEach(runs))) == multiset(Flatten(runs))
    decreases |runs|
  {
    if runs != [] {
      var init := runs[..|runs| - 1];
      FlattenSortEach(init);
      assert SortEach(runs)[..|runs| - 1] == SortEach(init);
    }
  }

  // ---------------------------------------------------------------------
  // Properties of group_lines

  /** No detection is lost or duplicated: the lines together hold exactly the
      input detections; there are no lines exactly when there are no detections. */
  lemma LinesCoverDetections(detections: seq<Detection>, yTolerance: int)
    ensures multiset(Flatten(Lines(detections, yTolerance))) == multiset(detections)
    ensures Lines(detections, yTolerance) == [] <==> detections == []
  {
    var sorted := SortBy(detections, ReadingOrderLe);
    FlattenSortEach(Runs(sorted, yTolerance));
    RunsCutInput(sorted, yTolerance);
  }

  /** Each line is non-empty, ordered by top-left x, and is a stable
      reordering of one run: its detections are those of the run, and
      detections with the same top-left x keep their reading order. */
  lemma LinesAreSortedRuns(detections: seq<Detection>, yTolerance: int, k: nat, e: Detection)
    requires k < |Lines(detections, yTolerance)|
    ensures var run := Runs(SortBy(detections, ReadingOrderLe), yTolerance)[k];
      var line := Lines(detections, yTolerance)[k];
      && line != []
      && SortedBy(line, LeftLe)
      && multiset(line) == multiset(run)
      && KeyClass(line, LeftLe, e) == KeyClass(run, LeftLe, e)
  {
    var run := Runs(SortBy(detections, ReadingOrderLe), yTolerance)[k];
    LeftOrderIsPreorder();
    SortBySorts(run, LeftLe);
    SortByIsStable(run, LeftLe, e);
  }

  /** Lines come out top to bottom: every detection of an earlier line
      precedes, in (top-left y, top-left x) order, every detection of a later line. */
  lemma LinesInReadingOrder(detections: seq<Detection>, yTolerance: int)
    ensures PiecesInReadingOrder(Lines(detections, yTolerance))
  {
    var sorted := SortBy(detections, ReadingOrderLe);
    var runs := Runs(sorted, yTolerance);
    var lines := Lines(detections, yTolerance);
    ReadingOrderIsPreorder();
    SortBySorts(detections, ReadingOrderLe);
    RunsFollowReadingOrder(sorted, yTolerance);
    forall k, k', a, b | 0 <= k < k' < |lines| && a in lines[k] && b in lines[k']
      ensures ReadingOrderLe(a, b)
    {
      assert lines[k] == SortBy(runs[k], LeftLe) && lines[k'] == SortBy(runs[k'], LeftLe);
      SortByIsPermutation(runs[k], LeftLe);
      SortByIsPermutation(runs[k'], LeftLe);
      assert a in runs[k] && b in runs[k'];
    }
  }
}
