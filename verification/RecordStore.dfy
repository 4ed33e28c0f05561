/** Finding the segments of a path that overlap a requested period. */
module RecordStore {
  import opened Options
  import opened Sorting

  datatype Segment = Segment(fpath: string, start: int)

  /** A file met by the directory walk, with the start time that its name says, if it is a segment's. */
  datatype File = File(fpath: string, decoded: Option<int>)

  predicate StartsBefore(a: Segment, b: Segment) {
    a.start < b.start
  }

  /** The segments that start before the end of the period, in the order of the walk. */
  function Gathered(files: seq<File>, end: Option<int>): seq<Segment> {
    if files == [] then []
    else
      var f := files[|files| - 1];
      Gathered(files[..|files| - 1], end) +
      (if f.decoded.Some? && (end.None? || f.decoded.value <= end.value) then [Segment(f.fpath, f.decoded.value)]
       else [])
  }

  lemma {:induction false} GatheredHoldsExactly(files: seq<File>, end: Option<int>, g: Segment)
    ensures g in Gathered(files, end) <==>
            File(g.fpath, Some(g.start)) in files && (end.None? || g.start <= end.value)
    decreases |files|
  {
    if files != [] {
      GatheredHoldsExactly(files[..|files| - 1], end, g);
    }
  }

  /** The answer is sorted and, with what was dropped, holds all gathered segments. Nothing is dropped
      when the period starts before all of them or has no start; otherwise exactly the first segment of the
      answer starts at or before the start of the period, and all that were dropped are no later than it. */
  ghost predicate IsAnswer(all: seq<Segment>, start: Option<int>, dropped: seq<Segment>, r: seq<Segment>) {
    && r != []
    && Ordered(StartsBefore, dropped + r) && multiset(dropped + r) == multiset(all)
    && (start.None? || start.value < r[0].start ==> dropped == [])
    && (start.Some? && dropped != [] ==> r[0].start <= start.value)
    && (start.Some? ==> forall k :: 0 < k < |r| ==> r[k].start > start.value)
  }

  lemma {:induction false} ByStartIsStrictWeak()
    ensures StrictWeakOrder(StartsBefore)
  {
  }

  lemma {:induction false} OrderedStarts(s: seq<Segment>)
    requires Ordered(StartsBefore, s)
    ensures forall i, j :: 0 <= i <= j < |s| ==> s[i].start <= s[j].start
  {
    forall i, j | 0 <= i <= j < |s| ensures s[i].start <= s[j].start {
      assert i < j ==> !StartsBefore(s[j], s[i]);
    }
  }

  method GatherSegments(files: seq<File>, end: Option<int>) returns (segments: seq<Segment>)
    ensures segments == Gathered(files, end)
  {
    segments := [];
    for n := 0 to |files|
      invariant segments == Gathered(files[..n], end)
    {
      assert files[..n + 1][..n] == files[..n];
      if files[n].decoded.Some? && (end.None? || !(end.value < files[n].decoded.value)) {
        segments := segments + [Segment(files[n].fpath, files[n].decoded.value)];
      }
    }
    assert files[..|files|] == files;
  }

  lemma {:induction false} CutIsAnswer(all: seq<Segment>, sorted: seq<Segment>, t: int, i: nat)
    requires Ordered(StartsBefore, sorted) && multiset(sorted) == multiset(all) && i < |sorted|
    requires sorted[i].start <= t && (i + 1 < |sorted| ==> t < sorted[i + 1].start)
    ensures IsAnswer(all, Some(t), sorted[..i], sorted[i..])
  {
    assert sorted == sorted[..i] + sorted[i..];
    OrderedStarts(sorted);
    forall k | 0 < k < |sorted[i..]| ensures sorted[i..][k].start > t {
      assert sorted[i + 1].start <= sorted[i + k].start;
    }
  }

  lemma {:induction false} WholeIsAnswer(all: seq<Segment>, sorted: seq<Segment>, start: Option<int>)
    requires Ordered(StartsBefore, sorted) && multiset(sorted) == multiset(all) && sorted != []
    requires start.Some? ==> start.value < sorted[0].start
    ensures IsAnswer(all, start, [], sorted)
  {
    assert [] + sorted == sorted;
    OrderedStarts(sorted);
  }

  method FindSegments(files: seq<File>, start: Option<int>, end: Option<int>)
    returns (r: Option<seq<Segment>>, ghost dropped: seq<Segment>)
    ensures r.None? <==> Gathered(files, end) == []
    ensures r.Some? ==> IsAnswer(Gathered(files, end), start, dropped, r.value)
  {
    var segments := GatherSegments(files, end);
    if segments == [] {
      return None, [];
    }
    ghost var all := segments;
    ByStartIsStrictWeak();
    segments := SortSlice(segments, StartsBefore);
    assert |segments| == |multiset(segments)| == |multiset(all)| == |all|;
    ghost var sorted := segments;
    dropped := [];
    if start.None? || start.value < segments[0].start {
      WholeIsAnswer(all, sorted, start);
      return Some(segments), dropped;
    }
    for i := 0 to |segments| - 1
      invariant segments[i].start <= start.value
    {
      if !(start.value < segments[i].start) && start.value < segments[i + 1].start {
        CutIsAnswer(all, sorted, start.value, i);
        return Some(segments[i..]), segments[..i];
      }
    }
    var last := |segments| - 1;
    CutIsAnswer(all, sorted, start.value, last);
    dropped, segments := segments[..last], segments[last..];
    if segments[|segments| - 1].start > start.value {
      assert false; // not reached: the loop has seen that even the last segment starts in time
    }
    return Some(segments), dropped;
  }

  /** The answer does not depend on the order of the walk or of equal elements: it holds a segment that
      starts after the start of the period if and only if that was gathered, and only one other. */
  lemma {:induction false} AnswerHoldsWhatIsNeeded(
    all: seq<Segment>, t: int, dropped: seq<Segment>, r: seq<Segment>, g: Segment)
    requires IsAnswer(all, Some(t), dropped, r) && g in all
    ensures g.start > t ==> g in r
    ensures g.start <= t ==> r[0].start <= t && g.start <= r[0].start
    ensures forall k :: 0 <= k < |r| ==> r[k] in all
  {
    assert g in multiset(all);
    assert g in multiset(dropped + r);
    OrderedStarts(dropped + r);
    forall k | 0 <= k < |r| ensures r[k] in all {
      assert r[k] == (dropped + r)[|dropped| + k];
      assert r[k] in multiset(dropped + r);
    }
    var i :| 0 <= i < |dropped + r| && (dropped + r)[i] == g;
    assert r[0] == (dropped + r)[|dropped|];
    if i < |dropped| {
      assert (dropped + r)[i].start <= (dropped + r)[|dropped|].start;
    } else {
      assert g == r[i - |dropped|];
      assert r[0].start <= g.start;
    }
  }
}
