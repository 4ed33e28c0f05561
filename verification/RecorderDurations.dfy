/** How long parts and segments last: what the recorder writes into the header of a file, and when it
    starts a new part. */
module RecorderDurations {
  import opened Options
  import opened Rounding
  import opened RecorderModel
  import opened RecorderSafety
  import opened RecorderRuns

  function End(track: Track, x: Sample): int
    requires track.timeScale > 0
  {
    Dts(track, x.dts) + Dts(track, x.duration)
  }

  /** The entry is a sample that was kept in a segment, in one of its parts or in any. */
  predicate IsIn(f: Fate, tracks: seq<Track>, segment: nat, part: Option<nat>) {
    f.track < |tracks| && f.segment == segment && f.part.Some? && (part.None? || f.part == part)
  }

  /** The latest end of the samples that were kept in a segment or part, or a lower bound. */
  function LatestEnd(log: seq<Fate>, tracks: seq<Track>, segment: nat, part: Option<nat>, bound: int): int
    requires ValidTracks(tracks)
  {
    if log == [] then bound
    else
      var f := log[|log| - 1];
      var rest := LatestEnd(log[..|log| - 1], tracks, segment, part, bound);
      if IsIn(f, tracks, segment, part) then Max(rest, End(tracks[f.track], f.sample)) else rest
  }

  /** It is the maximum: no kept sample ends later, and one ends then unless nothing does after the bound. */
  lemma {:induction false} LatestEndIsMaximum(
    log: seq<Fate>, tracks: seq<Track>, segment: nat, part: Option<nat>, bound: int)
    requires ValidTracks(tracks)
    ensures var e := LatestEnd(log, tracks, segment, part, bound);
            && e >= bound
            && (forall k :: 0 <= k < |log| && IsIn(log[k], tracks, segment, part) ==>
                End(tracks[log[k].track], log[k].sample) <= e)
            && (e == bound ||
                exists k :: 0 <= k < |log| && IsIn(log[k], tracks, segment, part) &&
                  End(tracks[log[k].track], log[k].sample) == e)
    decreases |log|
  {
    if log != [] {
      var n := |log| - 1;
      LatestEndIsMaximum(log[..n], tracks, segment, part, bound);
      assert forall k :: 0 <= k < n ==> log[..n][k] == log[k];
      var e, rest := LatestEnd(log, tracks, segment, part, bound), LatestEnd(log[..n], tracks, segment, part, bound);
      if e != bound {
        if e == rest {
          var k :| 0 <= k < n && IsIn(log[..n][k], tracks, segment, part) &&
                   End(tracks[log[..n][k].track], log[..n][k].sample) == rest;
          assert IsIn(log[k], tracks, segment, part);
        } else {
          assert IsIn(log[n], tracks, segment, part);
        }
      }
    }
  }

  lemma {:induction false} LatestEndSnoc(
    log: seq<Fate>, f: Fate, tracks: seq<Track>, segment: nat, part: Option<nat>, bound: int)
    requires ValidTracks(tracks)
    ensures LatestEnd(log + [f], tracks, segment, part, bound) ==
            var rest := LatestEnd(log, tracks, segment, part, bound);
            if IsIn(f, tracks, segment, part) then Max(rest, End(tracks[f.track], f.sample)) else rest
  {
    assert (log + [f])[..|log|] == log;
  }

  /** The clocks of the tracks matter, not their pending samples. */
  lemma {:induction false} SameEnds(
    log: seq<Fate>, tracks: seq<Track>, other: seq<Track>, segment: nat, part: Option<nat>, bound: int)
    requires ValidTracks(tracks) && ValidTracks(other) && |other| == |tracks|
    requires forall j :: 0 <= j < |tracks| ==> other[j].timeScale == tracks[j].timeScale
    ensures LatestEnd(log, other, segment, part, bound) == LatestEnd(log, tracks, segment, part, bound)
    decreases |log|
  {
    if log != [] {
      SameEnds(log[..|log| - 1], tracks, other, segment, part, bound);
    }
  }

  lemma {:induction false} NothingIn(log: seq<Fate>, tracks: seq<Track>, segment: nat, part: Option<nat>, bound: int)
    requires ValidTracks(tracks) && forall k :: 0 <= k < |log| ==> !IsIn(log[k], tracks, segment, part)
    ensures LatestEnd(log, tracks, segment, part, bound) == bound
    decreases |log|
  {
    if log != [] {
      NothingIn(log[..|log| - 1], tracks, segment, part, bound);
    }
  }

  // parts

  /** The end of each part is the latest end of its samples, or time zero, and all parts but the last one
      have reached the part duration. */
  predicate PartsLast(log: seq<Fate>, tracks: seq<Track>, segment: nat, parts: seq<Part>, partDuration: int)
    requires ValidTracks(tracks)
  {
    && (forall n :: 0 <= n < |parts| ==> PartEndsRight(log, tracks, segment, parts[n]))
    && (forall n :: 0 <= n < |parts| - 1 ==> parts[n].endDTS - parts[n].startDTS >= partDuration)
  }

  predicate PartEndsRight(log: seq<Fate>, tracks: seq<Track>, segment: nat, p: Part)
    requires ValidTracks(tracks)
  {
    p.endDTS == LatestEnd(log, tracks, segment, Some(p.number), 0)
  }

  predicate SegmentLasts(log: seq<Fate>, tracks: seq<Track>, g: Segment, c: Settings)
    requires ValidTracks(tracks)
  {
    && g.endDTS == LatestEnd(log, tracks, g.number, None, g.startDTS)
    && (g.curPart.None? ==> g.written == [])
    && PartsLast(log, tracks, g.number, AllParts(g), c.partDuration)
  }

  predicate FileLasts(log: seq<Fate>, tracks: seq<Track>, f: File, c: Settings)
    requires ValidTracks(tracks)
  {
    && f.duration == LatestEnd(log, tracks, f.number, None, f.startDTS) - f.startDTS
    && PartsLast(log, tracks, f.number, f.parts, c.partDuration)
  }

  predicate DurationsAreRight(s: State, c: Settings)
    requires ValidTracks(s.tracks)
  {
    && (forall n :: 0 <= n < |s.files| ==> FileLasts(s.log, s.tracks, s.files[n], c))
    && (s.segment.Some? ==> SegmentLasts(s.log, s.tracks, s.segment.value, c))
  }

  lemma {:induction false} PartsLastOnOtherTracks(
    log: seq<Fate>, tracks: seq<Track>, other: seq<Track>, segment: nat, parts: seq<Part>, partDuration: int)
    requires ValidTracks(tracks) && ValidTracks(other) && |other| == |tracks|
    requires forall j :: 0 <= j < |tracks| ==> other[j].timeScale == tracks[j].timeScale
    requires PartsLast(log, tracks, segment, parts, partDuration)
    ensures PartsLast(log, other, segment, parts, partDuration)
  {
    forall n | 0 <= n < |parts| ensures PartEndsRight(log, other, segment, parts[n]) {
      assert PartEndsRight(log, tracks, segment, parts[n]);
      SameEnds(log, tracks, other, segment, Some(parts[n].number), 0);
    }
  }

  lemma {:induction false} AcceptKeepsDurations(s: State, i: nat, sample: Sample, c: Settings)
    requires ValidTracks(s.tracks) && i < |s.tracks| && DurationsAreRight(s, c)
    ensures DurationsAreRight(Accept(s, i, sample).0, c)
  {
    var t := Accept(s, i, sample).0;
    assert forall j :: 0 <= j < |s.tracks| ==> t.tracks[j].timeScale == s.tracks[j].timeScale;
    forall n | 0 <= n < |t.files| ensures FileLasts(t.log, t.tracks, t.files[n], c) {
      var f := s.files[n];
      SameEnds(s.log, s.tracks, t.tracks, f.number, None, f.startDTS);
      PartsLastOnOtherTracks(s.log, s.tracks, t.tracks, f.number, f.parts, c.partDuration);
    }
    if s.segment.Some? {
      var g := s.segment.value;
      SameEnds(s.log, s.tracks, t.tracks, g.number, None, g.startDTS);
      PartsLastOnOtherTracks(s.log, s.tracks, t.tracks, g.number, AllParts(g), c.partDuration);
    }
  }

  /** A new entry does not concern the parts that it does not go to. */
  lemma {:induction false} PartsStayLong(
    log: seq<Fate>, f: Fate, tracks: seq<Track>, segment: nat, parts: seq<Part>, partDuration: int)
    requires ValidTracks(tracks) && PartsLast(log, tracks, segment, parts, partDuration)
    requires forall n :: 0 <= n < |parts| ==> !IsIn(f, tracks, segment, Some(parts[n].number))
    ensures PartsLast(log + [f], tracks, segment, parts, partDuration)
  {
    forall n | 0 <= n < |parts| ensures PartEndsRight(log + [f], tracks, segment, parts[n]) {
      LatestEndSnoc(log, f, tracks, segment, Some(parts[n].number), 0);
    }
  }

  lemma {:induction false} FilesStayLong(s: State, f: Fate, c: Settings)
    requires ValidTracks(s.tracks) && DurationsAreRight(s, c)
    requires forall n :: 0 <= n < |s.files| ==> s.files[n].number == n
    requires f.part.None? || f.segment >= |s.files|
    ensures forall n :: 0 <= n < |s.files| ==> FileLasts(s.log + [f], s.tracks, s.files[n], c)
  {
    forall n | 0 <= n < |s.files| ensures FileLasts(s.log + [f], s.tracks, s.files[n], c) {
      LatestEndSnoc(s.log, f, s.tracks, n, None, s.files[n].startDTS);
      PartsStayLong(s.log, f, s.tracks, n, s.files[n].parts, c.partDuration);
    }
  }

  lemma {:induction false} FilesAreNumbered(s: State, c: Settings)
    requires StorageIsRight(s, c)
    ensures forall n :: 0 <= n < |s.files| ==> s.files[n].number == n
  {
    forall n | 0 <= n < |s.files| ensures s.files[n].number == n {
      assert FileIsRight(s, n, c);
    }
  }

  /** A late sample does not make anything last longer. */
  lemma {:induction false} LateKeepsDurations(s: State, i: nat, sample: Sample, c: Settings)
    requires StorageIsRight(s, c) && DurationsAreRight(s, c) && s.segment.Some?
    ensures DurationsAreRight(s.(log := s.log + [Fate(i, sample, s.segment.value.number, None)]), c)
  {
    var f, g := Fate(i, sample, s.segment.value.number, None), s.segment.value;
    FilesAreNumbered(s, c);
    FilesStayLong(s, f, c);
    LatestEndSnoc(s.log, f, s.tracks, g.number, None, g.startDTS);
    PartsStayLong(s.log, f, s.tracks, g.number, AllParts(g), c.partDuration);
  }

  /** A part that is added to a segment comes after a full one. */
  lemma {:induction false} PrepareLasts(s: State, dts: int, c: Settings)
    requires StorageIsRight(s, c) && DurationsAreRight(s, c) && s.segment.Some?
    ensures var g := PreparePart(s.segment.value, dts, c.partDuration);
            PartsLast(s.log, s.tracks, g.number, AllParts(g), c.partDuration) && g.curPart.Some?
  {
    var h := s.segment.value;
    var g, p := PreparePart(h, dts, c.partDuration), NewPart(h.nextPartNumber, dts);
    forall k | 0 <= k < |s.log| ensures !IsIn(s.log[k], s.tracks, h.number, Some(h.nextPartNumber)) {
      assert FateIsRight(s, s.log[k]);
    }
    NothingIn(s.log, s.tracks, h.number, Some(h.nextPartNumber), 0);
    assert PartEndsRight(s.log, s.tracks, h.number, p);
    if h.curPart.None? {
      assert AllParts(g) == [p];
    } else if h.curPart.value.endDTS - h.curPart.value.startDTS >= c.partDuration {
      assert AllParts(g) == AllParts(h) + [p];
      assert AllParts(h)[|h.written|] == h.curPart.value;
    }
  }

  /** The current part takes a sample. */
  lemma {:induction false} CurrentLasts(
    log: seq<Fate>, tracks: seq<Track>, g: Segment, i: nat, sample: Sample, q: Part, c: Settings)
    requires ValidTracks(tracks) && i < |tracks| && g.curPart.Some?
    requires PartsLast(log, tracks, g.number, AllParts(g), c.partDuration)
    requires forall n :: 0 <= n < |AllParts(g)| ==> AllParts(g)[n].number == n
    requires q.number == g.curPart.value.number && q.endDTS == Max(g.curPart.value.endDTS, End(tracks[i], sample))
    ensures PartsLast(log + [Fate(i, sample, g.number, Some(q.number))], tracks, g.number,
                      AllParts(g.(curPart := Some(q))), c.partDuration)
  {
    var f, h := Fate(i, sample, g.number, Some(q.number)), g.(curPart := Some(q));
    var last := |g.written|;
    assert AllParts(g)[last] == g.curPart.value;
    assert forall n :: 0 <= n < last ==> AllParts(h)[n] == g.written[n] == AllParts(g)[n];
    forall n | 0 <= n < |AllParts(h)| ensures PartEndsRight(log + [f], tracks, g.number, AllParts(h)[n]) {
      assert PartEndsRight(log, tracks, g.number, AllParts(g)[n]);
      LatestEndSnoc(log, f, tracks, g.number, Some(n), 0);
    }
  }

  lemma {:induction false} KeepLasts(s: State, i: nat, sample: Sample, c: Settings)
    requires StorageIsRight(s, c) && DurationsAreRight(s, c) && s.segment.Some? && i < |s.tracks| && !s.failed
    requires Dts(s.tracks[i], sample.dts) >= s.segment.value.startDTS
    ensures !Keep(s, i, sample, c).failed ==> DurationsAreRight(Keep(s, i, sample, c), c)
  {
    var t := Keep(s, i, sample, c);
    if !t.failed {
      var track, dts := s.tracks[i], Dts(s.tracks[i], sample.dts);
      var g0 := s.segment.value;
      var g1 := g0.(endDTS := Max(g0.endDTS, dts + Dts(track, sample.duration)));
      var g2 := PreparePart(g1, dts, c.partDuration);
      PreparedLasts(s, g1.endDTS, dts, c);
      FilesAreNumbered(s, c);
      var q := PartWrite(g2.curPart.value, i, track, sample, dts, g2.startDTS, c.maxPartSize).value;
      CurrentLasts(s.log, s.tracks, g2, i, sample, q, c);
      FilesStayLong(s, Fate(i, sample, g0.number, Some(q.number)), c);
      LatestEndSnoc(s.log, Fate(i, sample, g0.number, Some(q.number)), s.tracks, g0.number, None, g0.startDTS);
    }
  }

  lemma {:induction false} PreparedLasts(s: State, endDTS: int, dts: int, c: Settings)
    requires StorageIsRight(s, c) && DurationsAreRight(s, c) && s.segment.Some?
    ensures var g := PreparePart(s.segment.value.(endDTS := endDTS), dts, c.partDuration);
            && PartsLast(s.log, s.tracks, g.number, AllParts(g), c.partDuration) && g.curPart.Some?
            && g.number == s.segment.value.number && g.endDTS == endDTS && g.startDTS == s.segment.value.startDTS
            && forall n :: 0 <= n < |AllParts(g)| ==> AllParts(g)[n].number == n
  {
    PrepareLasts(s, dts, c);
    PreparePartIsRight(s, endDTS, dts, c);
    var g, h := PreparePart(s.segment.value, dts, c.partDuration),
      PreparePart(s.segment.value.(endDTS := endDTS), dts, c.partDuration);
    assert AllParts(h) == AllParts(g);
    assert SegmentIsRight(s.(segment := Some(h)), h, c);
  }

  lemma {:induction false} SwitchLasts(s: State, c: Settings)
    requires StorageIsRight(s, c) && DurationsAreRight(s, c) && s.segment.Some? && AllParts(s.segment.value) != []
    ensures DurationsAreRight(Switch(s), c)
  {
    var g, t := s.segment.value, Switch(s);
    assert CloseCurPart(g).written == AllParts(g);
    forall k | 0 <= k < |s.log| ensures !IsIn(s.log[k], s.tracks, t.segment.value.number, None) {
      assert FateIsRight(s, s.log[k]);
    }
    NothingIn(s.log, s.tracks, t.segment.value.number, None, t.segment.value.startDTS);
  }

  lemma {:induction false} StoreLasts(s: State, i: nat, sample: Sample, c: Settings)
    requires StorageIsRight(s, c) && DurationsAreRight(s, c) && i < |s.tracks| && s.tracks[i].next.Some? && !s.failed
    ensures !Store(s, i, sample, c).failed ==> DurationsAreRight(Store(s, i, sample, c), c)
  {
    var dts := Dts(s.tracks[i], sample.dts);
    if s.segment.Some? && dts < s.segment.value.startDTS {
      LateKeepsDurations(s, i, sample, c);
    } else {
      var u := if s.segment.None? then OpenSegment(s, dts, sample.ntp) else s;
      if s.segment.None? {
        OpenSegmentIsRight(s, dts, sample.ntp, c);
        assert s.log == [];
      }
      KeepLasts(u, i, sample, c);
      KeepKeepsRight(u, i, sample, c);
      var v := Keep(u, i, sample, c);
      if !v.failed && MustSwitch(v, i, c) {
        SwitchLasts(v, c);
      }
    }
  }

  /** In every recording that has not failed, the duration of a file is the time from its start to the latest
      end of the samples in it, each part ends with the latest of its samples, or at time zero, and only the
      last part of a file can be shorter than the part duration. */
  lemma {:induction false} RecordingLasts(tracks: seq<Track>, inputs: seq<Input>, c: Settings)
    requires ValidInputs(tracks, inputs) && !Record(tracks, inputs, c).failed
    ensures DurationsAreRight(Record(tracks, inputs, c), c)
    decreases |inputs|
  {
    if inputs != [] {
      var before, x := inputs[..|inputs| - 1], inputs[|inputs| - 1];
      RecordingLasts(tracks, before, c);
      RecordingIsRight(tracks, before, c);
      var s := Record(tracks, before, c);
      AcceptIsRight(s, x.track, x.sample, c);
      AcceptKeepsDurations(s, x.track, x.sample, c);
      var (u, known) := Accept(s, x.track, x.sample);
      if known.Some? {
        StoreLasts(u, x.track, known.value, c);
      }
    }
  }
}
