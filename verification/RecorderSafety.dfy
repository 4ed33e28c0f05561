/** What the recorder keeps over every run: no sample is lost, duplicated or reordered, base times
    are never negative, parts never grow too big, and segments are numbered without gaps. */
module RecorderSafety {
  import opened Options
  import opened Rounding
  import opened RecorderModel

  /** The samples that ended up in one part of one segment, for one track, in order. */
  function InPart(log: seq<Fate>, i: nat, segment: nat, part: nat): seq<Sample> {
    if log == [] then []
    else
      var f := log[|log| - 1];
      InPart(log[..|log| - 1], i, segment, part) +
      (if f.track == i && f.segment == segment && f.part == Some(part) then [f.sample] else [])
  }

  /** The payload bytes of one part. */
  function PartSize(log: seq<Fate>, segment: nat, part: nat): nat {
    if log == [] then 0
    else
      var f := log[|log| - 1];
      PartSize(log[..|log| - 1], segment, part) +
      (if f.segment == segment && f.part == Some(part) then |f.sample.payload| else 0)
  }

  /** Everything that became of the samples of one track, in order. */
  function OfTrack(log: seq<Fate>, i: nat): seq<Fate> {
    if log == [] then []
    else
      var f := log[|log| - 1];
      OfTrack(log[..|log| - 1], i) + (if f.track == i then [f] else [])
  }

  lemma {:induction false} Snoc(log: seq<Fate>, f: Fate, i: nat, segment: nat, part: nat)
    ensures InPart(log + [f], i, segment, part) ==
            InPart(log, i, segment, part) +
            (if f.track == i && f.segment == segment && f.part == Some(part) then [f.sample] else [])
    ensures PartSize(log + [f], segment, part) ==
            PartSize(log, segment, part) +
              (if f.segment == segment && f.part == Some(part) then |f.sample.payload| else 0)
    ensures OfTrack(log + [f], i) == OfTrack(log, i) + (if f.track == i then [f] else [])
  {
    assert (log + [f])[..|log|] == log;
  }

  // parts

  /** A part holds exactly the samples that the log says, its base times come from the first of them
      and are not negative, and its size is within the limit. */
  ghost predicate PartIsRight(
    log: seq<Fate>, tracks: seq<Track>, segment: nat, segmentStart: int, p: Part, maxPartSize: nat)
    requires ValidTracks(tracks)
  {
    && p.size == PartSize(log, segment, p.number) <= maxPartSize
    && (forall i :: i in p.tracks ==> i < |tracks| && TrackIsRight(log, tracks[i], i, segment, segmentStart, p))
    && (forall i: nat :: i !in p.tracks ==> InPart(log, i, segment, p.number) == [])
  }

  ghost predicate TrackIsRight(log: seq<Fate>, track: Track, i: nat, segment: nat, segmentStart: int, p: Part)
    requires track.timeScale > 0 && i in p.tracks
  {
    var pt := p.tracks[i];
    && pt.samples != [] && pt.samples == InPart(log, i, segment, p.number)
    && pt.id == track.id
    && Dts(track, pt.samples[0].dts) >= segmentStart
    && pt.baseTime == BaseTime(track, Dts(track, pt.samples[0].dts), segmentStart)
    && pt.baseTime >= 0
  }

  /** Numbered parts of one segment. */
  ghost predicate PartsAreRight(
    log: seq<Fate>, tracks: seq<Track>, segment: nat, segmentStart: int, parts: seq<Part>, maxPartSize: nat)
    requires ValidTracks(tracks)
  {
    forall n :: 0 <= n < |parts| ==>
                  parts[n].number == n && PartIsRight(log, tracks, segment, segmentStart, parts[n], maxPartSize)
  }

  function AllParts(g: Segment): seq<Part> {
    g.written + (if g.curPart.Some? then [g.curPart.value] else [])
  }

  ghost predicate SegmentIsRight(s: State, g: Segment, c: Settings)
    requires ValidTracks(s.tracks)
  {
    && g.nextPartNumber == |AllParts(g)|
    && PartsAreRight(s.log, s.tracks, g.number, g.startDTS, AllParts(g), c.maxPartSize)
  }

  ghost predicate FileIsRight(s: State, n: nat, c: Settings)
    requires ValidTracks(s.tracks) && n < |s.files|
  {
    var f := s.files[n];
    && f.number == n && f.parts != []
    && PartsAreRight(s.log, s.tracks, n, f.startDTS, f.parts, c.maxPartSize)
  }

  /** Where segment n starts. */
  function SegmentStart(s: State, n: nat): Option<int> {
    if n < |s.files| then Some(s.files[n].startDTS)
    else if s.segment.Some? && s.segment.value.number == n then Some(s.segment.value.startDTS)
    else None
  }

  /** How many parts segment n has so far. */
  function PartCount(s: State, n: nat): nat {
    if n < |s.files| then |s.files[n].parts|
    else if s.segment.Some? && s.segment.value.number == n then |AllParts(s.segment.value)|
    else 0
  }

  /** A logged sample was kept if and only if it was not older than its segment, and then in a part
      that exists. */
  ghost predicate FateIsRight(s: State, f: Fate)
    requires ValidTracks(s.tracks)
  {
    && f.track < |s.tracks|
    && SegmentStart(s, f.segment).Some?
    && (f.part.Some? <==> Dts(s.tracks[f.track], f.sample.dts) >= SegmentStart(s, f.segment).value)
    && (f.part.Some? ==> f.part.value < PartCount(s, f.segment))
  }

  ghost predicate NumbersAreRight(s: State) {
    match s.segment
    case None => s.files == [] && s.nextSegmentNumber == 0 && s.log == []
    case Some(g) => g.number == |s.files| && s.nextSegmentNumber == |s.files| + 1
  }

  ghost predicate StorageIsRight(s: State, c: Settings) {
    && ValidTracks(s.tracks)
    && NumbersAreRight(s)
    && (forall n :: 0 <= n < |s.files| ==> FileIsRight(s, n, c))
    && (s.segment.Some? ==> SegmentIsRight(s, s.segment.value, c))
    && (forall k :: 0 <= k < |s.log| ==> FateIsRight(s, s.log[k]))
  }

  // how storing one sample changes what is in parts

  /** Nothing is in a part that does not exist yet. */
  lemma {:induction false} FuturePartIsEmpty(log: seq<Fate>, segment: nat, part: nat)
    requires forall k :: 0 <= k < |log| ==> log[k].segment == segment && log[k].part.Some? ==> log[k].part.value < part
    ensures PartSize(log, segment, part) == 0
    ensures forall i: nat :: InPart(log, i, segment, part) == []
  {
    if log != [] {
      FuturePartIsEmpty(log[..|log| - 1], segment, part);
    }
  }

  /** A new entry does not disturb a part it does not go to. */
  lemma {:induction false} OtherPartStaysRight(
    log: seq<Fate>, f: Fate, tracks: seq<Track>, segment: nat, segmentStart: int, p: Part, maxPartSize: nat)
    requires ValidTracks(tracks) && PartIsRight(log, tracks, segment, segmentStart, p, maxPartSize)
    requires f.segment != segment || f.part != Some(p.number)
    ensures PartIsRight(log + [f], tracks, segment, segmentStart, p, maxPartSize)
  {
    Snoc(log, f, 0, segment, p.number);
    forall i: nat ensures InPart(log + [f], i, segment, p.number) == InPart(log, i, segment, p.number) {
      Snoc(log, f, i, segment, p.number);
    }
  }

  lemma {:induction false} BaseTimeNotNegative(track: Track, dts: int, segmentStart: int)
    requires track.timeScale > 0 && dts >= segmentStart
    ensures BaseTime(track, dts, segmentStart) >= 0
  {
    MultiplyAndDivideMonotone(0, dts - segmentStart, track.timeScale, SECOND);
    MultiplyAndDivideExact(0, track.timeScale, SECOND);
  }

  /** The part that takes a sample has it afterwards, behind everything it had before. */
  lemma {:induction false} PartWriteIsRight(
    log: seq<Fate>, tracks: seq<Track>, segment: nat, segmentStart: int, p: Part, i: nat, sample: Sample,
    maxPartSize: nat)
    requires ValidTracks(tracks) && i < |tracks| && PartIsRight(log, tracks, segment, segmentStart, p, maxPartSize)
    requires Dts(tracks[i], sample.dts) >= segmentStart
    ensures var q := PartWrite(p, i, tracks[i], sample, Dts(tracks[i], sample.dts), segmentStart, maxPartSize);
            q.Some? ==>
              q.value.number == p.number &&
              PartIsRight(log + [Fate(i, sample, segment, Some(p.number))], tracks, segment, segmentStart, q.value,
                          maxPartSize)
  {
    var dts := Dts(tracks[i], sample.dts);
    var r := PartWrite(p, i, tracks[i], sample, dts, segmentStart, maxPartSize);
    if r.Some? {
      var q, f := r.value, Fate(i, sample, segment, Some(p.number));
      BaseTimeNotNegative(tracks[i], dts, segmentStart);
      Snoc(log, f, i, segment, p.number);
      forall j | j in q.tracks ensures j < |tracks| && TrackIsRight(log + [f], tracks[j], j, segment, segmentStart, q) {
        Snoc(log, f, j, segment, p.number);
      }
      forall j: nat | j !in q.tracks ensures InPart(log + [f], j, segment, p.number) == [] {
        Snoc(log, f, j, segment, p.number);
      }
    }
  }

  lemma {:induction false} OtherPartsStayRight(
    log: seq<Fate>, f: Fate, tracks: seq<Track>, segment: nat, segmentStart: int, parts: seq<Part>, maxPartSize: nat)
    requires ValidTracks(tracks) && PartsAreRight(log, tracks, segment, segmentStart, parts, maxPartSize)
    requires f.segment == segment && f.part.Some? ==> f.part.value >= |parts|
    ensures PartsAreRight(log + [f], tracks, segment, segmentStart, parts, maxPartSize)
  {
    forall n | 0 <= n < |parts|
      ensures parts[n].number == n && PartIsRight(log + [f], tracks, segment, segmentStart, parts[n], maxPartSize)
    {
      OtherPartStaysRight(log, f, tracks, segment, segmentStart, parts[n], maxPartSize);
    }
  }

  lemma {:induction false} FilesStayRight(s: State, f: Fate, c: Settings)
    requires ValidTracks(s.tracks) && forall n :: 0 <= n < |s.files| ==> FileIsRight(s, n, c)
    requires f.segment >= |s.files| || f.part.None?
    ensures forall n :: 0 <= n < |s.files| ==> FileIsRight(s.(log := s.log + [f]), n, c)
  {
    forall n | 0 <= n < |s.files| ensures FileIsRight(s.(log := s.log + [f]), n, c) {
      assert FileIsRight(s, n, c);
      OtherPartsStayRight(s.log, f, s.tracks, n, s.files[n].startDTS, s.files[n].parts, c.maxPartSize);
    }
  }

  lemma {:induction false} LateIsRight(s: State, i: nat, sample: Sample, c: Settings)
    requires StorageIsRight(s, c) && s.segment.Some? && i < |s.tracks|
    requires Dts(s.tracks[i], sample.dts) < s.segment.value.startDTS
    ensures StorageIsRight(s.(log := s.log + [Fate(i, sample, s.segment.value.number, None)]), c)
  {
    var f, g := Fate(i, sample, s.segment.value.number, None), s.segment.value;
    var t := s.(log := s.log + [f]);
    FilesStayRight(s, f, c);
    OtherPartsStayRight(s.log, f, s.tracks, g.number, g.startDTS, AllParts(g), c.maxPartSize);
    forall k | 0 <= k < |t.log| ensures FateIsRight(t, t.log[k]) {
      assert k < |s.log| ==> FateIsRight(s, s.log[k]);
    }
  }

  /** A part with the next number can be added to a segment. */
  lemma {:induction false} EmptyPartIsRight(s: State, dts: int, c: Settings)
    requires StorageIsRight(s, c) && s.segment.Some?
    ensures var g := s.segment.value;
            PartIsRight(s.log, s.tracks, g.number, g.startDTS, NewPart(g.nextPartNumber, dts), c.maxPartSize)
  {
    var g := s.segment.value;
    forall k | 0 <= k < |s.log|
      ensures s.log[k].segment == g.number && s.log[k].part.Some? ==> s.log[k].part.value < g.nextPartNumber
    {
      assert FateIsRight(s, s.log[k]);
    }
    FuturePartIsEmpty(s.log, g.number, g.nextPartNumber);
  }

  /** Replacing the segment keeps the storage right when its parts are right and none disappears. */
  lemma {:induction false} SegmentReplaced(s: State, g: Segment, c: Settings)
    requires StorageIsRight(s, c) && s.segment.Some? && SegmentIsRight(s, g, c)
    requires g.number == s.segment.value.number && g.startDTS == s.segment.value.startDTS
    requires |AllParts(g)| >= |AllParts(s.segment.value)|
    ensures StorageIsRight(s.(segment := Some(g)), c)
  {
    var t := s.(segment := Some(g));
    forall k | 0 <= k < |t.log| ensures FateIsRight(t, t.log[k]) {
      assert FateIsRight(s, s.log[k]);
    }
    forall n | 0 <= n < |t.files| ensures FileIsRight(t, n, c) {
      assert FileIsRight(s, n, c);
    }
  }

  lemma {:induction false} PreparePartIsRight(s: State, endDTS: int, dts: int, c: Settings)
    requires StorageIsRight(s, c) && s.segment.Some?
    ensures var g := PreparePart(s.segment.value.(endDTS := endDTS), dts, c.partDuration);
            && g.curPart.Some? && g.number == s.segment.value.number && g.startDTS == s.segment.value.startDTS
            && g.curPart.value.number == |g.written|
            && StorageIsRight(s.(segment := Some(g)), c)
  {
    var h := s.segment.value.(endDTS := endDTS);
    var g := PreparePart(h, dts, c.partDuration);
    EmptyPartIsRight(s, dts, c);
    assert AllParts(g) == AllParts(h) || AllParts(g) == AllParts(h) + [NewPart(h.nextPartNumber, dts)];
    assert AllParts(g)[|g.written|] == g.curPart.value;
    SegmentReplaced(s, g, c);
  }

  /** Writing into the current part keeps everything right. */
  lemma {:induction false} KeepIsRight(s: State, i: nat, sample: Sample, c: Settings)
    requires StorageIsRight(s, c) && s.segment.Some? && i < |s.tracks|
    requires s.segment.value.curPart.Some? && s.segment.value.curPart.value.number == |s.segment.value.written|
    requires Dts(s.tracks[i], sample.dts) >= s.segment.value.startDTS
    ensures var g := s.segment.value;
            var r := PartWrite(g.curPart.value, i, s.tracks[i], sample, Dts(s.tracks[i], sample.dts), g.startDTS,
                               c.maxPartSize);
            r.Some? ==>
              StorageIsRight(s.(segment := Some(g.(curPart := r)),
                                log := s.log + [Fate(i, sample, g.number, Some(r.value.number))]), c)
  {
    var g := s.segment.value;
    var p := g.curPart.value;
    var r := PartWrite(p, i, s.tracks[i], sample, Dts(s.tracks[i], sample.dts), g.startDTS, c.maxPartSize);
    assert AllParts(g)[p.number] == p;
    PartWriteIsRight(s.log, s.tracks, g.number, g.startDTS, p, i, sample, c.maxPartSize);
    if r.Some? {
      var f, h := Fate(i, sample, g.number, Some(p.number)), g.(curPart := r);
      var t := s.(segment := Some(h), log := s.log + [f]);
      FilesStayRight(s, f, c);
      assert forall n :: 0 <= n < |g.written| ==> g.written[n] == AllParts(g)[n];
      OtherPartsStayRight(s.log, f, s.tracks, g.number, g.startDTS, g.written, c.maxPartSize);
      assert SegmentIsRight(t, h, c) by {
        assert forall n :: 0 <= n < |AllParts(h)| ==> AllParts(h)[n] == if n < |g.written| then g.written[n]
               else r.value;
      }
      forall n | 0 <= n < |t.files| ensures FileIsRight(t, n, c) {
        assert FileIsRight(s.(log := s.log + [f]), n, c);
      }
      forall k | 0 <= k < |t.log| ensures FateIsRight(t, t.log[k]) {
        assert k < |s.log| ==> FateIsRight(s, s.log[k]);
      }
    }
  }

  /** Switching turns the segment into the next file and starts an empty one. */
  lemma {:induction false} SwitchIsRight(s: State, c: Settings)
    requires StorageIsRight(s, c) && s.segment.Some? && AllParts(s.segment.value) != []
    ensures StorageIsRight(Switch(s), c)
    ensures |Switch(s).files| == |s.files| + 1
  {
    var g, t := s.segment.value, Switch(s);
    assert CloseCurPart(g).written == AllParts(g);
    forall n | 0 <= n < |t.files| ensures FileIsRight(t, n, c) {
      if n < |s.files| {
        assert FileIsRight(s, n, c);
      }
    }
    forall k | 0 <= k < |t.log| ensures FateIsRight(t, t.log[k]) {
      assert FateIsRight(s, s.log[k]);
    }
  }

  lemma {:induction false} OpenSegmentIsRight(s: State, startDTS: int, startNTP: int, c: Settings)
    requires StorageIsRight(s, c) && s.segment.None?
    ensures StorageIsRight(OpenSegment(s, startDTS, startNTP), c)
  {
  }

  lemma {:induction false} KeepKeepsRight(u: State, i: nat, sample: Sample, c: Settings)
    requires StorageIsRight(u, c) && i < |u.tracks| && u.segment.Some?
    requires Dts(u.tracks[i], sample.dts) >= u.segment.value.startDTS
    ensures StorageIsRight(Keep(u, i, sample, c), c) && Keep(u, i, sample, c).segment.Some?
    ensures AllParts(Keep(u, i, sample, c).segment.value) != []
  {
    var t := u.tracks[i];
    var dts := Dts(t, sample.dts);
    var endDTS := Max(u.segment.value.endDTS, dts + Dts(t, sample.duration));
    PreparePartIsRight(u, endDTS, dts, c);
    var g := PreparePart(u.segment.value.(endDTS := endDTS), dts, c.partDuration);
    KeepIsRight(u.(segment := Some(g)), i, sample, c);
    FailedIsRight(u.(segment := Some(g)), c);
  }

  lemma {:induction false} StoreIsRight(s: State, i: nat, sample: Sample, c: Settings)
    requires StorageIsRight(s, c) && i < |s.tracks| && s.tracks[i].next.Some?
    ensures StorageIsRight(Store(s, i, sample, c), c)
  {
    var dts := Dts(s.tracks[i], sample.dts);
    if s.segment.Some? && dts < s.segment.value.startDTS {
      LateIsRight(s, i, sample, c);
    } else {
      var u := if s.segment.None? then OpenSegment(s, dts, sample.ntp) else s;
      if s.segment.None? {
        OpenSegmentIsRight(s, dts, sample.ntp, c);
      }
      KeepKeepsRight(u, i, sample, c);
      var v := Keep(u, i, sample, c);
      if !v.failed && MustSwitch(v, i, c) {
        SwitchIsRight(v, c);
      }
    }
  }

  lemma {:induction false} FailedIsRight(s: State, c: Settings)
    requires StorageIsRight(s, c)
    ensures StorageIsRight(s.(failed := true), c)
  {
    var t := s.(failed := true);
    forall n | 0 <= n < |t.files| ensures FileIsRight(t, n, c) {
      assert FileIsRight(s, n, c);
    }
    forall k | 0 <= k < |t.log| ensures FateIsRight(t, t.log[k]) {
      assert FateIsRight(s, s.log[k]);
    }
  }

  /** Pending samples and the video flag do not matter to what has been stored. */
  lemma {:induction false} AcceptIsRight(s: State, i: nat, sample: Sample, c: Settings)
    requires StorageIsRight(s, c) && i < |s.tracks|
    ensures StorageIsRight(Accept(s, i, sample).0, c)
  {
    var t := Accept(s, i, sample).0;
    assert forall j :: 0 <= j < |s.tracks| ==>
           t.tracks[j].id == s.tracks[j].id && t.tracks[j].timeScale == s.tracks[j].timeScale;
    forall n | 0 <= n < |t.files| ensures FileIsRight(t, n, c) {
      assert FileIsRight(s, n, c);
      SameClocks(s.log, s.tracks, t.tracks, n, s.files[n].startDTS, s.files[n].parts, c.maxPartSize);
    }
    if s.segment.Some? {
      var g := s.segment.value;
      SameClocks(s.log, s.tracks, t.tracks, g.number, g.startDTS, AllParts(g), c.maxPartSize);
    }
    forall k | 0 <= k < |t.log| ensures FateIsRight(t, t.log[k]) {
      assert FateIsRight(s, s.log[k]);
    }
  }

  lemma {:induction false} SameClocks(
    log: seq<Fate>, tracks: seq<Track>, other: seq<Track>, segment: nat, segmentStart: int, parts: seq<Part>,
    maxPartSize: nat)
    requires ValidTracks(tracks) && |other| == |tracks|
    requires forall j :: 0 <= j < |tracks| ==> other[j].id == tracks[j].id && other[j].timeScale == tracks[j].timeScale
    requires PartsAreRight(log, tracks, segment, segmentStart, parts, maxPartSize)
    ensures ValidTracks(other) && PartsAreRight(log, other, segment, segmentStart, parts, maxPartSize)
  {
    forall n | 0 <= n < |parts|
      ensures parts[n].number == n && PartIsRight(log, other, segment, segmentStart, parts[n], maxPartSize)
    {
      var p := parts[n];
      assert PartIsRight(log, tracks, segment, segmentStart, p, maxPartSize);
      forall i | i in p.tracks ensures i < |other| && TrackIsRight(log, other[i], i, segment, segmentStart, p) {
        assert TrackIsRight(log, tracks[i], i, segment, segmentStart, p);
      }
    }
  }
}
