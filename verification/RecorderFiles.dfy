/** When a recording goes on in a new file, in a new part, or not at all, said in terms of the samples that were
    written. */
module RecorderFiles {
  import opened Options
  import opened Rounding
  import opened RecorderModel
  import opened RecorderSafety
  import opened RecorderRuns

  // one write

  /** The sample that track i has pending after it has been given another one. */
  function PendingAfter(s: State, i: nat, sample: Sample): Sample
    requires i < |s.tracks|
  {
    match s.tracks[i].next
    case None => sample
    case Some(previous) => if sample.dts < previous.dts then sample.(dts := previous.dts) else sample
  }

  /** Another sample of track i makes the pending one known, and that is not older than the segment. */
  predicate IsInTime(s: State, i: nat)
    requires ValidTracks(s.tracks) && i < |s.tracks|
  {
    && s.tracks[i].next.Some?
    && (s.segment.Some? ==> Dts(s.tracks[i], s.tracks[i].next.value.dts) >= s.segment.value.startDTS)
  }

  /** Where the segment starts that the known sample goes to. */
  function StartFor(s: State, i: nat): int
    requires ValidTracks(s.tracks) && i < |s.tracks| && s.tracks[i].next.Some?
  {
    if s.segment.Some? then s.segment.value.startDTS else Dts(s.tracks[i], s.tracks[i].next.value.dts)
  }

  /** The current part has not lasted for the part duration. */
  predicate PartGoesOn(s: State, c: Settings) {
    && s.segment.Some? && s.segment.value.curPart.Some?
    && s.segment.value.curPart.value.endDTS - s.segment.value.curPart.value.startDTS < c.partDuration
  }

  /** The payload in the part that takes the next sample. */
  function SizeSoFar(s: State, c: Settings): nat {
    if PartGoesOn(s, c) then s.segment.value.curPart.value.size else 0
  }

  lemma {:induction false} KeptSegment(g: Segment, i: nat, track: Track, sample: Sample, dts: int, c: Settings)
    requires track.timeScale > 0
    ensures var (h, ok) := SegmentWrite(g, i, track, sample, dts, c);
            var goesOn := g.curPart.Some? && g.curPart.value.endDTS - g.curPart.value.startDTS < c.partDuration;
            && (ok <==> (if goesOn then g.curPart.value.size else 0) + |sample.payload| <= c.maxPartSize)
            && h.number == g.number && h.startDTS == g.startDTS && h.startNTP == g.startNTP
            && h.curPart.Some?
            && h.curPart.value.number == (if goesOn then g.curPart.value.number else g.nextPartNumber)
            && h.curPart.value.startDTS == (if goesOn then g.curPart.value.startDTS else dts)
  {
  }

  /** A write fails if and only if the sample that it stores does not fit: into the current part, or, when that has
      lasted long enough, into an empty one. */
  lemma {:induction false} WriteFailsIff(s: State, i: nat, sample: Sample, c: Settings)
    requires ValidTracks(s.tracks) && i < |s.tracks| && !s.failed
    ensures Write(s, i, sample, c).failed <==>
            IsInTime(s, i) && SizeSoFar(s, c) + |s.tracks[i].next.value.payload| > c.maxPartSize
  {
    var (u, known) := Accept(s, i, sample);
    if IsInTime(s, i) {
      var dts := Dts(u.tracks[i], known.value.dts);
      var v := if u.segment.None? then OpenSegment(u, dts, known.value.ntp) else u;
      KeptSegment(v.segment.value, i, u.tracks[i], known.value, dts, c);
    }
  }

  /** The track has been given a sample, and everything else about the tracks stays. */
  lemma {:induction false} WriteTracks(s: State, i: nat, sample: Sample, c: Settings)
    requires ValidTracks(s.tracks) && i < |s.tracks|
    ensures var t := Write(s, i, sample, c);
            && t.tracks == s.tracks[i := s.tracks[i].(next := Some(PendingAfter(s, i, sample)))]
            && (t.hasVideo <==> s.hasVideo || s.tracks[i].video)
  {
    var (u, known) := Accept(s, i, sample);
    if known.Some? {
      StoreLogs(u, i, known.value, c);
      StoreKeepsVideo(u, i, known.value, c);
    }
  }

  lemma {:induction false} StoreKeepsVideo(s: State, i: nat, sample: Sample, c: Settings)
    requires ValidTracks(s.tracks) && i < |s.tracks| && s.tracks[i].next.Some?
    ensures Store(s, i, sample, c).hasVideo == s.hasVideo
  {
  }

  /** The pending sample of track i can begin a file after one that started then: it is a sync sample, at least the
      segment duration later, and if there is video, it is video. */
  predicate CanBegin(track: Track, pending: Sample, start: int, hasVideo: bool, c: Settings)
    requires track.timeScale > 0
  {
    && !pending.nonSync
    && Dts(track, pending.dts) >= start + c.segmentDuration
    && (hasVideo ==> track.video)
  }

  /** What keeping a sample leaves of the segment and the files. */
  lemma {:induction false} KeepSegment(u: State, i: nat, sample: Sample, c: Settings)
    requires StorageIsRight(u, c) && i < |u.tracks| && u.segment.Some?
    requires Dts(u.tracks[i], sample.dts) >= u.segment.value.startDTS
    ensures var v := Keep(u, i, sample, c);
            && v.segment.Some? && AllParts(v.segment.value) != []
            && v.segment.value.startDTS == u.segment.value.startDTS &&
               v.segment.value.startNTP == u.segment.value.startNTP
            && v.files == u.files && v.tracks == u.tracks && v.hasVideo == u.hasVideo
            && v.segment.value.number == u.segment.value.number && v.nextSegmentNumber == u.nextSegmentNumber
  {
    KeptSegment(u.segment.value, i, u.tracks[i], sample, Dts(u.tracks[i], sample.dts), c);
    KeepKeepsRight(u, i, sample, c);
  }

  lemma {:induction false} StoreCompletesIff(s: State, i: nat, sample: Sample, c: Settings)
    requires StorageIsRight(s, c) && i < |s.tracks| && s.tracks[i].next.Some? && !s.failed
    requires !Store(s, i, sample, c).failed
    ensures var t, dts := Store(s, i, sample, c), Dts(s.tracks[i], sample.dts);
            if (s.segment.Some? ==> dts >= s.segment.value.startDTS) &&
               CanBegin(s.tracks[i], s.tracks[i].next.value, if s.segment.Some? then s.segment.value.startDTS else dts,
                        s.hasVideo, c)
            then |t.files| == |s.files| + 1 && t.files[..|s.files|] == s.files
            else t.files == s.files
  {
    var dts := Dts(s.tracks[i], sample.dts);
    if s.segment.None? || dts >= s.segment.value.startDTS {
      var u := if s.segment.None? then OpenSegment(s, dts, sample.ntp) else s;
      if s.segment.None? {
        OpenSegmentIsRight(s, dts, sample.ntp, c);
      }
      KeepSegment(u, i, sample, c);
      var v := Keep(u, i, sample, c);
      SwitchFiles(v);
    }
  }

  /** A write completes a file if and only if it stores a sample after which the next one of its track can begin a
      file; otherwise the files stay as they are. */
  lemma {:induction false} WriteCompletesIff(s: State, i: nat, sample: Sample, c: Settings)
    requires StorageIsRight(s, c) && i < |s.tracks| && !s.failed && !Write(s, i, sample, c).failed
    ensures var t := Write(s, i, sample, c);
            if IsInTime(s, i) &&
               CanBegin(s.tracks[i], PendingAfter(s, i, sample), StartFor(s, i), s.hasVideo || s.tracks[i].video, c)
            then |t.files| == |s.files| + 1 && t.files[..|s.files|] == s.files
            else t.files == s.files
  {
    var (u, known) := Accept(s, i, sample);
    AcceptIsRight(s, i, sample, c);
    if known.Some? {
      StoreCompletesIff(u, i, known.value, c);
    }
  }

  lemma {:induction false} SwitchFiles(s: State)
    requires ValidTracks(s.tracks) && s.segment.Some? && AllParts(s.segment.value) != []
    ensures |Switch(s).files| == |s.files| + 1 && Switch(s).files[..|s.files|] == s.files
  {
    assert CloseCurPart(s.segment.value).written == AllParts(s.segment.value);
  }

  /** The wall clock time of the segment that the known sample goes to. */
  function NtpFor(s: State, i: nat): int
    requires i < |s.tracks| && s.tracks[i].next.Some?
  {
    if s.segment.Some? then s.segment.value.startNTP else s.tracks[i].next.value.ntp
  }

  /** How the segment and the files are after a write: the first segment starts at the first sample that is stored, and
      each other one where the previous file leaves off. */
  predicate SegmentsFollow(s: State, i: nat, t: State)
    requires ValidTracks(s.tracks) && i < |s.tracks| && ValidTracks(t.tracks)
  {
    if !IsInTime(s, i) then t.segment == s.segment && t.files == s.files
    else
      && t.segment.Some?
      && if |t.files| == |s.files|
         then
           && t.files == s.files
           && t.segment.value.startDTS == StartFor(s, i) && t.segment.value.startNTP == NtpFor(s, i)
         else
           && |t.files| == |s.files| + 1 && t.files[..|s.files|] == s.files
           && t.files[|s.files|].startDTS == StartFor(s, i) && t.files[|s.files|].startNTP == NtpFor(s, i)
           && (t.segment.value.startNTP, t.segment.value.startDTS) == NextSegmentStartingPos(t.tracks)
  }

  lemma {:induction false} SwitchedFile(s: State)
    requires ValidTracks(s.tracks) && s.segment.Some? && AllParts(s.segment.value) != []
    ensures var t, g := Switch(s), s.segment.value;
            && t.files == s.files + [File(g.number, g.startDTS, g.startNTP, AllParts(g), g.endDTS - g.startDTS)]
            && t.tracks == s.tracks && t.segment.Some? && t.log == s.log
            && (t.segment.value.startNTP, t.segment.value.startDTS) == NextSegmentStartingPos(t.tracks)
  {
    assert CloseCurPart(s.segment.value).written == AllParts(s.segment.value);
  }

  lemma {:induction false} WriteSegments(s: State, i: nat, sample: Sample, c: Settings)
    requires StorageIsRight(s, c) && i < |s.tracks| && !s.failed && !Write(s, i, sample, c).failed
    ensures ValidTracks(Write(s, i, sample, c).tracks) && SegmentsFollow(s, i, Write(s, i, sample, c))
  {
    var (u, known) := Accept(s, i, sample);
    AcceptIsRight(s, i, sample, c);
    if IsInTime(s, i) {
      var y, dts := known.value, Dts(u.tracks[i], known.value.dts);
      var v := if u.segment.None? then OpenSegment(u, dts, y.ntp) else u;
      if u.segment.None? {
        OpenSegmentIsRight(u, dts, y.ntp, c);
      }
      KeepSegment(v, i, y, c);
      SwitchedFile(Keep(v, i, y, c));
    }
  }

  /** The number of the part that takes the next sample: the current one, or the next one. */
  function PartFor(s: State, c: Settings): nat {
    if s.segment.None? then 0
    else if PartGoesOn(s, c) then s.segment.value.curPart.value.number
    else |AllParts(s.segment.value)|
  }

  /** What becomes of the pending sample of a track when another one arrives. */
  function FateOf(s: State, i: nat, sample: Sample, c: Settings): Fate
    requires ValidTracks(s.tracks) && i < |s.tracks| && s.tracks[i].next.Some?
  {
    var x := s.tracks[i].next.value;
    Fate(i, x.(duration := (PendingAfter(s, i, sample).dts - x.dts) % UINT32),
         if s.segment.Some? then s.segment.value.number else |s.files|,
         if IsInTime(s, i) then Some(PartFor(s, c)) else None)
  }

  lemma {:induction false} KeepLogs(u: State, i: nat, sample: Sample, c: Settings, part: nat)
    requires StorageIsRight(u, c) && i < |u.tracks| && u.segment.Some? && !u.failed
    requires Dts(u.tracks[i], sample.dts) >= u.segment.value.startDTS && !Keep(u, i, sample, c).failed
    requires part == PartFor(u, c)
    ensures Keep(u, i, sample, c).log == u.log + [Fate(i, sample, u.segment.value.number, Some(part))]
  {
    KeptSegment(u.segment.value, i, u.tracks[i], sample, Dts(u.tracks[i], sample.dts), c);
  }

  /** A sample whose duration becomes known goes into the current part while that has not lasted for the part
      duration, and into the next one afterwards; it goes nowhere if it is older than the segment. */
  lemma {:induction false} WriteStores(s: State, i: nat, sample: Sample, c: Settings)
    requires StorageIsRight(s, c) && i < |s.tracks| && s.tracks[i].next.Some? && !s.failed
    requires !Write(s, i, sample, c).failed
    ensures Write(s, i, sample, c).log == s.log + [FateOf(s, i, sample, c)]
  {
    var (u, known) := Accept(s, i, sample);
    AcceptIsRight(s, i, sample, c);
    var y, dts := known.value, Dts(u.tracks[i], known.value.dts);
    StoreLogs(u, i, y, c);
    if IsInTime(s, i) {
      var v := if u.segment.None? then OpenSegment(u, dts, y.ntp) else u;
      if u.segment.None? {
        OpenSegmentIsRight(u, dts, y.ntp, c);
      }
      KeptSegment(v.segment.value, i, u.tracks[i], y, dts, c);
      KeepLogs(v, i, y, c, PartFor(s, c));
    }
  }

  // whole recordings

  /** A sample of a video track has been written. */
  predicate WroteVideo(tracks: seq<Track>, inputs: seq<Input>)
    requires ValidInputs(tracks, inputs)
  {
    exists k :: 0 <= k < |inputs| && tracks[inputs[k].track].video
  }

  lemma {:induction false} RecordSnoc(tracks: seq<Track>, before: seq<Input>, x: Input, c: Settings)
    requires ValidInputs(tracks, before + [x])
    ensures ValidInputs(tracks, before) && x.track < |tracks|
    ensures var s := Record(tracks, before, c);
            Record(tracks, before + [x], c) == if s.failed then s else Write(s, x.track, x.sample, c)
  {
    assert (before + [x])[..|before|] == before && (before + [x])[|before|] == x;
    assert forall k :: 0 <= k < |before| ==> (before + [x])[k] == before[k];
  }

  lemma {:induction false} WroteVideoSnoc(tracks: seq<Track>, before: seq<Input>, x: Input)
    requires ValidInputs(tracks, before + [x]) && ValidInputs(tracks, before) && x.track < |tracks|
    ensures WroteVideo(tracks, before + [x]) <==> WroteVideo(tracks, before) || tracks[x.track].video
  {
    var all := before + [x];
    assert all[|before|] == x;
    if WroteVideo(tracks, before) {
      var k :| 0 <= k < |before| && tracks[before[k].track].video;
      assert all[k] == before[k];
    }
  }

  /** Of a track only the pending sample changes, and the recorder knows whether it has seen video. */
  lemma {:induction false} RecordedTracks(tracks: seq<Track>, inputs: seq<Input>, c: Settings, j: nat)
    requires ValidInputs(tracks, inputs) && j < |tracks| && !Record(tracks, inputs, c).failed
    ensures var s := Record(tracks, inputs, c);
            && s.tracks[j] == tracks[j].(next := s.tracks[j].next)
            && (s.hasVideo <==> WroteVideo(tracks, inputs))
    decreases |inputs|
  {
    if inputs != [] {
      var before, x := inputs[..|inputs| - 1], inputs[|inputs| - 1];
      assert inputs == before + [x];
      RecordSnoc(tracks, before, x, c);
      RecordedTracks(tracks, before, c, j);
      RecordedTracks(tracks, before, c, x.track);
      WriteTracks(Record(tracks, before, c), x.track, x.sample, c);
      WroteVideoSnoc(tracks, before, x);
    }
  }

  /** What the next write does to the files of a recording. */
  predicate BeginsFile(tracks: seq<Track>, before: seq<Input>, x: Input, c: Settings)
    requires ValidInputs(tracks, before + [x]) && ValidInputs(tracks, before) && x.track < |tracks|
  {
    var s := Record(tracks, before, c);
    && IsInTime(s, x.track)
    && CanBegin(tracks[x.track], PendingAfter(s, x.track, x.sample), StartFor(s, x.track),
                WroteVideo(tracks, before + [x]), c)
  }

  /** Over every recording: a write completes exactly one file if the known sample was in time and the next one of its
      track is a sync sample at least the segment duration past the start of the segment, on a video track once there
      has been video; it completes none otherwise, and never touches files that are complete. */
  lemma {:induction false} RecordingCompletesIff(tracks: seq<Track>, before: seq<Input>, x: Input, c: Settings)
    requires ValidInputs(tracks, before + [x]) && !Record(tracks, before + [x], c).failed
    ensures ValidInputs(tracks, before) && x.track < |tracks|
    ensures var s, t := Record(tracks, before, c), Record(tracks, before + [x], c);
            if BeginsFile(tracks, before, x, c) then |t.files| == |s.files| + 1 && t.files[..|s.files|] == s.files
            else t.files == s.files
  {
    RecordSnoc(tracks, before, x, c);
    RecordedTracks(tracks, before, c, x.track);
    WroteVideoSnoc(tracks, before, x);
    RecordingIsRight(tracks, before, c);
    var s := Record(tracks, before, c);
    WriteCompletesIff(s, x.track, x.sample, c);
    if IsInTime(s, x.track) {
      SameTrack(s.tracks[x.track], tracks[x.track], PendingAfter(s, x.track, x.sample), StartFor(s, x.track),
                WroteVideo(tracks, before + [x]), c);
    }
  }

  lemma {:induction false} SameTrack(
    track: Track, other: Track, pending: Sample, start: int, hasVideo: bool, c: Settings)
    requires track.timeScale > 0 && track == other.(next := track.next)
    ensures CanBegin(track, pending, start, hasVideo, c) <==> CanBegin(other, pending, start, hasVideo, c)
  {
  }

  /** Over every recording that has not failed: the next write fails if and only if the sample that it stores does not
      fit into the part that takes it. */
  lemma {:induction false} RecordingFailsIff(tracks: seq<Track>, before: seq<Input>, x: Input, c: Settings)
    requires ValidInputs(tracks, before + [x]) && ValidInputs(tracks, before) && !Record(tracks, before, c).failed
    ensures x.track < |tracks|
    ensures var s := Record(tracks, before, c);
            Record(tracks, before + [x], c).failed <==>
            IsInTime(s, x.track) && SizeSoFar(s, c) + |s.tracks[x.track].next.value.payload| > c.maxPartSize
  {
    RecordSnoc(tracks, before, x, c);
    WriteFailsIff(Record(tracks, before, c), x.track, x.sample, c);
  }

  lemma {:induction false} NotFailedBefore(tracks: seq<Track>, inputs: seq<Input>, c: Settings, m: nat)
    requires ValidInputs(tracks, inputs) && m <= |inputs| && !Record(tracks, inputs, c).failed
    ensures ValidInputs(tracks, inputs[..m]) && !Record(tracks, inputs[..m], c).failed
    decreases |inputs|
  {
    if m == |inputs| {
      assert inputs[..m] == inputs;
    } else {
      assert inputs[..|inputs| - 1][..m] == inputs[..m];
      NotFailedBefore(tracks, inputs[..|inputs| - 1], c, m);
    }
  }

  /** The m-th write completes file n. */
  predicate CompletesFile(tracks: seq<Track>, inputs: seq<Input>, c: Settings, m: nat, n: nat)
    requires ValidInputs(tracks, inputs) && m < |inputs|
  {
    && |Record(tracks, inputs[..m], c).files| == n
    && |Record(tracks, inputs[..m + 1], c).files| == n + 1
    && n < |Record(tracks, inputs, c).files|
    && Record(tracks, inputs[..m + 1], c).files[n] == Record(tracks, inputs, c).files[n]
  }

  lemma {:induction false} StaysCompleted(
    tracks: seq<Track>, before: seq<Input>, x: Input, c: Settings, m: nat, n: nat)
    requires ValidInputs(tracks, before + [x]) && ValidInputs(tracks, before)
    requires !Record(tracks, before + [x], c).failed && m < |before| && CompletesFile(tracks, before, c, m, n)
    ensures (before + [x])[..m + 1] == before[..m + 1] && (before + [x])[m] == before[m]
    ensures CompletesFile(tracks, before + [x], c, m, n)
  {
    RecordingCompletesIff(tracks, before, x, c);
    assert (before + [x])[..m] == before[..m];
    var s, t := Record(tracks, before, c), Record(tracks, before + [x], c);
    assert t.files[n] == t.files[..|s.files|][n];
  }

  /** After the m-th write its track, a video track if there has been video, waits with a sync sample. */
  predicate WaitsWithSync(tracks: seq<Track>, inputs: seq<Input>, m: nat)
    requires ValidInputs(tracks, inputs) && m < |inputs|
  {
    !inputs[m].sample.nonSync && (tracks[inputs[m].track].video || !WroteVideo(tracks, inputs[..m + 1]))
  }

  lemma {:induction false} JustCompleted(tracks: seq<Track>, before: seq<Input>, x: Input, c: Settings, n: nat)
    requires ValidInputs(tracks, before + [x]) && ValidInputs(tracks, before)
    requires !Record(tracks, before + [x], c).failed
    requires |Record(tracks, before, c).files| <= n < |Record(tracks, before + [x], c).files|
    ensures CompletesFile(tracks, before + [x], c, |before|, n) && WaitsWithSync(tracks, before + [x], |before|)
  {
    RecordingCompletesIff(tracks, before, x, c);
    var all := before + [x];
    assert all[..|before|] == before && all[..|before| + 1] == all && all[|before|] == x;
  }

  /** Every file that is complete was completed by one write, after which the track that was written, a video track if
      there had been video, waits with a sync sample. */
  lemma {:induction false} EveryFileEndsBeforeSync(tracks: seq<Track>, inputs: seq<Input>, c: Settings, n: nat)
    returns (m: nat)
    requires ValidInputs(tracks, inputs) && !Record(tracks, inputs, c).failed && n < |Record(tracks, inputs, c).files|
    ensures m < |inputs| && CompletesFile(tracks, inputs, c, m, n) && WaitsWithSync(tracks, inputs, m)
    decreases |inputs|
  {
    var before, x := inputs[..|inputs| - 1], inputs[|inputs| - 1];
    assert inputs == before + [x];
    RecordSnoc(tracks, before, x, c);
    if n < |Record(tracks, before, c).files| {
      NotFailedBefore(tracks, inputs, c, |before|);
      m := EveryFileEndsBeforeSync(tracks, before, c, n);
      StaysCompleted(tracks, before, x, c, m, n);
    } else {
      m := |before|;
      JustCompleted(tracks, before, x, c, n);
    }
  }

  // where parts begin

  /** The first sample that was kept in a part. */
  function FirstOf(log: seq<Fate>, segment: nat, part: nat): (r: Option<Fate>)
    ensures r.Some? ==> r.value in log && r.value.segment == segment && r.value.part == Some(part)
    ensures r.None? ==> forall k :: 0 <= k < |log| ==> log[k].segment != segment || log[k].part != Some(part)
  {
    if log == [] then None
    else
      var n := |log| - 1;
      var r := FirstOf(log[..n], segment, part);
      if r.Some? then r
      else if log[n].segment == segment && log[n].part == Some(part) then Some(log[n])
      else None
  }

  lemma {:induction false} FirstSnoc(log: seq<Fate>, f: Fate, segment: nat, part: nat)
    ensures FirstOf(log + [f], segment, part) ==
            if FirstOf(log, segment, part).Some? then FirstOf(log, segment, part)
            else if f.segment == segment && f.part == Some(part) then Some(f)
            else None
  {
    assert (log + [f])[..|log|] == log;
  }

  /** A part begins with the first sample that was kept in it. */
  predicate PartBegins(log: seq<Fate>, tracks: seq<Track>, segment: nat, p: Part)
    requires ValidTracks(tracks)
  {
    var f := FirstOf(log, segment, p.number);
    f.Some? && f.value.track < |tracks| && p.startDTS == Dts(tracks[f.value.track], f.value.sample.dts)
  }

  predicate PartsBegin(log: seq<Fate>, tracks: seq<Track>, segment: nat, parts: seq<Part>)
    requires ValidTracks(tracks)
  {
    forall n :: 0 <= n < |parts| ==> PartBegins(log, tracks, segment, parts[n])
  }

  predicate AllPartsBegin(s: State)
    requires ValidTracks(s.tracks)
  {
    && (forall n :: 0 <= n < |s.files| ==> PartsBegin(s.log, s.tracks, s.files[n].number, s.files[n].parts))
    && (s.segment.Some? ==> PartsBegin(s.log, s.tracks, s.segment.value.number, AllParts(s.segment.value)))
  }

  lemma {:induction false} StillBegins(log: seq<Fate>, f: Fate, tracks: seq<Track>, other: seq<Track>, segment: nat,
    parts: seq<Part>)
    requires ValidTracks(tracks) && ValidTracks(other) && |other| == |tracks|
    requires forall j :: 0 <= j < |tracks| ==> other[j].timeScale == tracks[j].timeScale
    requires PartsBegin(log, tracks, segment, parts)
    ensures PartsBegin(log, other, segment, parts) && PartsBegin(log + [f], other, segment, parts)
  {
    forall n | 0 <= n < |parts|
      ensures PartBegins(log, other, segment, parts[n]) && PartBegins(log + [f], other, segment, parts[n])
    {
      assert PartBegins(log, tracks, segment, parts[n]);
      FirstSnoc(log, f, segment, parts[n].number);
    }
  }

  lemma {:induction false} PartsStillBegin(s: State, f: Fate, other: seq<Track>)
    requires ValidTracks(s.tracks) && ValidTracks(other) && |other| == |s.tracks| && AllPartsBegin(s)
    requires forall j :: 0 <= j < |s.tracks| ==> other[j].timeScale == s.tracks[j].timeScale
    ensures AllPartsBegin(s.(tracks := other)) && AllPartsBegin(s.(tracks := other, log := s.log + [f]))
  {
    forall n | 0 <= n < |s.files|
      ensures PartsBegin(s.log, other, s.files[n].number, s.files[n].parts)
      ensures PartsBegin(s.log + [f], other, s.files[n].number, s.files[n].parts)
    {
      StillBegins(s.log, f, s.tracks, other, s.files[n].number, s.files[n].parts);
    }
    if s.segment.Some? {
      StillBegins(s.log, f, s.tracks, other, s.segment.value.number, AllParts(s.segment.value));
    }
  }

  /** How keeping a sample changes the parts of the segment. */
  lemma {:induction false} KeptParts(g: Segment, i: nat, track: Track, sample: Sample, dts: int, c: Settings)
    requires track.timeScale > 0 && SegmentWrite(g, i, track, sample, dts, c).1
    requires g.nextPartNumber == |AllParts(g)| && forall n :: 0 <= n < |AllParts(g)| ==> AllParts(g)[n].number == n
    ensures var was, now := AllParts(g), AllParts(SegmentWrite(g, i, track, sample, dts, c).0);
            var goesOn := g.curPart.Some? && g.curPart.value.endDTS - g.curPart.value.startDTS < c.partDuration;
            var k := if goesOn then |was| - 1 else |was|;
            && 0 <= k && |now| == k + 1 && now[..k] == was[..k] && now[k].number == k
            && SegmentWrite(g, i, track, sample, dts, c).0.curPart == Some(now[k])
            && now[k].startDTS == (if goesOn then was[k].startDTS else dts)
  {
    KeptSegment(g, i, track, sample, dts, c);
    if g.curPart.Some? {
      assert AllParts(g)[|g.written|] == g.curPart.value;
    }
  }

  lemma {:induction false} NothingInNextPart(s: State, c: Settings)
    requires StorageIsRight(s, c) && s.segment.Some?
    ensures FirstOf(s.log, s.segment.value.number, |AllParts(s.segment.value)|) == None
  {
    var g := s.segment.value;
    forall k | 0 <= k < |s.log|
      ensures s.log[k].segment != g.number || s.log[k].part != Some(|AllParts(g)|)
    {
      assert FateIsRight(s, s.log[k]);
    }
  }

  lemma {:induction false} KeepBegins(u: State, i: nat, sample: Sample, c: Settings)
    requires StorageIsRight(u, c) && AllPartsBegin(u) && i < |u.tracks| && u.segment.Some?
    requires !u.failed && !Keep(u, i, sample, c).failed
    ensures AllPartsBegin(Keep(u, i, sample, c))
  {
    var g, dts := u.segment.value, Dts(u.tracks[i], sample.dts);
    var v := Keep(u, i, sample, c);
    KeptParts(g, i, u.tracks[i], sample, dts, c);
    NothingInNextPart(u, c);
    var was, now := AllParts(g), AllParts(v.segment.value);
    var k := |now| - 1;
    var f := Fate(i, sample, g.number, Some(k));
    assert v.log == u.log + [f];
    PartsStillBegin(u, f, u.tracks);
    forall n | 0 <= n < |now| ensures PartBegins(v.log, v.tracks, g.number, now[n]) {
      if n < k {
        assert now[n] == was[n];
      } else {
        FirstSnoc(u.log, f, g.number, k);
        assert k < |was| ==> PartBegins(u.log, u.tracks, g.number, was[k]);
      }
    }
  }

  lemma {:induction false} SwitchBegins(s: State)
    requires ValidTracks(s.tracks) && s.segment.Some? && AllPartsBegin(s) && AllParts(s.segment.value) != []
    ensures AllPartsBegin(Switch(s))
  {
    assert CloseCurPart(s.segment.value).written == AllParts(s.segment.value);
  }

  lemma {:induction false} StoreBegins(s: State, i: nat, sample: Sample, c: Settings)
    requires StorageIsRight(s, c) && AllPartsBegin(s) && i < |s.tracks| && s.tracks[i].next.Some?
    requires !s.failed && !Store(s, i, sample, c).failed
    ensures AllPartsBegin(Store(s, i, sample, c))
  {
    var dts := Dts(s.tracks[i], sample.dts);
    if s.segment.Some? && dts < s.segment.value.startDTS {
      PartsStillBegin(s, Fate(i, sample, s.segment.value.number, None), s.tracks);
    } else {
      var u := if s.segment.None? then OpenSegment(s, dts, sample.ntp) else s;
      if s.segment.None? {
        OpenSegmentIsRight(s, dts, sample.ntp, c);
      }
      KeepSegment(u, i, sample, c);
      KeepBegins(u, i, sample, c);
      SwitchBegins(Keep(u, i, sample, c));
    }
  }

  /** Over every recording that has not failed, each part starts at the first sample that was kept in it. */
  lemma {:induction false} RecordedPartsBegin(tracks: seq<Track>, inputs: seq<Input>, c: Settings)
    requires ValidInputs(tracks, inputs) && !Record(tracks, inputs, c).failed
    ensures AllPartsBegin(Record(tracks, inputs, c))
    decreases |inputs|
  {
    if inputs != [] {
      var before, x := inputs[..|inputs| - 1], inputs[|inputs| - 1];
      assert inputs == before + [x];
      RecordSnoc(tracks, before, x, c);
      RecordedPartsBegin(tracks, before, c);
      RecordingIsRight(tracks, before, c);
      var s := Record(tracks, before, c);
      var (u, known) := Accept(s, x.track, x.sample);
      AcceptIsRight(s, x.track, x.sample, c);
      PartsStillBegin(s, Fate(0, x.sample, 0, None), u.tracks);
      if known.Some? {
        StoreBegins(u, x.track, known.value, c);
      }
    }
  }
}
