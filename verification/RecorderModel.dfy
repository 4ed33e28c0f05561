/** The fMP4 recorder as a function from state and sample to state. Samples are written with a delay
    of one, because the duration of a sample is known only when the next one arrives. */
module RecorderModel {
  import opened Options
  import opened Rounding

  datatype Sample = Sample(payload: seq<Byte>, dts: int, ptsOffset: int, ntp: int, nonSync: bool, duration: nat)

  datatype Track = Track(id: int, timeScale: int, video: bool, next: Option<Sample>)

  datatype PartTrack = PartTrack(id: int, baseTime: int, samples: seq<Sample>)

  datatype Part = Part(number: nat, startDTS: int, tracks: map<nat, PartTrack>, size: nat, endDTS: int)

  /** `written` is what has been written to the segment's file, which exists once that is not empty. */
  datatype Segment = Segment(
    number: nat, startDTS: int, startNTP: int, written: seq<Part>, curPart: Option<Part>,
    endDTS: int, nextPartNumber: nat)

  datatype File = File(number: nat, startDTS: int, startNTP: int, parts: seq<Part>, duration: int)

  datatype Settings = Settings(segmentDuration: int, partDuration: int, maxPartSize: nat)

  /** What became of a sample once its successor was known: it went into a part of a segment, or it was
      too late for the segment. */
  datatype Fate = Fate(track: nat, sample: Sample, segment: nat, part: Option<nat>)

  datatype State = State(
    tracks: seq<Track>,
    hasVideo: bool,
    segment: Option<Segment>,
    nextSegmentNumber: nat,
    files: seq<File>,
    failed: bool,
    log: seq<Fate>)

  const MAX_BASETIME: int := SECOND

  /** Go's zero time. */
  const ZERO_TIME: int := -62135596800 * SECOND

  const UINT32: int := 0x1_0000_0000

  predicate ValidTracks(tracks: seq<Track>) {
    forall i :: 0 <= i < |tracks| ==> tracks[i].timeScale > 0
  }

  function Dts(track: Track, dts: int): int
    requires track.timeScale > 0
  {
    TimestampToDuration(dts, track.timeScale)
  }

  function BaseTime(track: Track, dts: int, segmentStart: int): int {
    MultiplyAndDivide(dts - segmentStart, track.timeScale, SECOND)
  }

  function Max(a: int, b: int): int {
    if a >= b then a else b
  }

  // where the next segment starts

  /** The newest pending sample, or zero when all are older. */
  function NewestPending(tracks: seq<Track>): int
    requires ValidTracks(tracks)
  {
    if tracks == [] then 0
    else
      var rest := NewestPending(tracks[..|tracks| - 1]);
      var t := tracks[|tracks| - 1];
      if t.next.Some? then Max(rest, Dts(t, t.next.value.dts)) else rest
  }

  /** The oldest pending sample that is close enough to the newest one, as NTP and DTS. */
  function OldestPending(tracks: seq<Track>, maxDTS: int): (int, int)
    requires ValidTracks(tracks)
  {
    if tracks == [] then (ZERO_TIME, maxDTS)
    else
      var rest := OldestPending(tracks[..|tracks| - 1], maxDTS);
      var t := tracks[|tracks| - 1];
      if t.next.Some? then
        var dts := Dts(t, t.next.value.dts);
        if maxDTS - dts <= MAX_BASETIME && dts <= rest.1 then (t.next.value.ntp, dts) else rest
      else rest
  }

  function NextSegmentStartingPos(tracks: seq<Track>): (int, int)
    requires ValidTracks(tracks)
  {
    OldestPending(tracks, NewestPending(tracks))
  }

  // parts and segments

  function NewPart(number: nat, dts: int): Part {
    Part(number, dts, map[], 0, 0)
  }

  /** Appends a sample to a part; None when the part would become too big. */
  function PartWrite(
    p: Part, i: nat, track: Track, sample: Sample, dts: int, segmentStart: int, maxPartSize: nat): Option<Part>
    requires track.timeScale > 0
  {
    var size := |sample.payload|;
    if p.size + size > maxPartSize then None
    else
      var pt := if i in p.tracks then p.tracks[i] else PartTrack(track.id, BaseTime(track, dts, segmentStart), []);
      var endDTS := dts + Dts(track, sample.duration);
      Some(Part(p.number, p.startDTS, p.tracks[i := pt.(samples := pt.samples + [sample])], p.size + size,
                Max(p.endDTS, endDTS)))
  }

  function NewSegment(number: nat, startDTS: int, startNTP: int): Segment {
    Segment(number, startDTS, startNTP, [], None, startDTS, 0)
  }

  function OpenPart(g: Segment, dts: int): Segment {
    g.(curPart := Some(NewPart(g.nextPartNumber, dts)), nextPartNumber := g.nextPartNumber + 1)
  }

  function CloseCurPart(g: Segment): Segment {
    if g.curPart.Some? then g.(written := g.written + [g.curPart.value], curPart := None) else g
  }

  /** Makes sure that the segment has a part that can take a sample with this DTS. */
  function PreparePart(g: Segment, dts: int, partDuration: int): Segment {
    if g.curPart.None? then OpenPart(g, dts)
    else if g.curPart.value.endDTS - g.curPart.value.startDTS >= partDuration then OpenPart(CloseCurPart(g), dts)
    else g
  }

  function SegmentWrite(g: Segment, i: nat, track: Track, sample: Sample, dts: int, c: Settings): (r: (Segment, bool))
    requires track.timeScale > 0
    ensures r.0.curPart.Some?
  {
    var g1 := g.(endDTS := Max(g.endDTS, dts + Dts(track, sample.duration)));
    var g2 := PreparePart(g1, dts, c.partDuration);
    match PartWrite(g2.curPart.value, i, track, sample, dts, g2.startDTS, c.maxPartSize)
    case None => (g2, false)
    case Some(p) => (g2.(curPart := Some(p)), true)
  }

  function SegmentClose(g: Segment, files: seq<File>): seq<File> {
    var h := CloseCurPart(g);
    if h.written == [] then files
    else files + [File(h.number, h.startDTS, h.startNTP, h.written, h.endDTS - h.startDTS)]
  }

  // the recorder

  function Create(tracks: seq<Track>): State {
    State(tracks, false, None, 0, [], false, [])
  }

  function OpenSegment(s: State, startDTS: int, startNTP: int): State {
    s.(segment := Some(NewSegment(s.nextSegmentNumber, startDTS, startNTP)),
       nextSegmentNumber := s.nextSegmentNumber + 1)
  }

  /** A sample cannot be older than its predecessor. */
  function NotBefore(sample: Sample, previous: Sample): Sample {
    if sample.dts < previous.dts then sample.(dts := previous.dts) else sample
  }

  function WithDuration(sample: Sample, next: Sample): Sample {
    sample.(duration := (next.dts - sample.dts) % UINT32)
  }

  /** Whether the segment must be switched before the pending sample of track i. */
  predicate MustSwitch(s: State, i: nat, c: Settings)
    requires ValidTracks(s.tracks) && i < |s.tracks| && s.tracks[i].next.Some? && s.segment.Some?
  {
    var t := s.tracks[i];
    && (!s.hasVideo || t.video)
    && !t.next.value.nonSync
    && Dts(t, t.next.value.dts) - s.segment.value.startDTS >= c.segmentDuration
  }

  function Switch(s: State): State
    requires ValidTracks(s.tracks) && s.segment.Some?
  {
    var pos := NextSegmentStartingPos(s.tracks);
    OpenSegment(s.(files := SegmentClose(s.segment.value, s.files)), pos.1, pos.0)
  }

  /** Writes a sample that is not too late into the segment. */
  function Keep(s: State, i: nat, sample: Sample, c: Settings): (r: State)
    requires ValidTracks(s.tracks) && i < |s.tracks| && s.segment.Some?
    ensures r.tracks == s.tracks && r.files == s.files && r.segment.Some?
  {
    var t := s.tracks[i];
    var (g, ok) := SegmentWrite(s.segment.value, i, t, sample, Dts(t, sample.dts), c);
    if !ok then s.(segment := Some(g), failed := true)
    else s.(segment := Some(g), log := s.log + [Fate(i, sample, g.number, Some(g.curPart.value.number))])
  }

  /** Stores a sample whose duration is known. */
  function Store(s: State, i: nat, sample: Sample, c: Settings): State
    requires ValidTracks(s.tracks) && i < |s.tracks| && s.tracks[i].next.Some?
  {
    var dts := Dts(s.tracks[i], sample.dts);
    if s.segment.Some? && dts < s.segment.value.startDTS then
      s.(log := s.log + [Fate(i, sample, s.segment.value.number, None)])
    else
      var u := if s.segment.None? then OpenSegment(s, dts, sample.ntp) else s;
      var v := Keep(u, i, sample, c);
      if !v.failed && MustSwitch(v, i, c) then Switch(v) else v
  }

  /** Accepts a sample of track i: its predecessor becomes known and is stored. */
  function Accept(s: State, i: nat, sample: Sample): (r: (State, Option<Sample>))
    requires ValidTracks(s.tracks) && i < |s.tracks|
    ensures ValidTracks(r.0.tracks) && |r.0.tracks| == |s.tracks| && r.0.tracks[i].next.Some?
  {
    var t := s.tracks[i];
    var u := s.(hasVideo := s.hasVideo || t.video);
    match t.next
    case None => (u.(tracks := u.tracks[i := t.(next := Some(sample))]), None)
    case Some(previous) =>
      var next := NotBefore(sample, previous);
      (u.(tracks := u.tracks[i := t.(next := Some(next))]), Some(WithDuration(previous, next)))
  }

  function Write(s: State, i: nat, sample: Sample, c: Settings): State
    requires ValidTracks(s.tracks) && i < |s.tracks|
  {
    var (u, known) := Accept(s, i, sample);
    match known
    case None => u
    case Some(previous) => Store(u, i, previous, c)
  }

  /** Called once, when recording stops or has failed. */
  function Close(s: State): State {
    if s.segment.Some? then s.(files := SegmentClose(s.segment.value, s.files)) else s
  }
}
