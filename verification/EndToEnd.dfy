/** From the recorder through the files, the seek and a muxer to the screen: what is shown of a track are its
    recorded samples, each once and in order, within three ticks of its recorded time plus one constant, exactly
    when playback does not go back in time. */
module EndToEnd {
  import opened Options
  import opened Rounding
  import RM = RecorderModel
  import RR = RecorderRuns
  import RT = RecorderTiming
  import opened Playback
  import opened PlaybackRuns
  import opened PlaybackOrder
  import opened RecordAndPlay
  import MM = MuxerModel
  import MR = MuxerRuns
  import MA = MuxerAgreement
  import MT = MuxerTimes

  // recorded tracks

  predicate HaveDistinctIDs(tracks: seq<RM.Track>) {
    forall i, j :: 0 <= i < j < |tracks| ==> tracks[i].id != tracks[j].id
  }

  lemma {:induction false} FoundByID(tracks: seq<RM.Track>, i: nat)
    requires RM.ValidTracks(tracks) && HaveDistinctIDs(tracks) && i < |tracks|
    ensures FindTrack(ToInit(tracks), tracks[i].id) == Some(i)
  {
    var init := ToInit(tracks);
    assert init[i].id == tracks[i].id;
    var r := FindTrack(init, tracks[i].id);
    assert r.Some?;
    assert init[r.value].id == tracks[r.value].id;
  }

  // files as playback reads them

  /** The runs are those of a part, each track once, in some order. */
  ghost predicate IsPart(runs: seq<Run>, p: RM.Part, order: seq<nat>) {
    && |order| == |runs|
    && (forall j, k :: 0 <= j < k < |order| ==> order[j] != order[k])
    && (forall i :: i in order <==> i in p.tracks)
    && (forall j :: 0 <= j < |runs| ==> order[j] in p.tracks && runs[j] == ToRun(p.tracks[order[j]]))
  }

  ghost predicate HoldsPart(runs: seq<Run>, p: RM.Part) {
    exists order :: IsPart(runs, p, order)
  }

  ghost predicate IsFile(segment: SegmentFile, f: RM.File, tracks: seq<RM.Track>, streamID: seq<Byte>)
    requires RM.ValidTracks(tracks)
  {
    && segment.init == Header(f, tracks, streamID)
    && |segment.parts| == |f.parts|
    && forall m :: 0 <= m < |f.parts| ==> HoldsPart(segment.parts[m], f.parts[m])
  }

  // what a part of a recording contributes

  /** What a recorded part says about its tracks. */
  predicate HasIDs(p: RM.Part, tracks: seq<RM.Track>) {
    forall i :: i in p.tracks ==> i < |tracks| && p.tracks[i].id == tracks[i].id
  }

  function TrackItems(p: RM.Part, q: Request, i: nat): seq<MM.Item>
    requires i < |q.tracks|
  {
    if i in p.tracks then RunItems(ToRun(p.tracks[i]), q.Start(i), q.Limit(i)) else []
  }

  /** Only the run of a track contributes to it. */
  lemma {:induction false} ContributionOfRun(
    tracks: seq<RM.Track>, runs: seq<Run>, p: RM.Part, order: seq<nat>, q: Request, j: nat, i: nat)
    requires RM.ValidTracks(tracks) && HaveDistinctIDs(tracks) && q.tracks == ToInit(tracks)
    requires IsPart(runs, p, order) && HasIDs(p, tracks) && j < |runs| && i < |tracks|
    ensures Contribution(runs[j], q, i) == if order[j] == i then TrackItems(p, q, i) else []
  {
    FoundByID(tracks, order[j]);
  }

  /** The contributions of some runs, if only the one that belongs to track i has any. */
  lemma {:induction false} OneRunContributes(runs: seq<Run>, order: seq<nat>, q: Request, i: nat, items: seq<MM.Item>)
    requires |runs| == |order| && i < |q.tracks| && forall j, k :: 0 <= j < k < |order| ==> order[j] != order[k]
    requires forall j :: 0 <= j < |runs| ==> Contribution(runs[j], q, i) == if order[j] == i then items else []
    ensures PartItems(runs, q, i) == if i in order then items else []
    decreases |runs|
  {
    if runs != [] {
      var n := |runs| - 1;
      OneRunContributes(runs[..n], order[..n], q, i, items);
      LastOfDistinct(order, i);
      assert PartItems(runs, q, i) == PartItems(runs[..n], q, i) + Contribution(runs[n], q, i);
      assert items + [] == items && [] + items == items;
    }
  }

  lemma {:induction false} LastOfDistinct(order: seq<nat>, i: nat)
    requires order != [] && forall j, k :: 0 <= j < k < |order| ==> order[j] != order[k]
    ensures var n := |order| - 1;
            && (i in order <==> i in order[..n] || order[n] == i)
            && (order[n] == i ==> i !in order[..n])
  {
    var n := |order| - 1;
    assert order == order[..n] + [order[n]];
  }

  lemma {:induction false} PartContributes(
    tracks: seq<RM.Track>, runs: seq<Run>, p: RM.Part, order: seq<nat>, q: Request, i: nat)
    requires RM.ValidTracks(tracks) && HaveDistinctIDs(tracks) && q.tracks == ToInit(tracks)
    requires IsPart(runs, p, order) && HasIDs(p, tracks) && i < |tracks|
    ensures PartItems(runs, q, i) == TrackItems(p, q, i)
  {
    var items := TrackItems(p, q, i);
    forall j | 0 <= j < |runs| ensures Contribution(runs[j], q, i) == if order[j] == i then items else [] {
      ContributionOfRun(tracks, runs, p, order, q, j, i);
    }
    OneRunContributes(runs, order, q, i, items);
  }

  // where played samples come from

  /** The number of a segment among those that are played, of a part in it, and of a sample in that. */
  datatype Position = Position(segment: nat, part: nat, sample: nat)

  predicate IsBefore(a: Position, b: Position) {
    || a.segment < b.segment
    || (a.segment == b.segment && a.part < b.part)
    || (a.segment == b.segment && a.part == b.part && a.sample < b.sample)
  }

  predicate AreInOrder(ps: seq<Position>) {
    forall j, k :: 0 <= j < k < |ps| ==> IsBefore(ps[j], ps[k])
  }

  function PartPositions(s: nat, m: nat, p: RM.Part, q: Request, i: nat): seq<Position>
    requires i < |q.tracks|
  {
    if i in p.tracks then
      seq(PlayedFrom(ToRun(p.tracks[i]), q.Start(i), q.Limit(i), 0), k requires 0 <= k => Position(s, m, k))
    else []
  }

  function PartsPositions(s: nat, parts: seq<RM.Part>, q: Request, i: nat): seq<Position>
    requires i < |q.tracks|
  {
    if parts == [] then []
    else
      var m := |parts| - 1;
      PartsPositions(s, parts[..m], q, i) + PartPositions(s, m, parts[m], q, i)
  }

  /** The sample of track i at a position of segment s is played. */
  predicate IsPlayedIn(parts: seq<RM.Part>, q: Request, i: nat, x: Position)
    requires i < |q.tracks|
  {
    && x.part < |parts| && i in parts[x.part].tracks && x.sample < |parts[x.part].tracks[i].samples|
    && PlayDTS(ToRun(parts[x.part].tracks[i]), q.Start(i), x.sample) < q.Limit(i)
  }

  lemma {:induction false} PlayedIff(run: Run, start: int, limit: int, k: nat)
    requires k < |run.entries|
    ensures k < PlayedFrom(run, start, limit, 0) <==> PlayDTS(run, start, k) < limit
  {
    var n := PlayedFrom(run, start, limit, 0);
    if n <= k {
      PlayedInRun(run, start, n, k);
    }
  }

  lemma {:induction false} PartPositionsExactly(s: nat, m: nat, p: RM.Part, q: Request, i: nat, x: Position)
    requires i < |q.tracks|
    ensures x in PartPositions(s, m, p, q, i) <==>
            && x.segment == s && x.part == m && i in p.tracks && x.sample < |p.tracks[i].samples|
            && PlayDTS(ToRun(p.tracks[i]), q.Start(i), x.sample) < q.Limit(i)
  {
    if i in p.tracks && x.sample < |p.tracks[i].samples| {
      PlayedIff(ToRun(p.tracks[i]), q.Start(i), q.Limit(i), x.sample);
      if x == Position(s, m, x.sample) && x.sample < |PartPositions(s, m, p, q, i)| {
        assert PartPositions(s, m, p, q, i)[x.sample] == x;
      }
    }
  }

  /** Soundness and completeness for one segment. */
  lemma {:induction false} PartsPositionsExactly(s: nat, parts: seq<RM.Part>, q: Request, i: nat, x: Position)
    requires i < |q.tracks|
    ensures x in PartsPositions(s, parts, q, i) <==> x.segment == s && IsPlayedIn(parts, q, i, x)
    decreases |parts|
  {
    if parts != [] {
      var m := |parts| - 1;
      PartsPositionsExactly(s, parts[..m], q, i, x);
      PartPositionsExactly(s, m, parts[m], q, i, x);
    }
  }

  lemma {:induction false} AppendInOrder(a: seq<Position>, b: seq<Position>)
    requires AreInOrder(a) && AreInOrder(b) && forall x, y :: x in a && y in b ==> IsBefore(x, y)
    ensures AreInOrder(a + b)
  {
  }

  lemma {:induction false} PartsPositionsInOrder(s: nat, parts: seq<RM.Part>, q: Request, i: nat)
    requires i < |q.tracks|
    ensures AreInOrder(PartsPositions(s, parts, q, i))
    decreases |parts|
  {
    if parts != [] {
      var m := |parts| - 1;
      var a, b := PartsPositions(s, parts[..m], q, i), PartPositions(s, m, parts[m], q, i);
      PartsPositionsInOrder(s, parts[..m], q, i);
      forall x, y | x in a && y in b ensures IsBefore(x, y) {
        PartsPositionsExactly(s, parts[..m], q, i, x);
        PartPositionsExactly(s, m, parts[m], q, i, y);
      }
      AppendInOrder(a, b);
    }
  }

  /** What a muxer gets for a position of a segment. */
  function ItemIn(parts: seq<RM.Part>, q: Request, i: nat, x: Position): MM.Item
    requires i < |q.tracks| && IsPlayedIn(parts, q, i, x)
  {
    ItemAt(ToRun(parts[x.part].tracks[i]), q.Start(i), x.sample)
  }

  predicate AreItemsIn(items: seq<MM.Item>, parts: seq<RM.Part>, q: Request, i: nat, ps: seq<Position>)
    requires i < |q.tracks|
  {
    |items| == |ps| && forall k :: 0 <= k < |ps| ==>
      IsPlayedIn(parts, q, i, ps[k]) && items[k] == ItemIn(parts, q, i, ps[k])
  }

  lemma {:induction false} AppendItems(
    a: seq<MM.Item>, b: seq<MM.Item>, shorter: seq<RM.Part>, parts: seq<RM.Part>, q: Request, i: nat, ps: seq<Position>,
    qs: seq<Position>)
    requires i < |q.tracks| && shorter <= parts && AreItemsIn(a, shorter, q, i, ps) && AreItemsIn(b, parts, q, i, qs)
    ensures AreItemsIn(a + b, parts, q, i, ps + qs)
  {
  }

  lemma {:induction false} PartItemsAt(s: nat, parts: seq<RM.Part>, m: nat, q: Request, i: nat)
    requires i < |q.tracks| && m < |parts|
    ensures AreItemsIn(TrackItems(parts[m], q, i), parts, q, i, PartPositions(s, m, parts[m], q, i))
  {
  }

  /** The segment holds the parts of a recorded file. */
  ghost predicate ArePartsOf(segmentParts: seq<seq<Run>>, parts: seq<RM.Part>, tracks: seq<RM.Track>) {
    && |segmentParts| == |parts|
    && forall m :: 0 <= m < |parts| ==> HasIDs(parts[m], tracks) && HoldsPart(segmentParts[m], parts[m])
  }

  lemma {:induction false} PartsItemsAt(
    s: nat, segmentParts: seq<seq<Run>>, parts: seq<RM.Part>, tracks: seq<RM.Track>, q: Request, i: nat)
    requires RM.ValidTracks(tracks) && HaveDistinctIDs(tracks) && q.tracks == ToInit(tracks) && i < |tracks|
    requires ArePartsOf(segmentParts, parts, tracks)
    ensures AreItemsIn(PartsItems(segmentParts, q, i), parts, q, i, PartsPositions(s, parts, q, i))
    decreases |parts|
  {
    if parts != [] {
      var m := |parts| - 1;
      PartsItemsAt(s, segmentParts[..m], parts[..m], tracks, q, i);
      var order :| IsPart(segmentParts[m], parts[m], order);
      PartContributes(tracks, segmentParts[m], parts[m], order, q, i);
      PartItemsAt(s, parts, m, q, i);
      AppendItems(PartsItems(segmentParts[..m], q, i), TrackItems(parts[m], q, i), parts[..m], parts, q, i,
                  PartsPositions(s, parts[..m], q, i), PartPositions(s, m, parts[m], q, i));
    }
  }

  // several segments, given by the parts that are played of each and the requests with which they are played

  predicate Have(at: seq<Request>, i: nat) {
    forall s :: 0 <= s < |at| ==> i < |at[s].tracks|
  }

  function Positions(played: seq<seq<RM.Part>>, at: seq<Request>, i: nat): seq<Position>
    requires |played| == |at| && Have(at, i)
  {
    if played == [] then []
    else
      var s := |played| - 1;
      Positions(played[..s], at[..s], i) + PartsPositions(s, played[s], at[s], i)
  }

  /** The sample of track i at a position is played: it is in a part that is played, and not beyond the end. */
  predicate IsPlayed(played: seq<seq<RM.Part>>, at: seq<Request>, i: nat, x: Position)
    requires |played| == |at| && Have(at, i)
  {
    x.segment < |played| && IsPlayedIn(played[x.segment], at[x.segment], i, x)
  }

  lemma {:induction false} PositionsExactly(played: seq<seq<RM.Part>>, at: seq<Request>, i: nat, x: Position)
    requires |played| == |at| && Have(at, i)
    ensures x in Positions(played, at, i) <==> IsPlayed(played, at, i, x)
    decreases |played|
  {
    if played != [] {
      var s := |played| - 1;
      PositionsExactly(played[..s], at[..s], i, x);
      PartsPositionsExactly(s, played[s], at[s], i, x);
    }
  }

  lemma {:induction false} PositionsInOrder(played: seq<seq<RM.Part>>, at: seq<Request>, i: nat)
    requires |played| == |at| && Have(at, i)
    ensures AreInOrder(Positions(played, at, i))
    decreases |played|
  {
    if played != [] {
      var s := |played| - 1;
      var a, b := Positions(played[..s], at[..s], i), PartsPositions(s, played[s], at[s], i);
      PositionsInOrder(played[..s], at[..s], i);
      PartsPositionsInOrder(s, played[s], at[s], i);
      forall x, y | x in a && y in b ensures IsBefore(x, y) {
        PositionsExactly(played[..s], at[..s], i, x);
        PartsPositionsExactly(s, played[s], at[s], i, y);
      }
      AppendInOrder(a, b);
    }
  }

  /** What a muxer gets for a position. */
  function ItemOf(played: seq<seq<RM.Part>>, at: seq<Request>, i: nat, x: Position): MM.Item
    requires |played| == |at| && Have(at, i) && IsPlayed(played, at, i, x)
  {
    ItemIn(played[x.segment], at[x.segment], i, x)
  }

  predicate AreItems(items: seq<MM.Item>, played: seq<seq<RM.Part>>, at: seq<Request>, i: nat, ps: seq<Position>)
    requires |played| == |at| && Have(at, i)
  {
    && |items| == |ps|
    && forall k :: 0 <= k < |ps| ==> IsPlayed(played, at, i, ps[k]) && items[k] == ItemOf(played, at, i, ps[k])
  }

  lemma {:induction false} AppendSegment(
    a: seq<MM.Item>, b: seq<MM.Item>, played: seq<seq<RM.Part>>, at: seq<Request>, i: nat, ps: seq<Position>,
    qs: seq<Position>)
    requires played != [] && |played| == |at| && Have(at, i)
    requires AreItems(a, played[..|played| - 1], at[..|played| - 1], i, ps)
    requires AreItemsIn(b, played[|played| - 1], at[|played| - 1], i, qs)
    requires forall x :: x in qs ==> x.segment == |played| - 1
    ensures AreItems(a + b, played, at, i, ps + qs)
  {
    var s := |played| - 1;
    forall k | 0 <= k < |ps + qs| ensures IsPlayed(played, at, i, (ps + qs)[k]) &&
      (a + b)[k] == ItemOf(played, at, i, (ps + qs)[k])
    {
      if k < |ps| {
        assert IsPlayed(played[..s], at[..s], i, ps[k]);
      } else {
        assert qs[k - |ps|] in qs;
      }
    }
  }

  // the segments of a recording

  /** A segment is a file, and these are the parts of it that are played on a request: up to the first one with
      a sample beyond the end on any track. */
  ghost predicate IsPlayedOf(
    parts: seq<RM.Part>, segment: SegmentFile, file: RM.File, tracks: seq<RM.Track>, streamID: seq<Byte>, q: Request)
    requires RM.ValidTracks(tracks)
  {
    && IsFile(segment, file, tracks, streamID) && q.tracks == ToInit(tracks)
    && (forall m :: 0 <= m < |file.parts| ==> HasIDs(file.parts[m], tracks))
    && parts == file.parts[..PlayedParts(segment.parts, q)]
  }

  lemma {:induction false} FirstPartsOf(
    segment: SegmentFile, file: RM.File, tracks: seq<RM.Track>, streamID: seq<Byte>, n: nat)
    requires RM.ValidTracks(tracks) && IsFile(segment, file, tracks, streamID) && n <= |file.parts|
    requires forall m :: 0 <= m < |file.parts| ==> HasIDs(file.parts[m], tracks)
    ensures ArePartsOf(segment.parts[..n], file.parts[..n], tracks)
  {
    forall m | 0 <= m < n ensures HasIDs(file.parts[..n][m], tracks) &&
      HoldsPart(segment.parts[..n][m], file.parts[..n][m])
    {
      assert segment.parts[..n][m] == segment.parts[m] && file.parts[..n][m] == file.parts[m];
    }
  }

  lemma {:induction false} SegmentItemsAt(
    parts: seq<RM.Part>, segment: SegmentFile, file: RM.File, tracks: seq<RM.Track>, streamID: seq<Byte>, q: Request,
    s: nat, i: nat)
    requires RM.ValidTracks(tracks) && HaveDistinctIDs(tracks) && i < |tracks| && i < |q.tracks|
    requires IsPlayedOf(parts, segment, file, tracks, streamID, q)
    ensures AreItemsIn(PartsItems(segment.parts[..PlayedParts(segment.parts, q)], q, i), parts, q, i,
                       PartsPositions(s, parts, q, i))
    ensures forall x :: x in PartsPositions(s, parts, q, i) ==> x.segment == s
  {
    FirstPartsOf(segment, file, tracks, streamID, PlayedParts(segment.parts, q));
    PartsItemsAt(s, segment.parts[..PlayedParts(segment.parts, q)], parts, tracks, q, i);
    forall x | x in PartsPositions(s, parts, q, i) ensures x.segment == s {
      PartsPositionsExactly(s, parts, q, i, x);
    }
  }

  /** The first segments are the files, played as they are when somebody plays from `start` on. */
  ghost predicate ArePlayedOf(
    played: seq<seq<RM.Part>>, segments: seq<SegmentFile>, files: seq<RM.File>, tracks: seq<RM.Track>,
    streamID: seq<Byte>,
    at: seq<Request>)
    requires RM.ValidTracks(tracks)
  {
    && |played| == |at| == |files| <= |segments|
    && forall s :: 0 <= s < |at| ==> IsPlayedOf(played[s], segments[s], files[s], tracks, streamID, at[s])
  }

  predicate AreRequests(at: seq<Request>, segments: seq<SegmentFile>, start: int, duration: int) {
    && |at| <= |segments|
    && (forall s :: 0 <= s < |at| ==> segments[s].init.mtxi.Some? == segments[0].init.mtxi.Some?)
    && forall s :: 0 <= s < |at| ==> at[s] == RequestOf(segments, s, start, duration)
  }

  lemma {:induction false} LastSegment(segments: seq<SegmentFile>, at: seq<Request>, start: int, duration: int, i: nat)
    requires at != [] && AreRequests(at, segments, start, duration) && i < |segments[0].init.tracks|
    ensures var s, q := |at| - 1, at[|at| - 1];
            && i < |q.tracks|
            && SegmentsItems(segments, |at|, start, duration, i) ==
               SegmentsItems(segments, s, start, duration, i) +
               PartsItems(segments[s].parts[..PlayedParts(segments[s].parts, q)], q, i)
  {
  }

  lemma {:induction false} SegmentsItemsAt(
    played: seq<seq<RM.Part>>, segments: seq<SegmentFile>, files: seq<RM.File>, tracks: seq<RM.Track>,
    streamID: seq<Byte>,
    at: seq<Request>, start: int, duration: int, i: nat)
    requires RM.ValidTracks(tracks) && HaveDistinctIDs(tracks) && i < |tracks|
    requires segments != [] && i < |segments[0].init.tracks|
    requires ArePlayedOf(played, segments, files, tracks, streamID, at) && AreRequests(at, segments, start, duration) &&
             Have(at, i)
    ensures AreItems(SegmentsItems(segments, |at|, start, duration, i), played, at, i, Positions(played, at, i))
    decreases |at|
  {
    if at != [] {
      var s := |at| - 1;
      SegmentsItemsAt(played[..s], segments, files[..s], tracks, streamID, at[..s], start, duration, i);
      LastSegment(segments, at, start, duration, i);
      SegmentItemsAt(played[s], segments[s], files[s], tracks, streamID, at[s], s, i);
      AppendSegment(SegmentsItems(segments, s, start, duration, i),
                    PartsItems(segments[s].parts[..PlayedParts(segments[s].parts, at[s])], at[s], i),
                    played, at, i, Positions(played[..s], at[..s], i), PartsPositions(s, played[s], at[s], i));
    }
  }

  // a whole playback

  /** A recording from one of its files on, the segments that hold these files, and a request. */
  datatype Session = Session(
    tracks: seq<RM.Track>, streamID: seq<Byte>, files: seq<RM.File>, segments: seq<SegmentFile>, start: int,
    duration: int)
  {
    /** The segments are the first files. */
    ghost predicate HoldsFiles() {
      && RM.ValidTracks(tracks) && HaveDistinctIDs(tracks)
      && segments != [] && |segments| <= |files|
      && forall s :: 0 <= s < |segments| ==> IsFile(segments[s], files[s], tracks, streamID)
    }

    /** Moreover, playback does not fail, which RecordingsPlay proves of recorded files. */
    ghost predicate Valid() {
      && HoldsFiles()
      && ValidTracks(segments[0].init.tracks) && SeekTo(segments, |segments|, start, duration).Some?
    }

    ghost function Result(): (r: Seeked)
      requires Valid()
      ensures 0 < r.played <= |segments|
      ensures forall k :: 0 <= k < r.played ==> segments[k].init.mtxi.Some? == segments[0].init.mtxi.Some?
    {
      SeekTo(segments, |segments|, start, duration).value
    }

    /** The requests with which the played segments are played. */
    ghost function At(): (at: seq<Request>)
      requires Valid()
      ensures |at| == Result().played && AreRequests(at, segments, start, duration)
    {
      seq(Result().played, s requires 0 <= s < Result().played => RequestOf(segments, s, start, duration))
    }

    /** The parts that are played of each segment: up to the first one with a sample beyond the end. */
    ghost function Played(): (played: seq<seq<RM.Part>>)
      requires Valid()
      ensures |played| == |At()|
    {
      seq(|At()|, s requires 0 <= s < |At()| =>
        assert IsFile(segments[s], files[s], tracks, streamID);
        files[s].parts[..PlayedParts(segments[s].parts, At()[s])])
    }

    /** Where the first segment begins, from the requested start. */
    ghost function Offset(): int
      requires Valid()
    {
      segments[0].start - start
    }

    /** The time that playback adds to the recorded time of every sample, in nanoseconds. */
    ghost function Shift(): int
      requires Valid()
    {
      Offset() - files[0].startDTS
    }
  }

  /** The files of the session are those of a recording, from number `first` on. */
  predicate IsOf(p: Session, inputs: seq<RR.Input>, c: RM.Settings, first: nat) {
    RR.ValidInputs(p.tracks, inputs) && first <= |Recorded(p.tracks, inputs, c)| &&
      p.files == Recorded(p.tracks, inputs, c)[first..]
  }

  lemma {:induction false} FileIsRecorded(p: Session, inputs: seq<RR.Input>, c: RM.Settings, first: nat, s: nat, m: nat)
    requires IsOf(p, inputs, c, first) && s < |p.files| && m < |p.files[s].parts|
    ensures HasIDs(p.files[s].parts[m], p.tracks)
    ensures forall i :: i in p.files[s].parts[m].tracks ==>
            IsRecordedTrack(p.files[s].parts[m].tracks[i], p.tracks[i], p.files[s].startDTS)
  {
    forall i | i in p.files[s].parts[m].tracks
      ensures i < |p.tracks| && p.files[s].parts[m].tracks[i].id == p.tracks[i].id
      ensures IsRecordedTrack(p.files[s].parts[m].tracks[i], p.tracks[i], p.files[s].startDTS)
    {
      RecordedTrack(p.tracks, inputs, c, first + s, m, i);
    }
  }

  lemma {:induction false} FileIsKnown(p: Session, inputs: seq<RR.Input>, c: RM.Settings, first: nat, s: nat)
    requires p.HoldsFiles() && IsOf(p, inputs, c, first) && s < |p.segments|
    ensures HasKnownRuns(p.segments[s], ToInit(p.tracks))
  {
    assert IsFile(p.segments[s], p.files[s], p.tracks, p.streamID);
    forall m | 0 <= m < |p.segments[s].parts| ensures AreKnown(p.segments[s].parts[m], ToInit(p.tracks)) {
      FileIsRecorded(p, inputs, c, first, s, m);
      assert HoldsPart(p.segments[s].parts[m], p.files[s].parts[m]);
      var order :| IsPart(p.segments[s].parts[m], p.files[s].parts[m], order);
      PartIsKnown(p.segments[s].parts[m], p.files[s].parts[m], order, p.tracks);
    }
  }

  lemma {:induction false} PartIsKnown(runs: seq<Run>, p: RM.Part, order: seq<nat>, tracks: seq<RM.Track>)
    requires RM.ValidTracks(tracks) && HaveDistinctIDs(tracks) && IsPart(runs, p, order) && HasIDs(p, tracks)
    ensures AreKnown(runs, ToInit(tracks))
  {
    forall j | 0 <= j < |runs| ensures FindTrack(ToInit(tracks), runs[j].trackID).Some? {
      FoundByID(tracks, order[j]);
    }
  }

  /** Playing a recording never fails. */
  lemma {:induction false} RecordingsPlay(p: Session, inputs: seq<RR.Input>, c: RM.Settings, first: nat)
    requires p.HoldsFiles() && IsOf(p, inputs, c, first)
    ensures p.Valid()
  {
    assert IsFile(p.segments[0], p.files[0], p.tracks, p.streamID);
    forall s | 0 <= s < |p.segments| ensures HasKnownRuns(p.segments[s], p.segments[0].init.tracks) {
      FileIsKnown(p, inputs, c, first, s);
    }
    KnownSegmentsPlay(p.segments, |p.segments|, p.start, p.duration);
  }

  lemma {:induction false} SessionSegment(p: Session, inputs: seq<RR.Input>, c: RM.Settings, first: nat, s: nat)
    requires p.Valid() && IsOf(p, inputs, c, first) && s < |p.At()|
    ensures IsPlayedOf(p.Played()[s], p.segments[s], p.files[s], p.tracks, p.streamID, p.At()[s])
    ensures |p.At()[s].tracks| == |p.tracks| && p.segments[0].init.tracks == ToInit(p.tracks)
    ensures p.segments[0].init == Header(p.files[0], p.tracks, p.streamID)
    ensures p.segments[s].init == Header(p.files[s], p.tracks, p.streamID)
  {
    assert IsFile(p.segments[s], p.files[s], p.tracks, p.streamID) &&
           IsFile(p.segments[0], p.files[0], p.tracks, p.streamID);
    forall m | 0 <= m < |p.files[s].parts| ensures HasIDs(p.files[s].parts[m], p.tracks) {
      FileIsRecorded(p, inputs, c, first, s, m);
    }
  }

  lemma {:induction false} SessionFacts(p: Session, inputs: seq<RR.Input>, c: RM.Settings, first: nat, i: nat)
    requires p.Valid() && IsOf(p, inputs, c, first) && i < |p.tracks|
    ensures ArePlayedOf(p.Played(), p.segments, p.files[..|p.At()|], p.tracks, p.streamID, p.At())
    ensures Have(p.At(), i) && i < |p.segments[0].init.tracks|
  {
    forall s | 0 <= s < |p.At()|
      ensures IsPlayedOf(p.Played()[s], p.segments[s], p.files[s], p.tracks, p.streamID, p.At()[s])
      ensures i < |p.At()[s].tracks|
    {
      SessionSegment(p, inputs, c, first, s);
    }
    SessionSegment(p, inputs, c, first, 0);
  }

  lemma {:induction false} SessionItems(p: Session, inputs: seq<RR.Input>, c: RM.Settings, first: nat, i: nat)
    requires p.Valid() && IsOf(p, inputs, c, first) && i < |p.tracks|
    ensures Have(p.At(), i) && MM.ValidCalls(p.Result().calls, |p.tracks|)
    ensures AreItems(MR.History(p.Result().calls, i), p.Played(), p.At(), i, Positions(p.Played(), p.At(), i))
  {
    SessionFacts(p, inputs, c, first, i);
    SessionSegment(p, inputs, c, first, 0);
    SeekHistory(p.segments, |p.segments|, p.start, p.duration, i);
    SegmentsItemsAt(p.Played(), p.segments, p.files[..|p.At()|], p.tracks, p.streamID, p.At(), p.start, p.duration, i);
  }

  /** What a muxer gets of a track are the recorded samples that are played, each once and in order: those of
      the segments that are played, up to the first part with a sample beyond the end on any track, that are
      not beyond the end themselves. */
  lemma {:induction false} MuxersGetRecordedSamples(
    p: Session, inputs: seq<RR.Input>, c: RM.Settings, first: nat, i: nat)
    requires p.Valid() && IsOf(p, inputs, c, first) && i < |p.tracks|
    ensures Have(p.At(), i) && MM.ValidCalls(p.Result().calls, |p.tracks|)
    ensures AreItems(MR.History(p.Result().calls, i), p.Played(), p.At(), i, Positions(p.Played(), p.At(), i))
    ensures AreInOrder(Positions(p.Played(), p.At(), i))
    ensures forall x :: x in Positions(p.Played(), p.At(), i) <==> IsPlayed(p.Played(), p.At(), i, x)
  {
    SessionItems(p, inputs, c, first, i);
    PositionsInOrder(p.Played(), p.At(), i);
    forall x ensures x in Positions(p.Played(), p.At(), i) <==> IsPlayed(p.Played(), p.At(), i, x) {
      PositionsExactly(p.Played(), p.At(), i, x);
    }
  }

  // times

  /** The recorded sample at a position. */
  function SampleAt(files: seq<RM.File>, i: nat, x: Position): RM.Sample
    requires IsRecordedAt(files, i, x)
  {
    files[x.segment].parts[x.part].tracks[i].samples[x.sample]
  }

  predicate IsRecordedAt(files: seq<RM.File>, i: nat, x: Position) {
    && x.segment < |files| && x.part < |files[x.segment].parts| && i in files[x.segment].parts[x.part].tracks
    && x.sample < |files[x.segment].parts[x.part].tracks[i].samples|
  }

  /** Up to this sample, the gaps in its part fit into 32 bits. */
  predicate GapsFitAt(files: seq<RM.File>, i: nat, x: Position)
    requires IsRecordedAt(files, i, x)
  {
    RT.GapsFit(files[x.segment].parts[x.part].tracks[i].samples, x.sample)
  }

  /** How the segments relate to the recorded files, as far as the times of track i are concerned. */
  ghost predicate ArePlayedFrom(
    played: seq<seq<RM.Part>>, at: seq<Request>, files: seq<RM.File>, i: nat, track: RM.Track, offset: int)
  {
    && |played| == |at| <= |files| && Have(at, i) && 0 < track.timeScale
    && forall s :: 0 <= s < |at| ==> IsPlayedFrom(played[s], at[s], files[0].startDTS, files[s], i, track, offset)
  }

  predicate IsPlayedFrom(
    parts: seq<RM.Part>, q: Request, firstStart: int, file: RM.File, i: nat, track: RM.Track, offset: int)
    requires i < |q.tracks| && 0 < track.timeScale
  {
    && parts <= file.parts
    && q.Start(i) == DurationGoToMp4(file.startDTS - firstStart + offset, track.timeScale)
    && forall m :: 0 <= m < |file.parts| && i in file.parts[m].tracks ==>
                     IsRecordedTrack(file.parts[m].tracks[i], track, file.startDTS)
  }

  /** Where a played sample comes from, with the facts about its part. */
  lemma {:induction false} PlayedIsRecorded(
    played: seq<seq<RM.Part>>, at: seq<Request>, files: seq<RM.File>, i: nat, track: RM.Track, offset: int, x: Position)
    requires ArePlayedFrom(played, at, files, i, track, offset) && IsPlayed(played, at, i, x)
    ensures IsRecordedAt(files, i, x)
    ensures var f := files[x.segment];
            var pt := f.parts[x.part].tracks[i];
            && IsRecordedTrack(pt, track, f.startDTS)
            && ItemOf(played, at, i, x) ==
               ItemAt(ToRun(pt), DurationGoToMp4(f.startDTS - files[0].startDTS + offset, track.timeScale), x.sample)
  {
    assert IsPlayedFrom(played[x.segment], at[x.segment], files[0].startDTS, files[x.segment], i, track, offset);
  }

  /** An item is the recorded sample at a position, and its time is within three ticks of the recorded one plus a
      constant if and only if the gaps before it in its part fit. */
  predicate IsOnTime(item: MM.Item, files: seq<RM.File>, i: nat, x: Position, shift: int, rate: int) {
    && IsRecordedAt(files, i, x)
    && var y := SampleAt(files, i, x);
       && item.payload == y.payload && item.nonSync == y.nonSync && item.ptsOffset == y.ptsOffset
       && (IsClose(item.dts, y.dts, shift, rate) <==> GapsFitAt(files, i, x))
  }

  predicate AreOnTime(items: seq<MM.Item>, files: seq<RM.File>, i: nat, ps: seq<Position>, shift: int, rate: int) {
    |items| == |ps| && forall k: nat :: k < |items| ==> IsOnTime(items[k], files, i, ps[k], shift, rate)
  }

  lemma {:induction false} ItemIsOnTime(
    played: seq<seq<RM.Part>>, at: seq<Request>, files: seq<RM.File>, i: nat, track: RM.Track, offset: int, x: Position)
    requires ArePlayedFrom(played, at, files, i, track, offset) && IsPlayed(played, at, i, x) &&
             track.timeScale <= SECOND
    ensures IsOnTime(ItemOf(played, at, i, x), files, i, x, offset - files[0].startDTS, track.timeScale)
  {
    PlayedIsRecorded(played, at, files, i, track, offset, x);
    var f := files[x.segment];
    PartTimes(f.parts[x.part].tracks[i], track, f.startDTS, files[0].startDTS, offset, x.sample);
  }

  lemma {:induction false} ItemsAreOnTime(
    items: seq<MM.Item>, played: seq<seq<RM.Part>>, at: seq<Request>, files: seq<RM.File>, i: nat, track: RM.Track,
    offset: int,
    ps: seq<Position>, shift: int)
    requires ArePlayedFrom(played, at, files, i, track, offset) && track.timeScale <= SECOND
    requires AreItems(items, played, at, i, ps)
    requires files != [] && shift == offset - files[0].startDTS
    ensures AreOnTime(items, files, i, ps, shift, track.timeScale)
  {
    forall k: nat | k < |items| ensures IsOnTime(items[k], files, i, ps[k], shift, track.timeScale) {
      assert IsPlayed(played, at, i, ps[k]) && items[k] == ItemOf(played, at, i, ps[k]);
      ItemIsOnTime(played, at, files, i, track, offset, ps[k]);
    }
  }

  // when playback goes forward

  /** When a sample is due, by what the files store: where its file and its part begin, and how long the samples
      before it in its part last. */
  function Due(files: seq<RM.File>, i: nat, rate: nat, offset: int, x: Position): int
    requires IsRecordedAt(files, i, x)
  {
    var f := files[x.segment];
    var pt := f.parts[x.part].tracks[i];
    DurationGoToMp4(f.startDTS - files[0].startDTS + offset, rate) + pt.baseTime + RT.SumDurations(pt.samples, x.sample)
  }

  predicate AreInSamePart(x: Position, y: Position) {
    x.segment == y.segment && x.part == y.part
  }

  /** If the k-th sample and the next one are in different parts, they are due in this order. */
  predicate IsBorderInOrder(files: seq<RM.File>, i: nat, rate: nat, offset: int, ps: seq<Position>, k: nat)
    requires k + 1 < |ps|
  {
    !AreInSamePart(ps[k], ps[k + 1]) ==>
      && IsRecordedAt(files, i, ps[k]) && IsRecordedAt(files, i, ps[k + 1])
      && Due(files, i, rate, offset, ps[k]) <= Due(files, i, rate, offset, ps[k + 1])
  }

  /** From part to part, the last sample that is played is due no later than the next one. */
  predicate AreBordersInOrder(files: seq<RM.File>, i: nat, rate: nat, offset: int, ps: seq<Position>) {
    forall k: nat :: k + 1 < |ps| ==> IsBorderInOrder(files, i, rate, offset, ps, k)
  }

  lemma {:induction false} ItemIsDue(
    played: seq<seq<RM.Part>>, at: seq<Request>, files: seq<RM.File>, i: nat, track: RM.Track, offset: int, x: Position)
    requires ArePlayedFrom(played, at, files, i, track, offset) && IsPlayed(played, at, i, x)
    ensures IsRecordedAt(files, i, x)
    ensures ItemOf(played, at, i, x).dts == Due(files, i, track.timeScale, offset, x)
  {
    PlayedIsRecorded(played, at, files, i, track, offset, x);
    SameDurations(files[x.segment].parts[x.part].tracks[i], x.sample);
  }

  /** Within a part, samples are due one after the other. */
  lemma {:induction false} DueInPart(files: seq<RM.File>, i: nat, rate: nat, offset: int, x: Position, y: Position)
    requires IsRecordedAt(files, i, x) && IsRecordedAt(files, i, y) && AreInSamePart(x, y) && x.sample <= y.sample
    ensures Due(files, i, rate, offset, x) <= Due(files, i, rate, offset, y)
    decreases y.sample
  {
    if x.sample < y.sample {
      DueInPart(files, i, rate, offset, x, y.(sample := y.sample - 1));
    }
  }

  lemma {:induction false} StepsMakeOrder(items: seq<MM.Item>, j: nat, k: nat)
    requires forall n: nat :: n + 1 < |items| ==> items[n].dts <= items[n + 1].dts
    requires j <= k < |items|
    ensures items[j].dts <= items[k].dts
    decreases k
  {
    if j < k {
      StepsMakeOrder(items, j, k - 1);
      assert items[k - 1].dts <= items[(k - 1) + 1].dts;
    }
  }

  /** Items that are due at these positions, in order within each part. */
  predicate AreDue(items: seq<MM.Item>, files: seq<RM.File>, i: nat, rate: nat, offset: int, ps: seq<Position>) {
    && |items| == |ps|
    && forall k: nat :: k < |ps| ==> IsRecordedAt(files, i, ps[k]) && items[k].dts == Due(files, i, rate, offset, ps[k])
  }

  lemma {:induction false} DueGoForwardIff(
    items: seq<MM.Item>, files: seq<RM.File>, i: nat, rate: nat, offset: int, ps: seq<Position>)
    requires AreDue(items, files, i, rate, offset, ps) && AreInOrder(ps)
    ensures MR.NonDecreasing(items) <==> AreBordersInOrder(files, i, rate, offset, ps)
  {
    if AreBordersInOrder(files, i, rate, offset, ps) {
      forall n: nat | n + 1 < |items| ensures items[n].dts <= items[n + 1].dts {
        assert IsBorderInOrder(files, i, rate, offset, ps, n);
        if AreInSamePart(ps[n], ps[n + 1]) {
          DueInPart(files, i, rate, offset, ps[n], ps[n + 1]);
        }
      }
      forall j, k | 0 <= j <= k < |items| ensures items[j].dts <= items[k].dts {
        StepsMakeOrder(items, j, k);
      }
    }
  }

  lemma {:induction false} ItemsAreDue(
    items: seq<MM.Item>, played: seq<seq<RM.Part>>, at: seq<Request>, files: seq<RM.File>, i: nat, track: RM.Track,
    offset: int, ps: seq<Position>)
    requires ArePlayedFrom(played, at, files, i, track, offset) && AreItems(items, played, at, i, ps)
    ensures AreDue(items, files, i, track.timeScale, offset, ps)
  {
    forall k: nat | k < |ps|
      ensures IsRecordedAt(files, i, ps[k]) && items[k].dts == Due(files, i, track.timeScale, offset, ps[k])
    {
      ItemIsDue(played, at, files, i, track, offset, ps[k]);
    }
  }

  lemma {:induction false} LaterIsNotDueEarlier(
    played: seq<seq<RM.Part>>, at: seq<Request>, files: seq<RM.File>, i: nat, track: RM.Track, offset: int, x: Position,
    y: Position)
    requires ArePlayedFrom(played, at, files, i, track, offset) && track.timeScale <= SECOND
    requires IsPlayed(played, at, i, x) && IsPlayed(played, at, i, y) && IsBefore(x, y) && !AreInSamePart(x, y)
    requires IsWellSpaced(files, i, track.timeScale)
    ensures ItemOf(played, at, i, x).dts <= ItemOf(played, at, i, y).dts
  {
    PlayedIsRecorded(played, at, files, i, track, offset, x);
    PlayedIsRecorded(played, at, files, i, track, offset, y);
    var f, g := files[x.segment], files[y.segment];
    var a, b := f.parts[x.part].tracks[i], g.parts[y.part].tracks[i];
    var start := DurationGoToMp4(f.startDTS - files[0].startDTS + offset, track.timeScale);
    assert AreSuccessive(files, i, x.segment, x.part, y.segment, y.part);
    if x.segment == y.segment {
      PartsInOrder(a, b, track, f.startDTS, start, x.sample, y.sample);
    } else {
      FilesInOrder(a, b, track, f.startDTS, g.startDTS, files[0].startDTS, offset, x.sample, y.sample);
    }
  }

  lemma {:induction false} WellSpacedBorders(
    items: seq<MM.Item>, played: seq<seq<RM.Part>>, at: seq<Request>, files: seq<RM.File>, i: nat, track: RM.Track,
    offset: int, ps: seq<Position>)
    requires ArePlayedFrom(played, at, files, i, track, offset) && track.timeScale <= SECOND
    requires AreItems(items, played, at, i, ps) && AreInOrder(ps) && IsWellSpaced(files, i, track.timeScale)
    ensures AreBordersInOrder(files, i, track.timeScale, offset, ps)
  {
    forall k: nat | k + 1 < |ps| ensures IsBorderInOrder(files, i, track.timeScale, offset, ps, k) {
      ItemIsDue(played, at, files, i, track, offset, ps[k]);
      ItemIsDue(played, at, files, i, track, offset, ps[k + 1]);
      if !AreInSamePart(ps[k], ps[k + 1]) {
        LaterIsNotDueEarlier(played, at, files, i, track, offset, ps[k], ps[k + 1]);
      }
    }
  }

  lemma {:induction false} SegmentIsPlayedFrom(
    p: Session, inputs: seq<RR.Input>, c: RM.Settings, first: nat, i: nat, s: nat)
    requires p.Valid() && IsOf(p, inputs, c, first) && i < |p.tracks| && s < |p.At()|
    ensures i < |p.At()[s].tracks|
    ensures IsPlayedFrom(p.Played()[s], p.At()[s], p.files[0].startDTS, p.files[s], i, p.tracks[i], p.Offset())
  {
    SessionSegment(p, inputs, c, first, s);
    FileTracksAreRecorded(p, inputs, c, first, s, i);
    var parts, q := p.Played()[s], p.At()[s];
    assert q == RequestOf(p.segments, s, p.start, p.duration);
    SegmentTimes(p.segments, s, p.start, p.files[0], p.files[s], p.tracks, p.streamID, parts, q, i, p.Offset());
  }

  lemma {:induction false} FileTracksAreRecorded(
    p: Session, inputs: seq<RR.Input>, c: RM.Settings, first: nat, s: nat, i: nat)
    requires IsOf(p, inputs, c, first) && s < |p.files| && i < |p.tracks|
    ensures forall m :: 0 <= m < |p.files[s].parts| && i in p.files[s].parts[m].tracks ==>
                          IsRecordedTrack(p.files[s].parts[m].tracks[i], p.tracks[i], p.files[s].startDTS)
  {
    forall m | 0 <= m < |p.files[s].parts| && i in p.files[s].parts[m].tracks
      ensures IsRecordedTrack(p.files[s].parts[m].tracks[i], p.tracks[i], p.files[s].startDTS)
    {
      FileIsRecorded(p, inputs, c, first, s, m);
    }
  }

  lemma {:induction false} SegmentTimes(
    segments: seq<SegmentFile>, s: nat, start: int, firstFile: RM.File, file: RM.File, tracks: seq<RM.Track>,
    streamID: seq<Byte>,
    parts: seq<RM.Part>, q: Request, i: nat, offset: int)
    requires RM.ValidTracks(tracks) && i < |tracks| && s < |segments| && offset == segments[0].start - start
    requires segments[0].init == Header(firstFile, tracks, streamID) &&
             segments[s].init == Header(file, tracks, streamID)
    requires q.startDTS == Offset(segments, s, start) && IsPlayedOf(parts, segments[s], file, tracks, streamID, q)
    requires forall m :: 0 <= m < |file.parts| && i in file.parts[m].tracks ==>
                           IsRecordedTrack(file.parts[m].tracks[i], tracks[i], file.startDTS)
    ensures i < |q.tracks|
    ensures IsPlayedFrom(parts, q, firstFile.startDTS, file, i, tracks[i], offset)
  {
    StartOfFile(segments, s, start, firstFile, file, tracks, streamID, q, i);
  }

  /** A file is played from where it began, counted from the first one. */
  lemma {:induction false} StartOfFile(
    segments: seq<SegmentFile>, s: nat, start: int, firstFile: RM.File, file: RM.File, tracks: seq<RM.Track>,
    streamID: seq<Byte>,
    q: Request, i: nat)
    requires RM.ValidTracks(tracks) && i < |tracks| && s < |segments| && q.tracks == ToInit(tracks)
    requires segments[0].init == Header(firstFile, tracks, streamID) &&
             segments[s].init == Header(file, tracks, streamID)
    requires q.startDTS == Offset(segments, s, start)
    ensures q.Start(i) ==
            DurationGoToMp4(file.startDTS - firstFile.startDTS + (segments[0].start - start), tracks[i].timeScale)
  {
    assert ToInit(tracks)[i].timeScale == tracks[i].timeScale;
  }

  lemma {:induction false} SessionIsPlayedFrom(p: Session, inputs: seq<RR.Input>, c: RM.Settings, first: nat, i: nat)
    requires p.Valid() && IsOf(p, inputs, c, first) && i < |p.tracks|
    ensures ArePlayedFrom(p.Played(), p.At(), p.files, i, p.tracks[i], p.Offset())
  {
    SessionFacts(p, inputs, c, first, i);
    forall s | 0 <= s < |p.At()|
      ensures IsPlayedFrom(p.Played()[s], p.At()[s], p.files[0].startDTS, p.files[s], i, p.tracks[i], p.Offset())
    {
      SegmentIsPlayedFrom(p, inputs, c, first, i, s);
    }
  }

  /** The samples of track i on both sides of every border between parts are due in order. */
  ghost predicate HasBordersInOrder(p: Session, i: nat)
    requires p.Valid() && i < |p.tracks|
  {
    Have(p.At(), i) &&
      AreBordersInOrder(p.files, i, p.tracks[i].timeScale, p.Offset(), Positions(p.Played(), p.At(), i))
  }

  /** The muxers are never sent back in time on a track if and only if the played samples on both sides of every
      border between parts are due in order. */
  lemma {:induction false} PlaybackGoesForwardIff(p: Session, inputs: seq<RR.Input>, c: RM.Settings, first: nat, i: nat)
    requires p.Valid() && IsOf(p, inputs, c, first) && i < |p.tracks|
    ensures MR.NonDecreasing(MR.History(p.Result().calls, i)) <==> HasBordersInOrder(p, i)
  {
    SessionItems(p, inputs, c, first, i);
    SessionIsPlayedFrom(p, inputs, c, first, i);
    var played, at, h := p.Played(), p.At(), MR.History(p.Result().calls, i);
    PositionsInOrder(played, at, i);
    ItemsAreDue(h, played, at, p.files, i, p.tracks[i], p.Offset(), Positions(played, at, i));
    DueGoForwardIff(h, p.files, i, p.tracks[i].timeScale, p.Offset(), Positions(played, at, i));
  }

  lemma {:induction false} OrderOfPositions(ps: seq<Position>, j: nat, k: nat)
    requires AreInOrder(ps) && j < |ps| && k < |ps| && IsBefore(ps[j], ps[k])
    ensures j < k
  {
  }

  lemma {:induction false} DueInWrongOrder(
    items: seq<MM.Item>, files: seq<RM.File>, i: nat, rate: nat, offset: int, ps: seq<Position>, x: Position,
    y: Position)
    requires AreDue(items, files, i, rate, offset, ps) && AreInOrder(ps) && x in ps && y in ps && IsBefore(x, y)
    requires IsRecordedAt(files, i, x) && IsRecordedAt(files, i, y)
    requires Due(files, i, rate, offset, x) > Due(files, i, rate, offset, y)
    ensures !MR.NonDecreasing(items)
  {
    var j: nat :| j < |ps| && ps[j] == x;
    var k: nat :| k < |ps| && ps[k] == y;
    OrderOfPositions(ps, j, k);
    assert items[j].dts > items[k].dts;
  }

  /** Two played samples that are due in the wrong order send a muxer back in time. */
  lemma {:induction false} WrongOrderIsSeen(
    p: Session, inputs: seq<RR.Input>, c: RM.Settings, first: nat, i: nat, x: Position, y: Position)
    requires p.Valid() && IsOf(p, inputs, c, first) && i < |p.tracks| && Have(p.At(), i) && IsBefore(x, y)
    requires IsPlayed(p.Played(), p.At(), i, x) && IsPlayed(p.Played(), p.At(), i, y)
    requires IsRecordedAt(p.files, i, x) && IsRecordedAt(p.files, i, y)
    requires Due(p.files, i, p.tracks[i].timeScale, p.Offset(), x) >
             Due(p.files, i, p.tracks[i].timeScale, p.Offset(), y)
    ensures !MR.NonDecreasing(MR.History(p.Result().calls, i))
  {
    MuxersGetRecordedSamples(p, inputs, c, first, i);
    SessionIsPlayedFrom(p, inputs, c, first, i);
    var ps, h := Positions(p.Played(), p.At(), i), MR.History(p.Result().calls, i);
    ItemsAreDue(h, p.Played(), p.At(), p.files, i, p.tracks[i], p.Offset(), ps);
    DueInWrongOrder(h, p.files, i, p.tracks[i].timeScale, p.Offset(), ps, x, y);
  }

  /** If the recorded samples of a track are well spaced, playback goes forward, wherever it starts and ends. */
  lemma {:induction false} PlaybackGoesForward(p: Session, inputs: seq<RR.Input>, c: RM.Settings, first: nat, i: nat)
    requires p.Valid() && IsOf(p, inputs, c, first) && i < |p.tracks| && p.tracks[i].timeScale <= SECOND
    requires IsWellSpaced(p.files, i, p.tracks[i].timeScale)
    ensures MR.NonDecreasing(MR.History(p.Result().calls, i))
  {
    SessionItems(p, inputs, c, first, i);
    SessionIsPlayedFrom(p, inputs, c, first, i);
    var played, at, h := p.Played(), p.At(), MR.History(p.Result().calls, i);
    PositionsInOrder(played, at, i);
    WellSpacedBorders(h, played, at, p.files, i, p.tracks[i], p.Offset(), Positions(played, at, i));
    PlaybackGoesForwardIff(p, inputs, c, first, i);
  }

  // on the screen

  function Clocks(tracks: seq<RM.Track>): (clocks: seq<nat>)
    requires RM.ValidTracks(tracks)
    ensures |clocks| == |tracks| && forall i :: 0 <= i < |tracks| ==> clocks[i] == tracks[i].timeScale
  {
    seq(|tracks|, i requires 0 <= i < |tracks| => tracks[i].timeScale)
  }

  /** A shown sample is the recorded one at this position; if it is not before the requested start, its time is
      right if and only if the gaps before it in its part fit. */
  predicate IsShownAt(f: MT.Shown, files: seq<RM.File>, i: nat, x: Position, visible: bool, shift: int, rate: int) {
    && IsRecordedAt(files, i, x)
    && var y := SampleAt(files, i, x);
       && f.payload == y.payload && f.nonSync == y.nonSync && f.ptsOffset == y.ptsOffset
       && (visible ==> (IsClose(f.dts, y.dts, shift, rate) <==> GapsFitAt(files, i, x)))
  }

  /** What is shown is, sample by sample, what is at these positions, the first g of them left out. */
  predicate ShowsExactly(
    f: seq<MT.Shown>, files: seq<RM.File>, i: nat, ps: seq<Position>, g: nat, v: nat, shift: int, rate: int)
  {
    g + |f| == |ps| && forall k: nat :: k < |f| ==> IsShownAt(f[k], files, i, ps[g + k], g + k >= v, shift, rate)
  }

  lemma {:induction false} ShownAtPosition(
    f: MT.Shown, item: MM.Item, files: seq<RM.File>, i: nat, x: Position, visible: bool, shift: int, rate: int)
    requires IsOnTime(item, files, i, x, shift, rate) && MT.IsShownAs(f, item) && (visible ==> f.dts == item.dts)
    ensures IsShownAt(f, files, i, x, visible, shift, rate)
  {
  }

  lemma {:induction false} SampleIsShown(f: seq<MT.Shown>, h: seq<MM.Item>, g: nat, k: nat)
    requires MR.FirstVisible(h) < |h| && MT.ShowFrom(f, h, g) && MT.OnTimeFrom(f, h, g) && k < |f|
    ensures MT.IsShownAs(f[k], h[g + k]) && (g + k >= MR.FirstVisible(h) ==> f[k].dts == h[g + k].dts)
  {
  }

  /** What the fragmented muxer makes of items that come from these positions, if it shows them on time. */
  lemma {:induction false} ShownAtPositions(
    f: seq<MT.Shown>, h: seq<MM.Item>, files: seq<RM.File>, i: nat, ps: seq<Position>, shift: int, rate: int)
    requires AreOnTime(h, files, i, ps, shift, rate)
    requires MR.FirstVisible(h) < |h| && |f| == |h| - MR.GopStart(h)
    requires MT.ShowFrom(f, h, MR.GopStart(h)) && MT.OnTimeFrom(f, h, MR.GopStart(h))
    ensures ShowsExactly(f, files, i, ps, MR.GopStart(h), MR.FirstVisible(h), shift, rate)
  {
    var g, v := MR.GopStart(h), MR.FirstVisible(h);
    forall k: nat | k < |f| ensures IsShownAt(f[k], files, i, ps[g + k], g + k >= v, shift, rate) {
      SampleIsShown(f, h, g, k);
      ShownAtPosition(f[k], h[g + k], files, i, ps[g + k], g + k >= v, shift, rate);
    }
  }

  lemma {:induction false} CallsAreShown(
    timeScales: seq<nat>, calls: seq<MM.Call>, files: seq<RM.File>, i: nat, ps: seq<Position>, shift: int, rate: int)
    requires MA.Proper(timeScales, calls) && i < |timeScales| && timeScales[i] <= SECOND && MT.IsVisible(calls, i)
    requires MR.NonDecreasing(MR.History(calls, i)) && AreOnTime(MR.History(calls, i), files, i, ps, shift, rate)
    ensures var h := MR.History(calls, i);
            ShowsExactly(MT.FragmentedOutput(timeScales, calls, i), files, i, ps, MR.GopStart(h), MR.FirstVisible(h),
                         shift, rate)
  {
    MT.MuxersAgree(timeScales, calls, i);
    MT.DropsMeansGoesBack(MR.History(calls, i));
    ShownAtPositions(MT.FragmentedOutput(timeScales, calls, i), MR.History(calls, i), files, i, ps, shift, rate);
  }

  /** The samples that are shown are those at these positions, the first g of them left out. */
  predicate ShowsSamples(f: seq<MT.Shown>, files: seq<RM.File>, i: nat, ps: seq<Position>, g: nat) {
    && g + |f| == |ps|
    && forall k: nat :: k < |f| ==> IsRecordedAt(files, i, ps[g + k]) && IsSampleAt(f[k], files, i, ps[g + k])
  }

  predicate IsSampleAt(f: MT.Shown, files: seq<RM.File>, i: nat, x: Position)
    requires IsRecordedAt(files, i, x)
  {
    var y := SampleAt(files, i, x);
    f.payload == y.payload && f.nonSync == y.nonSync && f.ptsOffset == y.ptsOffset
  }

  /** Items that are the recorded samples at these positions. */
  predicate AreSamples(items: seq<MM.Item>, files: seq<RM.File>, i: nat, ps: seq<Position>) {
    && |items| == |ps|
    && forall k: nat :: k < |ps| ==> IsRecordedAt(files, i, ps[k]) && IsItemAt(items[k], files, i, ps[k])
  }

  predicate IsItemAt(item: MM.Item, files: seq<RM.File>, i: nat, x: Position)
    requires IsRecordedAt(files, i, x)
  {
    var y := SampleAt(files, i, x);
    item.payload == y.payload && item.nonSync == y.nonSync && item.ptsOffset == y.ptsOffset
  }

  lemma {:induction false} ItemsAreSamples(
    items: seq<MM.Item>, played: seq<seq<RM.Part>>, at: seq<Request>, files: seq<RM.File>, i: nat, track: RM.Track,
    offset: int, ps: seq<Position>)
    requires ArePlayedFrom(played, at, files, i, track, offset) && AreItems(items, played, at, i, ps)
    ensures AreSamples(items, files, i, ps)
  {
    forall k: nat | k < |ps| ensures IsRecordedAt(files, i, ps[k]) && IsItemAt(items[k], files, i, ps[k]) {
      PlayedIsRecorded(played, at, files, i, track, offset, ps[k]);
    }
  }

  lemma {:induction false} ShownAreSamples(
    f: seq<MT.Shown>, h: seq<MM.Item>, files: seq<RM.File>, i: nat, ps: seq<Position>)
    requires AreSamples(h, files, i, ps)
    ensures ShowsSamples(f, files, i, ps, MR.GopStart(h)) <==> MT.ShowsAll(f, h)
  {
    var g := MR.GopStart(h);
    if ShowsSamples(f, files, i, ps, g) {
      forall k | 0 <= k < |f| ensures MT.IsShownAs(f[k], h[g + k]) {
        assert IsItemAt(h[g + k], files, i, ps[g + k]) && IsSampleAt(f[k], files, i, ps[g + k]);
      }
    }
    if MT.ShowsAll(f, h) {
      forall k: nat | k < |f| ensures IsRecordedAt(files, i, ps[g + k]) && IsSampleAt(f[k], files, i, ps[g + k]) {
        assert IsItemAt(h[g + k], files, i, ps[g + k]) && MT.IsShownAs(f[k], h[g + k]);
      }
    }
  }

  /** Each sample that a muxer gets is the recorded one at its position, on time if and only if the gaps fit. */
  lemma {:induction false} MuxersGetSamplesOnTime(p: Session, inputs: seq<RR.Input>, c: RM.Settings, first: nat, i: nat)
    requires p.Valid() && IsOf(p, inputs, c, first) && i < |p.tracks| && p.tracks[i].timeScale <= SECOND
    ensures Have(p.At(), i)
    ensures AreOnTime(MR.History(p.Result().calls, i), p.files, i, Positions(p.Played(), p.At(), i), p.Shift(),
                      p.tracks[i].timeScale)
  {
    SessionItems(p, inputs, c, first, i);
    SessionIsPlayedFrom(p, inputs, c, first, i);
    ItemsAreOnTime(MR.History(p.Result().calls, i), p.Played(), p.At(), p.files, i, p.tracks[i],
                   p.Offset(), Positions(p.Played(), p.At(), i), p.Shift());
  }

  lemma {:induction false} SessionIsProper(p: Session, inputs: seq<RR.Input>, c: RM.Settings, first: nat, i: nat)
    requires p.Valid() && IsOf(p, inputs, c, first) && i < |p.tracks|
    ensures MA.Proper(Clocks(p.tracks), p.Result().calls)
  {
    SessionItems(p, inputs, c, first, i);
  }

  /** Of every track that has a visible sample, the fragmented muxer shows exactly the recorded samples that are
      played, from the last sync sample at or before the first visible one, each once and in order, if and only
      if no sync sample from before the requested start is played after a visible one. */
  lemma {:induction false} RecordedSamplesAreShownIff(
    p: Session, inputs: seq<RR.Input>, c: RM.Settings, first: nat, i: nat)
    requires p.Valid() && IsOf(p, inputs, c, first) && i < |p.tracks| && MT.IsVisible(p.Result().calls, i)
    ensures MM.ValidCalls(p.Result().calls, |p.tracks|) && Have(p.At(), i)
    ensures ShowsSamples(MT.FragmentedOutput(Clocks(p.tracks), p.Result().calls, i), p.files, i,
                         Positions(p.Played(), p.At(), i), MR.GopStart(MR.History(p.Result().calls, i))) <==>
            !MR.Drops(MR.History(p.Result().calls, i))
  {
    SessionIsProper(p, inputs, c, first, i);
    var calls, f := p.Result().calls, MT.FragmentedOutput(Clocks(p.tracks), p.Result().calls, i);
    SessionItems(p, inputs, c, first, i);
    SessionIsPlayedFrom(p, inputs, c, first, i);
    ItemsAreSamples(MR.History(calls, i), p.Played(), p.At(), p.files, i, p.tracks[i], p.Offset(),
                    Positions(p.Played(), p.At(), i));
    MT.MuxersAgree(Clocks(p.tracks), calls, i);
    ShownAreSamples(f, MR.History(calls, i), p.files, i, Positions(p.Played(), p.At(), i));
  }

  /** If the played samples of a track are due in order at every border between parts, and only then are all its
      times non-decreasing, each visible sample is moreover shown on time. */
  lemma {:induction false} RecordedSamplesAreShown(
    p: Session, inputs: seq<RR.Input>, c: RM.Settings, first: nat, i: nat)
    requires p.Valid() && IsOf(p, inputs, c, first)
    requires i < |p.tracks| && p.tracks[i].timeScale <= SECOND && MT.IsVisible(p.Result().calls, i)
    requires HasBordersInOrder(p, i)
    ensures MM.ValidCalls(p.Result().calls, |p.tracks|)
    ensures var h := MR.History(p.Result().calls, i);
            ShowsExactly(MT.FragmentedOutput(Clocks(p.tracks), p.Result().calls, i), p.files, i,
                         Positions(p.Played(), p.At(), i),
                         MR.GopStart(h), MR.FirstVisible(h), p.Shift(), p.tracks[i].timeScale)
  {
    SessionIsProper(p, inputs, c, first, i);
    PlaybackGoesForwardIff(p, inputs, c, first, i);
    MuxersGetSamplesOnTime(p, inputs, c, first, i);
    CallsAreShown(Clocks(p.tracks), p.Result().calls, p.files, i, Positions(p.Played(), p.At(), i), p.Shift(),
                  p.tracks[i].timeScale);
  }
}
