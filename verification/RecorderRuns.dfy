/** Whole recordings: what the files contain after any sequence of samples on any number of tracks. */
module RecorderRuns {
  import opened Options
  import opened Sequences
  import opened Rounding
  import opened RecorderModel
  import opened RecorderSafety

  /** A sample written to the recorder. */
  datatype Input = Input(track: nat, sample: Sample)

  predicate ValidInputs(tracks: seq<Track>, inputs: seq<Input>) {
    ValidTracks(tracks) && forall k :: 0 <= k < |inputs| ==> inputs[k].track < |tracks|
  }

  /** Recording stops at the first error. */
  function Record(tracks: seq<Track>, inputs: seq<Input>, c: Settings): (s: State)
    requires ValidInputs(tracks, inputs)
    ensures ValidTracks(s.tracks) && |s.tracks| == |tracks|
  {
    if inputs == [] then Create(tracks)
    else
      var s := Record(tracks, inputs[..|inputs| - 1], c);
      var x := inputs[|inputs| - 1];
      if s.failed then s else Write(s, x.track, x.sample, c)
  }

  /** The tracks of a recording start without pending samples. */
  predicate Fresh(tracks: seq<Track>) {
    forall i :: 0 <= i < |tracks| ==> tracks[i].next.None?
  }

  lemma {:induction false} RecordingIsRight(tracks: seq<Track>, inputs: seq<Input>, c: Settings)
    requires ValidInputs(tracks, inputs)
    ensures StorageIsRight(Record(tracks, inputs, c), c)
    decreases |inputs|
  {
    if inputs != [] {
      RecordingIsRight(tracks, inputs[..|inputs| - 1], c);
      var s := Record(tracks, inputs[..|inputs| - 1], c);
      var x := inputs[|inputs| - 1];
      if !s.failed {
        AcceptIsRight(s, x.track, x.sample, c);
        var (u, known) := Accept(s, x.track, x.sample);
        if known.Some? {
          StoreIsRight(u, x.track, known.value, c);
        }
      }
    }
  }

  /** Files are numbered 0, 1, 2, and so on, none is empty, and every part in them is within the size
      limit, has base times that are not negative and holds what the log says. */
  lemma {:induction false} FilesAreConsecutive(tracks: seq<Track>, inputs: seq<Input>, c: Settings, n: nat)
    requires ValidInputs(tracks, inputs) && n < |Record(tracks, inputs, c).files|
    ensures var f := Record(tracks, inputs, c).files[n];
            && f.number == n && f.parts != []
            && forall m :: 0 <= m < |f.parts| ==>
                             && f.parts[m].number == m && f.parts[m].size <= c.maxPartSize
                             && forall i :: i in f.parts[m].tracks ==>
                                              f.parts[m].tracks[i].baseTime >= 0 && f.parts[m].tracks[i].samples != []
  {
    RecordingIsRight(tracks, inputs, c);
    var s := Record(tracks, inputs, c);
    assert FileIsRight(s, n, c);
    var f := s.files[n];
    forall m | 0 <= m < |f.parts|
      ensures && f.parts[m].number == m && f.parts[m].size <= c.maxPartSize
              && forall i :: i in f.parts[m].tracks ==>
                               f.parts[m].tracks[i].baseTime >= 0 && f.parts[m].tracks[i].samples != []
    {
      assert PartIsRight(s.log, s.tracks, n, f.startDTS, f.parts[m], c.maxPartSize);
      forall i | i in f.parts[m].tracks
        ensures f.parts[m].tracks[i].baseTime >= 0 && f.parts[m].tracks[i].samples != []
      {
        assert TrackIsRight(s.log, s.tracks[i], i, n, f.startDTS, f.parts[m]);
      }
    }
  }

  // reading the files back

  function PartSamples(p: Part, i: nat): seq<Sample> {
    if i in p.tracks then p.tracks[i].samples else []
  }

  function PartsSamples(parts: seq<Part>, i: nat): seq<Sample> {
    if parts == [] then [] else PartsSamples(parts[..|parts| - 1], i) + PartSamples(parts[|parts| - 1], i)
  }

  function FilesSamples(files: seq<File>, i: nat): seq<Sample> {
    if files == [] then [] else FilesSamples(files[..|files| - 1], i) + PartsSamples(files[|files| - 1].parts, i)
  }

  /** The samples of one track in everything that has been or will be written, file by file and part by part. */
  function ReadBack(s: State, i: nat): seq<Sample> {
    FilesSamples(s.files, i) + (if s.segment.Some? then PartsSamples(AllParts(s.segment.value), i) else [])
  }

  /** The samples of one track that were not discarded, in the order in which they were written. */
  function Kept(log: seq<Fate>, i: nat): seq<Sample> {
    if log == [] then []
    else
      var f := log[|log| - 1];
      Kept(log[..|log| - 1], i) + (if f.track == i && f.part.Some? then [f.sample] else [])
  }

  lemma {:induction false} PartsSnoc(parts: seq<Part>, p: Part, i: nat)
    ensures PartsSamples(parts + [p], i) == PartsSamples(parts, i) + PartSamples(p, i)
  {
    assert (parts + [p])[..|parts|] == parts;
  }

  lemma {:induction false} FilesSnoc(files: seq<File>, f: File, i: nat)
    ensures FilesSamples(files + [f], i) == FilesSamples(files, i) + PartsSamples(f.parts, i)
  {
    assert (files + [f])[..|files|] == files;
  }

  lemma {:induction false} PreparePartReadsBack(g: Segment, dts: int, partDuration: int, i: nat)
    ensures PartsSamples(AllParts(PreparePart(g, dts, partDuration)), i) == PartsSamples(AllParts(g), i)
  {
    var h := PreparePart(g, dts, partDuration);
    var p := NewPart(g.nextPartNumber, dts);
    if g.curPart.None? || g.curPart.value.endDTS - g.curPart.value.startDTS >= partDuration {
      assert AllParts(h) == AllParts(g) + [p];
      PartsSnoc(AllParts(g), p, i);
    }
  }

  lemma {:induction false} KeepReadsBack(
    g: Segment, i: nat, track: Track, sample: Sample, dts: int, maxPartSize: nat, j: nat)
    requires track.timeScale > 0 && g.curPart.Some?
    ensures var r := PartWrite(g.curPart.value, i, track, sample, dts, g.startDTS, maxPartSize);
            r.Some? ==>
              PartsSamples(AllParts(g.(curPart := r)), j) ==
              PartsSamples(AllParts(g), j) + (if i == j then [sample] else [])
  {
    var p := g.curPart.value;
    var r := PartWrite(p, i, track, sample, dts, g.startDTS, maxPartSize);
    if r.Some? {
      PartsSnoc(g.written, p, j);
      PartsSnoc(g.written, r.value, j);
      var added := if i == j then [sample] else [];
      assert PartSamples(r.value, j) == PartSamples(p, j) + added;
      Regroup(PartsSamples(g.written, j), PartSamples(p, j), added);
    }
  }

  lemma {:induction false} SwitchReadsBack(s: State, i: nat)
    requires ValidTracks(s.tracks) && s.segment.Some? && AllParts(s.segment.value) != []
    ensures ReadBack(Switch(s), i) == ReadBack(s, i)
  {
    var g, t := s.segment.value, Switch(s);
    var h := CloseCurPart(g);
    assert h.written == AllParts(g);
    FilesSnoc(s.files, File(h.number, h.startDTS, h.startNTP, h.written, h.endDTS - h.startDTS), i);
  }

  lemma {:induction false} KeptSnoc(log: seq<Fate>, f: Fate, i: nat)
    ensures Kept(log + [f], i) == Kept(log, i) + (if f.track == i && f.part.Some? then [f.sample] else [])
  {
    assert (log + [f])[..|log|] == log;
  }

  lemma {:induction false} SegmentWriteReadsBack(
    g: Segment, i: nat, track: Track, sample: Sample, dts: int, c: Settings, j: nat)
    requires track.timeScale > 0
    ensures var (h, ok) := SegmentWrite(g, i, track, sample, dts, c);
            && PartsSamples(AllParts(h), j) == PartsSamples(AllParts(g), j) + (if ok && i == j then [sample] else [])
            && AllParts(h) != []
  {
    var g0 := g.(endDTS := Max(g.endDTS, dts + Dts(track, sample.duration)));
    assert AllParts(g0) == AllParts(g);
    PreparePartReadsBack(g0, dts, c.partDuration, j);
    KeepReadsBack(PreparePart(g0, dts, c.partDuration), i, track, sample, dts, c.maxPartSize, j);
  }

  /** What storing a sample of track i adds to what can be read back of track j. */
  function Addition(u: State, i: nat, sample: Sample, c: Settings, j: nat): seq<Sample>
    requires ValidTracks(u.tracks) && i < |u.tracks| && u.segment.Some?
  {
    var t := u.tracks[i];
    if SegmentWrite(u.segment.value, i, t, sample, Dts(t, sample.dts), c).1 && i == j then [sample] else []
  }

  lemma {:induction false} KeepAddsToFiles(u: State, i: nat, sample: Sample, c: Settings, j: nat)
    requires ValidTracks(u.tracks) && i < |u.tracks| && u.segment.Some?
    ensures ReadBack(Keep(u, i, sample, c), j) == ReadBack(u, j) + Addition(u, i, sample, c, j)
    ensures AllParts(Keep(u, i, sample, c).segment.value) != []
  {
    var t := u.tracks[i];
    SegmentWriteReadsBack(u.segment.value, i, t, sample, Dts(t, sample.dts), c, j);
    Regroup(FilesSamples(u.files, j), PartsSamples(AllParts(u.segment.value), j), Addition(u, i, sample, c, j));
  }

  lemma {:induction false} KeepAddsToLog(u: State, i: nat, sample: Sample, c: Settings, j: nat)
    requires ValidTracks(u.tracks) && i < |u.tracks| && u.segment.Some?
    ensures Kept(Keep(u, i, sample, c).log, j) == Kept(u.log, j) + Addition(u, i, sample, c, j)
  {
    var t := u.tracks[i];
    var (g, ok) := SegmentWrite(u.segment.value, i, t, sample, Dts(t, sample.dts), c);
    if ok {
      KeptSnoc(u.log, Fate(i, sample, g.number, Some(g.curPart.value.number)), j);
    }
  }

  lemma {:induction false} StoreReadsBack(s: State, i: nat, sample: Sample, c: Settings, j: nat)
    requires ValidTracks(s.tracks) && i < |s.tracks| && s.tracks[i].next.Some? && ReadBack(s, j) == Kept(s.log, j)
    ensures ReadBack(Store(s, i, sample, c), j) == Kept(Store(s, i, sample, c).log, j)
  {
    var dts := Dts(s.tracks[i], sample.dts);
    if s.segment.Some? && dts < s.segment.value.startDTS {
      KeptSnoc(s.log, Fate(i, sample, s.segment.value.number, None), j);
    } else {
      var u := if s.segment.None? then OpenSegment(s, dts, sample.ntp) else s;
      assert ReadBack(u, j) == ReadBack(s, j);
      KeepAddsToFiles(u, i, sample, c, j);
      KeepAddsToLog(u, i, sample, c, j);
      var v := Keep(u, i, sample, c);
      if !v.failed && MustSwitch(v, i, c) {
        SwitchReadsBack(v, j);
      }
    }
  }

  lemma {:induction false} RecordingReadsBack(tracks: seq<Track>, inputs: seq<Input>, c: Settings, j: nat)
    requires ValidInputs(tracks, inputs)
    ensures ReadBack(Record(tracks, inputs, c), j) == Kept(Record(tracks, inputs, c).log, j)
    decreases |inputs|
  {
    if inputs != [] {
      RecordingReadsBack(tracks, inputs[..|inputs| - 1], c, j);
      var s := Record(tracks, inputs[..|inputs| - 1], c);
      var x := inputs[|inputs| - 1];
      if !s.failed {
        var (u, known) := Accept(s, x.track, x.sample);
        if known.Some? {
          StoreReadsBack(u, x.track, known.value, c, j);
        }
      }
    }
  }

  /** When recording ends, the files hold exactly the samples that were kept, in order. */
  lemma {:induction false} ClosedFilesHoldWhatWasKept(tracks: seq<Track>, inputs: seq<Input>, c: Settings, i: nat)
    requires ValidInputs(tracks, inputs)
    ensures var s := Record(tracks, inputs, c);
            FilesSamples(Close(s).files, i) == Kept(s.log, i)
  {
    RecordingReadsBack(tracks, inputs, c, i);
    var s := Record(tracks, inputs, c);
    if s.segment.Some? {
      var h := CloseCurPart(s.segment.value);
      assert h.written == AllParts(s.segment.value);
      FilesSnoc(s.files, File(h.number, h.startDTS, h.startNTP, h.written, h.endDTS - h.startDTS), i);
    }
  }

  // what went in

  /** The samples of one track among the inputs. */
  function Inputs(inputs: seq<Input>, i: nat): seq<Sample> {
    if inputs == [] then []
    else
      var x := inputs[|inputs| - 1];
      Inputs(inputs[..|inputs| - 1], i) + (if x.track == i then [x.sample] else [])
  }

  /** The same samples with their timestamps raised to those of their predecessors. */
  function Raised(samples: seq<Sample>): (r: seq<Sample>)
    ensures |r| == |samples|
  {
    if samples == [] then []
    else
      var before := Raised(samples[..|samples| - 1]);
      var x := samples[|samples| - 1];
      before + [if before == [] then x else NotBefore(x, before[|before| - 1])]
  }

  function WithoutDuration(x: Sample): Sample {
    x.(duration := 0)
  }

  function Plain(samples: seq<Sample>): (r: seq<Sample>)
    ensures |r| == |samples| && forall k :: 0 <= k < |r| ==> r[k] == WithoutDuration(samples[k])
  {
    seq(|samples|, k requires 0 <= k < |samples| => WithoutDuration(samples[k]))
  }

  function SamplesOf(fates: seq<Fate>): (r: seq<Sample>)
    ensures |r| == |fates| && forall k :: 0 <= k < |r| ==> r[k] == fates[k].sample
  {
    seq(|fates|, k requires 0 <= k < |fates| => fates[k].sample)
  }

  /** Everything that is known about one track: what became of its past samples, then the pending one. */
  function History(s: State, i: nat): seq<Sample>
    requires i < |s.tracks|
  {
    SamplesOf(OfTrack(s.log, i)) + (if s.tracks[i].next.Some? then [s.tracks[i].next.value] else [])
  }

  /** What Store appends to the log when it does not fail. */
  lemma {:induction false} StoreLogs(s: State, i: nat, sample: Sample, c: Settings)
    requires ValidTracks(s.tracks) && i < |s.tracks| && s.tracks[i].next.Some?
    ensures var t := Store(s, i, sample, c);
            && t.tracks == s.tracks
            && (!t.failed && !s.failed ==>
                  |t.log| == |s.log| + 1 && t.log == s.log + [t.log[|s.log|]] &&
                  t.log[|s.log|].track == i && t.log[|s.log|].sample == sample)
  {
  }

  /** The last sample of a track's history, if any, and the one that a new sample becomes. */
  function Successor(h: seq<Sample>, sample: Sample): Sample {
    if h == [] then sample else NotBefore(sample, h[|h| - 1])
  }

  /** The history after another sample: the pending one gets its duration, the new one is pending. */
  function Extended(h: seq<Sample>, sample: Sample): seq<Sample> {
    if h == [] then [sample]
    else
      var next := Successor(h, sample);
      h[|h| - 1 := WithDuration(h[|h| - 1], next)] + [next]
  }

  lemma {:induction false} WriteOwnHistory(s: State, i: nat, sample: Sample, c: Settings)
    requires ValidTracks(s.tracks) && i < |s.tracks| && !s.failed && !Write(s, i, sample, c).failed
    requires s.tracks[i].next.None? ==> OfTrack(s.log, i) == []
    ensures History(Write(s, i, sample, c), i) == Extended(History(s, i), sample)
    ensures Write(s, i, sample, c).tracks[i].next.Some?
  {
    var t := Write(s, i, sample, c);
    var (u, known) := Accept(s, i, sample);
    if known.Some? {
      StoreLogs(u, i, known.value, c);
      Snoc(s.log, t.log[|s.log|], i, 0, 0);
      var h := OfTrack(s.log, i);
      assert SamplesOf(OfTrack(t.log, i)) == SamplesOf(h) + [known.value];
      assert History(s, i)[..|h|] == SamplesOf(h);
    }
  }

  lemma {:induction false} WriteOtherHistory(s: State, i: nat, sample: Sample, c: Settings, j: nat)
    requires ValidTracks(s.tracks) && i < |s.tracks| && j < |s.tracks| && i != j
    requires !s.failed && !Write(s, i, sample, c).failed
    ensures |Write(s, i, sample, c).tracks| == |s.tracks|
    ensures Write(s, i, sample, c).tracks[j] == s.tracks[j]
    ensures OfTrack(Write(s, i, sample, c).log, j) == OfTrack(s.log, j)
  {
    var t := Write(s, i, sample, c);
    var (u, known) := Accept(s, i, sample);
    if known.Some? {
      StoreLogs(u, i, known.value, c);
      Snoc(s.log, t.log[|s.log|], j, 0, 0);
    }
  }

  /** Each sample lasts until the next one, and none is older than its predecessor. */
  predicate IsChain(h: seq<Sample>) {
    forall k :: 0 <= k < |h| - 1 ==>
      h[k].dts <= h[k + 1].dts && h[k].duration == (h[k + 1].dts - h[k].dts) % 0x1_0000_0000
  }

  lemma {:induction false} ChainIsOrdered(h: seq<Sample>, j: nat, k: nat)
    requires IsChain(h) && j <= k < |h|
    ensures h[j].dts <= h[k].dts
    decreases k
  {
    if j < k {
      ChainIsOrdered(h, j, k - 1);
      assert h[k - 1].dts <= h[(k - 1) + 1].dts;
    }
  }

  lemma {:induction false} ExtendedIsChain(h: seq<Sample>, sample: Sample)
    requires IsChain(h)
    ensures IsChain(Extended(h, sample))
    ensures Plain(Extended(h, sample)) == Plain(h) + [WithoutDuration(Successor(h, sample))]
  {
    var e := Extended(h, sample);
    assert forall k :: 0 <= k < |h| - 1 ==> e[k] == h[k];
    assert forall k :: 0 <= k < |h| ==> WithoutDuration(e[k]) == WithoutDuration(h[k]);
  }

  lemma {:induction false} RaisedSnoc(samples: seq<Sample>, x: Sample)
    ensures Raised(samples + [x]) == Raised(samples) + [Successor(Raised(samples), x)]
  {
    assert (samples + [x])[..|samples|] == samples;
  }

  lemma {:induction false} PlainSuccessor(a: seq<Sample>, b: seq<Sample>, x: Sample)
    requires Plain(a) == Plain(b)
    ensures Plain(a) + [WithoutDuration(Successor(a, x))] == Plain(b + [Successor(b, x)])
  {
    LastOfPlain(a, b);
    assert Plain(b + [Successor(b, x)]) == Plain(b) + [WithoutDuration(Successor(b, x))];
  }

  ghost predicate HistoryIsRight(s: State, inputs: seq<Input>, i: nat)
    requires i < |s.tracks|
  {
    && (s.tracks[i].next.None? ==> OfTrack(s.log, i) == [])
    && IsChain(History(s, i))
    && Plain(History(s, i)) == Plain(Raised(Inputs(inputs, i)))
  }

  lemma {:induction false} HistoryStep(s: State, before: seq<Input>, x: Input, c: Settings, i: nat)
    requires ValidTracks(s.tracks) && i < |s.tracks| && x.track < |s.tracks| && HistoryIsRight(s, before, i)
    requires !s.failed && !Write(s, x.track, x.sample, c).failed
    ensures |Write(s, x.track, x.sample, c).tracks| == |s.tracks|
    ensures HistoryIsRight(Write(s, x.track, x.sample, c), before + [x], i)
  {
    assert (before + [x])[..|before|] == before;
    if x.track == i {
      WriteOtherTracks(s, i, x.sample, c);
      WriteOwnHistory(s, i, x.sample, c);
      ExtendedIsChain(History(s, i), x.sample);
      RaisedSnoc(Inputs(before, i), x.sample);
      PlainSuccessor(History(s, i), Raised(Inputs(before, i)), x.sample);
    } else {
      WriteOtherHistory(s, x.track, x.sample, c, i);
      assert Inputs(before + [x], i) == Inputs(before, i);
    }
  }

  lemma {:induction false} WriteOtherTracks(s: State, i: nat, sample: Sample, c: Settings)
    requires ValidTracks(s.tracks) && i < |s.tracks|
    ensures |Write(s, i, sample, c).tracks| == |s.tracks|
  {
  }

  lemma {:induction false} RecordingHistory(tracks: seq<Track>, inputs: seq<Input>, c: Settings, i: nat)
    requires ValidInputs(tracks, inputs) && Fresh(tracks) && i < |tracks|
    requires !Record(tracks, inputs, c).failed
    ensures HistoryIsRight(Record(tracks, inputs, c), inputs, i)
    decreases |inputs|
  {
    if inputs == [] {
      assert Plain(Raised(Inputs(inputs, i))) == [];
    } else {
      var before, x := inputs[..|inputs| - 1], inputs[|inputs| - 1];
      assert inputs == before + [x];
      RecordingHistory(tracks, before, c, i);
      HistoryStep(Record(tracks, before, c), before, x, c, i);
    }
  }

  lemma {:induction false} LastOfPlain(a: seq<Sample>, b: seq<Sample>)
    requires Plain(a) == Plain(b)
    ensures |a| == |b|
    ensures a != [] ==> a[|a| - 1].dts == b[|b| - 1].dts
  {
    assert |Plain(a)| == |Plain(b)|;
    if a != [] {
      assert Plain(a)[|a| - 1] == Plain(b)[|b| - 1];
    }
  }

  /** Conservation: on every track the samples that were stored or discarded, followed by the pending
      one, are the samples that were written, in order, with raised timestamps. */
  lemma {:induction false} NothingIsLost(tracks: seq<Track>, inputs: seq<Input>, c: Settings, i: nat)
    requires ValidInputs(tracks, inputs) && Fresh(tracks) && i < |tracks|
    requires !Record(tracks, inputs, c).failed
    ensures Plain(History(Record(tracks, inputs, c), i)) == Plain(Raised(Inputs(inputs, i)))
  {
    RecordingHistory(tracks, inputs, c, i);
  }

  /** A raised timestamp is the greatest seen so far. */
  lemma {:induction false} RaisedIsMaximum(samples: seq<Sample>, k: nat)
    requires k < |samples|
    ensures forall j :: 0 <= j <= k ==> samples[j].dts <= Raised(samples)[k].dts
    ensures exists j :: 0 <= j <= k && samples[j].dts == Raised(samples)[k].dts
    decreases |samples|
  {
    var n := |samples| - 1;
    var before := samples[..n];
    if k < n {
      RaisedIsMaximum(before, k);
      assert Raised(samples)[k] == Raised(before)[k];
      assert forall j :: 0 <= j <= k ==> before[j] == samples[j];
      var j :| 0 <= j <= k && before[j].dts == Raised(before)[k].dts;
      assert samples[j].dts == Raised(samples)[k].dts;
    } else if n > 0 {
      RaisedIsMaximum(before, n - 1);
      assert forall j :: 0 <= j <= n - 1 ==> before[j] == samples[j];
      var j :| 0 <= j <= n - 1 && before[j].dts == Raised(before)[n - 1].dts;
      assert samples[if samples[n].dts < before[j].dts then j else n].dts == Raised(samples)[k].dts;
    }
  }
}
