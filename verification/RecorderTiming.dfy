/** The time line of a recording: within a file the samples of a track follow each other, across its parts. */
module RecorderTiming {
  import opened Options
  import opened Sequences
  import opened Rounding
  import opened RecorderModel
  import opened RecorderSafety
  import opened RecorderRuns

  /** A sample lasts until the next one. */
  predicate Precedes(a: Sample, b: Sample) {
    a.dts <= b.dts && a.duration == (b.dts - a.dts) % UINT32
  }

  function Last(h: seq<Sample>): Sample
    requires h != []
  {
    h[|h| - 1]
  }

  lemma {:induction false} ChainSnoc(h: seq<Sample>, x: Sample)
    requires IsChain(h) && (h != [] ==> Precedes(Last(h), x))
    ensures IsChain(h + [x])
  {
  }

  /** The samples of a track in the segment that is being written, in order. */
  function InSegment(s: State, i: nat): seq<Sample> {
    if s.segment.Some? then PartsSamples(AllParts(s.segment.value), i) else []
  }

  predicate FilesAreChained(files: seq<File>, i: nat) {
    forall n :: 0 <= n < |files| ==> IsChain(PartsSamples(files[n].parts, i))
  }

  predicate IsChained(s: State, i: nat) {
    FilesAreChained(s.files, i) && IsChain(InSegment(s, i))
  }

  /** What the segment has of a track ends with the predecessor of the pending sample. */
  predicate IsLinked(s: State, i: nat)
    requires ValidTracks(s.tracks) && i < |s.tracks|
  {
    var h, t := InSegment(s, i), s.tracks[i];
    h != [] ==>
      && t.next.Some? && Precedes(Last(h), t.next.value)
      && s.segment.Some? && Dts(t, Last(h).dts) >= s.segment.value.startDTS
  }

  // storing one sample

  lemma {:induction false} KeepAdds(u: State, i: nat, sample: Sample, c: Settings, j: nat)
    requires ValidTracks(u.tracks) && i < |u.tracks| && u.segment.Some?
    ensures var v := Keep(u, i, sample, c);
            && v.segment.Some? && v.segment.value.startDTS == u.segment.value.startDTS && v.tracks == u.tracks &&
               v.files == u.files
            && (InSegment(v, j) == InSegment(u, j) ||
                (i == j && InSegment(v, j) == InSegment(u, j) + [sample]))
            && (i == j && !v.failed && !u.failed ==> InSegment(v, j) == InSegment(u, j) + [sample])
  {
    var t := u.tracks[i];
    SegmentWriteReadsBack(u.segment.value, i, t, sample, Dts(t, sample.dts), c, j);
  }

  lemma {:induction false} KeepIsChained(u: State, i: nat, sample: Sample, c: Settings, j: nat)
    requires ValidTracks(u.tracks) && i < |u.tracks| && u.segment.Some? && IsChained(u, j)
    requires i == j && InSegment(u, j) != [] ==> Precedes(Last(InSegment(u, j)), sample)
    ensures IsChained(Keep(u, i, sample, c), j)
  {
    KeepAdds(u, i, sample, c, j);
    if i == j {
      ChainSnoc(InSegment(u, j), sample);
    }
  }

  lemma {:induction false} KeepIsLinked(u: State, i: nat, sample: Sample, c: Settings, j: nat)
    requires ValidTracks(u.tracks) && i < |u.tracks| && j < |u.tracks| && u.segment.Some? && !u.failed
    requires if i == j then
               && u.tracks[i].next.Some? && Precedes(sample, u.tracks[i].next.value)
               && Dts(u.tracks[i], sample.dts) >= u.segment.value.startDTS
             else IsLinked(u, j)
    ensures !Keep(u, i, sample, c).failed ==> IsLinked(Keep(u, i, sample, c), j)
  {
    KeepAdds(u, i, sample, c, j);
  }

  lemma {:induction false} SwitchIsTimed(s: State, j: nat)
    requires ValidTracks(s.tracks) && j < |s.tracks| && s.segment.Some? && IsChained(s, j)
    ensures IsChained(Switch(s), j) && IsLinked(Switch(s), j)
  {
    var h, t := CloseCurPart(s.segment.value), Switch(s);
    assert h.written == AllParts(s.segment.value);
    assert t.files == s.files || t.files == s.files +
           [File(h.number, h.startDTS, h.startNTP, h.written, h.endDTS - h.startDTS)];
    assert InSegment(t, j) == [];
  }

  /** A sample that is discarded has no predecessor in the segment. */
  lemma {:induction false} LateIsFirst(s: State, i: nat)
    requires ValidTracks(s.tracks) && i < |s.tracks| && s.tracks[i].next.Some? && IsLinked(s, i)
    requires s.segment.Some? && Dts(s.tracks[i], s.tracks[i].next.value.dts) < s.segment.value.startDTS
    ensures InSegment(s, i) == []
  {
    var h := InSegment(s, i);
    if h != [] {
      MultiplyAndDivideMonotone(Last(h).dts, s.tracks[i].next.value.dts, SECOND, s.tracks[i].timeScale);
      assert false;
    }
  }

  lemma {:induction false} StoreIsTimed(s: State, i: nat, sample: Sample, c: Settings, j: nat)
    requires ValidTracks(s.tracks) && i < |s.tracks| && s.tracks[i].next.Some? && !s.failed && j < |s.tracks|
    requires IsChained(s, j) && Precedes(sample, s.tracks[i].next.value)
    requires if i == j then InSegment(s, j) != [] ==> Precedes(Last(InSegment(s, j)), sample) else IsLinked(s, j)
    requires i == j && s.segment.Some? && Dts(s.tracks[i], sample.dts) < s.segment.value.startDTS ==>
             InSegment(s, j) == []
    ensures IsChained(Store(s, i, sample, c), j)
    ensures !Store(s, i, sample, c).failed ==> IsLinked(Store(s, i, sample, c), j)
  {
    var dts := Dts(s.tracks[i], sample.dts);
    if s.segment.None? || dts >= s.segment.value.startDTS {
      var u := if s.segment.None? then OpenSegment(s, dts, sample.ntp) else s;
      assert InSegment(u, j) == InSegment(s, j);
      KeepIsChained(u, i, sample, c, j);
      KeepIsLinked(u, i, sample, c, j);
      var v := Keep(u, i, sample, c);
      if !v.failed && MustSwitch(v, i, c) {
        SwitchIsTimed(v, j);
      }
    }
  }

  /** The pending sample that has become known is followed by the new one. */
  lemma {:induction false} AcceptLinks(s: State, i: nat, sample: Sample)
    requires ValidTracks(s.tracks) && i < |s.tracks| && s.tracks[i].next.Some?
    ensures var (u, known) := Accept(s, i, sample);
            && known.Some? && u.tracks[i].next.Some?
            && Precedes(known.value, u.tracks[i].next.value)
            && known.value == s.tracks[i].next.value.(duration := known.value.duration)
            && u.tracks[i].timeScale == s.tracks[i].timeScale && u.segment == s.segment && u.files == s.files
            && forall j :: 0 <= j < |s.tracks| && j != i ==> u.tracks[j] == s.tracks[j]
  {
  }

  lemma {:induction false} WriteIsTimed(s: State, i: nat, sample: Sample, c: Settings, j: nat)
    requires ValidTracks(s.tracks) && i < |s.tracks| && j < |s.tracks| && !s.failed && IsChained(s, j) && IsLinked(s, j)
    ensures var t := Write(s, i, sample, c);
            && ValidTracks(t.tracks) && |t.tracks| == |s.tracks| && IsChained(t, j)
            && (!t.failed ==> IsLinked(t, j))
  {
    if s.tracks[i].next.Some? {
      AcceptLinks(s, i, sample);
      var (u, known) := Accept(s, i, sample);
      if i == j && s.segment.Some? && Dts(s.tracks[i], known.value.dts) < s.segment.value.startDTS {
        LateIsFirst(s, i);
      }
      StoreIsTimed(u, i, known.value, c, j);
    }
  }

  /** In every file of every recording the samples of a track follow each other, each lasting until the
      next one, from part to part. */
  lemma {:induction false} RecordingIsChained(tracks: seq<Track>, inputs: seq<Input>, c: Settings, j: nat)
    requires ValidInputs(tracks, inputs) && j < |tracks|
    ensures IsChained(Record(tracks, inputs, c), j)
    ensures !Record(tracks, inputs, c).failed ==> IsLinked(Record(tracks, inputs, c), j)
    decreases |inputs|
  {
    if inputs != [] {
      RecordingIsChained(tracks, inputs[..|inputs| - 1], c, j);
      var s := Record(tracks, inputs[..|inputs| - 1], c);
      var x := inputs[|inputs| - 1];
      if !s.failed {
        WriteIsTimed(s, x.track, x.sample, c, j);
      }
    }
  }

  lemma {:induction false} CloseIsChained(s: State, j: nat)
    requires IsChained(s, j)
    ensures FilesAreChained(Close(s).files, j)
  {
    if s.segment.Some? {
      assert CloseCurPart(s.segment.value).written == AllParts(s.segment.value);
    }
  }

  lemma {:induction false} ClosedFilesAreChained(tracks: seq<Track>, inputs: seq<Input>, c: Settings, j: nat)
    requires ValidInputs(tracks, inputs) && j < |tracks|
    ensures FilesAreChained(Close(Record(tracks, inputs, c)).files, j)
  {
    RecordingIsChained(tracks, inputs, c, j);
    CloseIsChained(Record(tracks, inputs, c), j);
  }

  // parts of a file

  lemma {:induction false} PartsAppend(a: seq<Part>, b: seq<Part>, i: nat)
    ensures PartsSamples(a + b, i) == PartsSamples(a, i) + PartsSamples(b, i)
    decreases |b|
  {
    if b == [] {
      assert a + b == a;
      assert PartsSamples(a, i) + [] == PartsSamples(a, i);
    } else {
      var front, p := b[..|b| - 1], b[|b| - 1];
      PartsAppend(a, front, i);
      assert a + b == (a + front) + [p];
      PartsSnoc(a + front, p, i);
      Regroup(PartsSamples(a, i), PartsSamples(front, i), PartSamples(p, i));
    }
  }

  lemma {:induction false} SliceIsChain(before: seq<Sample>, h: seq<Sample>, after: seq<Sample>)
    requires IsChain((before + h) + after)
    ensures IsChain(h)
  {
    var all := (before + h) + after;
    forall k | 0 <= k < |h| - 1 ensures Precedes(h[k], h[k + 1]) {
      assert all[|before| + k] == h[k] && all[|before| + k + 1] == h[k + 1];
    }
  }

  /** The samples of a track in some parts of a file follow each other. */
  lemma {:induction false} PartsAreChained(parts: seq<Part>, a: nat, b: nat, i: nat)
    requires IsChain(PartsSamples(parts, i)) && a <= b <= |parts|
    ensures IsChain(PartsSamples(parts[a..b], i))
  {
    assert parts == (parts[..a] + parts[a..b]) + parts[b..];
    PartsAppend(parts[..a] + parts[a..b], parts[b..], i);
    PartsAppend(parts[..a], parts[a..b], i);
    SliceIsChain(PartsSamples(parts[..a], i), PartsSamples(parts[a..b], i), PartsSamples(parts[b..], i));
  }

  lemma {:induction false} ChainToFirst(h: seq<Sample>, p: seq<Sample>)
    requires IsChain(h + p) && p != []
    ensures IsChain(h + [p[0]])
  {
    var all, short := h + p, h + [p[0]];
    assert forall k :: 0 <= k < |short| ==> short[k] == all[k];
  }

  lemma {:induction false} FirstOfParts(parts: seq<Part>, a: nat, b: nat, i: nat)
    requires a < b <= |parts| && PartSamples(parts[a], i) != []
    ensures var h := PartsSamples(parts[a..b], i);
            h != [] && h[0] == PartSamples(parts[a], i)[0]
  {
    assert parts[a..b] == [parts[a]] + parts[a + 1..b];
    PartsAppend([parts[a]], parts[a + 1..b], i);
    OnePart(parts[a], i);
  }

  /** The samples from one part up to another one, and the first sample of that. */
  lemma {:induction false} PartsUpTo(parts: seq<Part>, a: nat, b: nat, i: nat)
    requires IsChain(PartsSamples(parts, i)) && a < b < |parts| && PartSamples(parts[a], i) != [] &&
             PartSamples(parts[b], i) != []
    ensures var h, x := PartsSamples(parts[a..b], i), PartSamples(parts[b], i)[0];
            h != [] && h[0] == PartSamples(parts[a], i)[0] && IsChain(h + [x])
  {
    PartsAreChained(parts, a, b + 1, i);
    assert parts[a..b + 1] == parts[a..b] + [parts[b]];
    PartsSnoc(parts[a..b], parts[b], i);
    ChainToFirst(PartsSamples(parts[a..b], i), PartSamples(parts[b], i));
    FirstOfParts(parts, a, b, i);
  }

  lemma {:induction false} OnePart(p: Part, i: nat)
    ensures PartsSamples([p], i) == PartSamples(p, i)
  {
    assert [p] == [] + [p];
    PartsSnoc([], p, i);
    assert [] + PartSamples(p, i) == PartSamples(p, i);
  }

  // durations

  function SumDurations(h: seq<Sample>, k: nat): nat
    requires k <= |h|
  {
    if k == 0 then 0 else SumDurations(h, k - 1) + h[k - 1].duration
  }

  /** No gap between the first k + 1 samples needs more than 32 bits. */
  predicate GapsFit(h: seq<Sample>, k: nat)
    requires k < |h|
  {
    forall j :: 0 <= j < k ==> h[j + 1].dts - h[j].dts < 0x1_0000_0000
  }

  /** The durations of the first k samples add up to the distance of the k-th one if the gaps before it
      fit, and miss it by far if they do not. */
  lemma {:induction false} DurationsTelescope(h: seq<Sample>, k: nat)
    requires IsChain(h) && k < |h|
    ensures GapsFit(h, k) ==> SumDurations(h, k) == h[k].dts - h[0].dts
    ensures !GapsFit(h, k) ==> SumDurations(h, k) <= h[k].dts - h[0].dts - UINT32
  {
    if k > 0 {
      DurationsTelescope(h, k - 1);
      var gap := h[k].dts - h[k - 1].dts;
      assert h[k - 1].duration == gap % UINT32 <= gap;
      assert GapsFit(h, k) <==> GapsFit(h, k - 1) && gap < UINT32 by {
        assert h[(k - 1) + 1] == h[k];
      }
    }
  }
}
