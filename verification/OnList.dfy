/** The list of recordings: segments that continue each other are presented as one entry. */
module OnList {
  import opened Options
  import opened Rounding
  import opened Playback

  datatype Parsed = Parsed(init: Init, start: int, duration: int) {
    function End(): int {
      start + duration
    }
  }

  datatype ListEntry = ListEntry(start: int, duration: int) {
    function End(): int {
      start + duration
    }
  }

  /** Segment k continues the one before it. */
  predicate Continues(parsed: seq<Parsed>, k: nat)
    requires 0 < k < |parsed|
  {
    CanBeConcatenated(parsed[k - 1].init, parsed[k - 1].End(), parsed[k].init, parsed[k].start)
  }

  /** The indices at which entries begin. */
  function Cuts(parsed: seq<Parsed>): seq<nat> {
    if parsed == [] then []
    else
      var n := |parsed| - 1;
      Cuts(parsed[..n]) + (if n > 0 && Continues(parsed, n) then [] else [n])
  }

  /** Entries begin exactly at the first segment and at those that do not continue their predecessor. */
  lemma {:induction false} CutsAreTheGaps(parsed: seq<Parsed>)
    ensures forall k: nat :: k in Cuts(parsed) <==> k < |parsed| && (k == 0 || !Continues(parsed, k))
    ensures forall i, j :: 0 <= i < j < |Cuts(parsed)| ==> Cuts(parsed)[i] < Cuts(parsed)[j]
    decreases |parsed|
  {
    if parsed != [] {
      var n := |parsed| - 1;
      CutsAreTheGaps(parsed[..n]);
      forall k: nat ensures k in Cuts(parsed) <==> k < |parsed| && (k == 0 || !Continues(parsed, k)) {
        assert 0 < k < n ==> Continues(parsed[..n], k) == Continues(parsed, k);
      }
      forall i, j | 0 <= i < j < |Cuts(parsed)| ensures Cuts(parsed)[i] < Cuts(parsed)[j] {
        assert Cuts(parsed)[i] in Cuts(parsed[..n]);
      }
    }
  }

  /** The first segment after entry e. */
  function Next(parsed: seq<Parsed>, e: nat): nat
    requires e < |Cuts(parsed)|
  {
    if e + 1 < |Cuts(parsed)| then Cuts(parsed)[e + 1] else |parsed|
  }

  /** An entry reaches from the start of its first segment to the end of its last one. */
  predicate IsEntry(parsed: seq<Parsed>, out: ListEntry, e: nat)
    requires e < |Cuts(parsed)|
  {
    && Cuts(parsed)[e] < Next(parsed, e) <= |parsed|
    && out.start == parsed[Cuts(parsed)[e]].start
    && out.End() == parsed[Next(parsed, e) - 1].End()
  }

  predicate AreEntries(parsed: seq<Parsed>, out: seq<ListEntry>) {
    && |out| == |Cuts(parsed)|
    && (forall e: nat :: e < |out| ==> IsEntry(parsed, out[e], e))
    && (parsed != [] ==> out != [])
  }

  /** One more segment either extends the last entry or becomes an entry. */
  lemma {:induction false} OneMore(parsed: seq<Parsed>, out: seq<ListEntry>, p: Parsed, result: seq<ListEntry>)
    requires AreEntries(parsed, out)
    requires result ==
             if parsed != [] && Continues(parsed + [p], |parsed|) then
               out[|out| - 1 := ListEntry(out[|out| - 1].start, p.End() - out[|out| - 1].start)]
             else out + [ListEntry(p.start, p.duration)]
    ensures AreEntries(parsed + [p], result)
  {
    var all := parsed + [p];
    assert all[..|parsed|] == parsed;
    forall e: nat | e < |result| ensures IsEntry(all, result[e], e) {
      if e < |out| {
        assert IsEntry(parsed, out[e], e);
        assert Next(all, e) == if e == |out| - 1 && |result| == |out| then |all| else Next(parsed, e);
      }
    }
  }

  method ConcatenateSegments(parsed: seq<Parsed>) returns (out: seq<ListEntry>)
    ensures AreEntries(parsed, out)
  {
    out := [];
    var prevInit: Option<Init> := None;
    var n := 0;
    while n < |parsed|
      invariant n <= |parsed| && AreEntries(parsed[..n], out)
      invariant prevInit == if n == 0 then None else Some(parsed[n - 1].init)
    {
      var p := parsed[n];
      ghost var before := out;
      assert parsed[..n + 1] == parsed[..n] + [p];
      LastEnd(parsed[..n], out);
      if out != [] &&
        CanBeConcatenated(prevInit.value, out[|out| - 1].start + out[|out| - 1].duration, p.init, p.start)
      {
        var prevStart := out[|out| - 1].start;
        var curEnd := p.start + p.duration;
        out := out[|out| - 1 := out[|out| - 1].(duration := curEnd - prevStart)];
      } else {
        out := out + [ListEntry(p.start, p.duration)];
      }
      OneMore(parsed[..n], before, p, out);
      prevInit := Some(p.init);
      n := n + 1;
    }
    assert parsed[..n] == parsed;
  }

  lemma {:induction false} LastEnd(parsed: seq<Parsed>, out: seq<ListEntry>)
    requires AreEntries(parsed, out)
    ensures parsed == [] <==> out == []
    ensures out != [] ==> out[|out| - 1].End() == parsed[|parsed| - 1].End()
  {
    if out != [] {
      assert IsEntry(parsed, out[|out| - 1], |out| - 1);
    }
  }

  // durations

  /** The duration in the header of a file: whole milliseconds, in 32 bits. */
  function HeaderDuration(duration: nat): nat {
    duration / 1_000_000 % 0x1_0000_0000 * 1_000_000
  }

  /** The end of a run, from the start of its segment. */
  function RunEnd(run: Run, timeScale: int): int
    requires timeScale > 0
  {
    TimestampToDuration(run.baseTime + SumDurations(run.entries, |run.entries|), timeScale)
  }

  /** The latest end of some runs, or zero. */
  function LatestRunEnd(runs: seq<Run>, tracks: seq<InitTrack>): Option<int>
    requires ValidTracks(tracks)
  {
    if runs == [] then Some(0)
    else
      var n := |runs| - 1;
      var rest, found := LatestRunEnd(runs[..n], tracks), FindTrack(tracks, runs[n].trackID);
      if rest.None? || found.None? then None
      else Some(Longer(rest.value, RunEnd(runs[n], tracks[found.value].timeScale)))
  }

  /** Reads the duration of a file whose header does not have it from its last part. */
  method ReadDurationFromParts(segment: SegmentFile) returns (r: Option<int>)
    requires ValidTracks(segment.init.tracks)
    ensures r == if segment.parts == [] then None
                 else LatestRunEnd(segment.parts[|segment.parts| - 1], segment.init.tracks)
  {
    if segment.parts == [] {
      return None;
    }
    var runs := segment.parts[|segment.parts| - 1];
    var maxElapsed := 0;
    for n := 0 to |runs|
      invariant LatestRunEnd(runs[..n], segment.init.tracks) == Some(maxElapsed)
    {
      assert runs[..n + 1][..n] == runs[..n];
      var found := FindTrack(segment.init.tracks, runs[n].trackID);
      if found.None? {
        UnknownRun(runs, n, segment.init.tracks);
        return None;
      }
      var elapsed := RunEnd(runs[n], segment.init.tracks[found.value].timeScale);
      if elapsed > maxElapsed {
        maxElapsed := elapsed;
      }
    }
    assert runs[..|runs|] == runs;
    return Some(maxElapsed);
  }

  lemma {:induction false} UnknownRun(runs: seq<Run>, n: nat, tracks: seq<InitTrack>)
    requires ValidTracks(tracks) && n < |runs| && FindTrack(tracks, runs[n].trackID).None?
    ensures LatestRunEnd(runs, tracks).None?
    decreases |runs|
  {
    if n < |runs| - 1 {
      UnknownRun(runs[..|runs| - 1], n, tracks);
    }
  }

  /** What the list takes a file to last: what its header says, or, when that says nothing, its last part. */
  function ListedDuration(segment: SegmentFile, header: nat): Option<int>
    requires ValidTracks(segment.init.tracks)
  {
    if header != 0 then Some(header)
    else if segment.parts == [] then None
    else LatestRunEnd(segment.parts[|segment.parts| - 1], segment.init.tracks)
  }

  method ParseSegment(segment: SegmentFile, header: nat) returns (r: Option<Parsed>)
    requires ValidTracks(segment.init.tracks)
    ensures var d := ListedDuration(segment, header);
            r == if d.None? then None else Some(Parsed(segment.init, segment.start, d.value))
  {
    var duration := Some(header as int);
    if header == 0 {
      duration := ReadDurationFromParts(segment);
    }
    if duration.None? {
      return None;
    }
    return Some(Parsed(segment.init, segment.start, duration.value));
  }
}
