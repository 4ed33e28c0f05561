/** Which segments are played one after the other, and which are listed as one recording: those that are
    consecutive and not more than a second apart, on the clock that file names tell. */
module PlaybackGaps {
  import opened Options
  import opened Rounding
  import opened Playback
  import opened PlaybackRuns
  import opened OnList

  predicate IsWithinASecond(end: int, start: int) {
    end - 1_000_000_000 <= start <= end + 1_000_000_000
  }

  lemma {:induction false} CanBeConcatenatedIff(a: Init, end: int, b: Init, start: int)
    ensures CanBeConcatenated(a, end, b, start) <==> AreConsecutive(a, b) && IsWithinASecond(end, start)
  {
  }

  // playing

  predicate SameElapsed(a: Option<Muxed>, b: Option<Muxed>) {
    match (a, b)
    case (Some(x), Some(y)) => x.elapsed == y.elapsed && x.stop == y.stop
    case (None, None) => true
    case _ => false
  }

  lemma {:induction false} RunsIgnoreCalls(
    m: Muxed, other: Muxed, runs: seq<Run>, tracks: seq<InitTrack>, startDTS: int, duration: int)
    requires ValidTracks(tracks) && m.elapsed == other.elapsed && m.stop == other.stop
    ensures SameElapsed(MuxPart(m, runs, tracks, startDTS, duration), MuxPart(other, runs, tracks, startDTS, duration))
    decreases |runs|
  {
    if runs != [] {
      RunsIgnoreCalls(m, other, runs[..|runs| - 1], tracks, startDTS, duration);
    }
  }

  /** How long a segment lasts does not depend on what has been played before. */
  lemma {:induction false} PartsIgnoreCalls(
    m: Muxed, other: Muxed, parts: seq<seq<Run>>, tracks: seq<InitTrack>, startDTS: int, duration: int)
    requires ValidTracks(tracks) && m.elapsed == other.elapsed && m.stop == other.stop
    ensures SameElapsed(MuxParts(m, parts, tracks, startDTS, duration),
                        MuxParts(other, parts, tracks, startDTS, duration))
    decreases |parts|
  {
    if parts != [] {
      var n := |parts| - 1;
      PartsIgnoreCalls(m, other, parts[..n], tracks, startDTS, duration);
      var r, s := MuxParts(m, parts[..n], tracks, startDTS, duration),
        MuxParts(other, parts[..n], tracks, startDTS, duration);
      if r.Some? && !r.value.stop {
        RunsIgnoreCalls(r.value, s.value, parts[n], tracks, startDTS, duration);
      }
    }
  }

  /** Segments of which all tracks are in the header of the first one, and all or none have the header of a
      recording. */
  predicate AreAlike(segments: seq<SegmentFile>) {
    && segments != [] && ValidTracks(segments[0].init.tracks)
    && forall s :: 0 <= s < |segments| ==>
       HasKnownRuns(segments[s], segments[0].init.tracks) &&
       segments[s].init.mtxi.Some? == segments[0].init.mtxi.Some?
  }

  /** What playing a segment takes it to last. */
  function LastsFor(segments: seq<SegmentFile>, s: nat, start: int, duration: int): int
    requires AreAlike(segments) && s < |segments|
  {
    var tracks, startDTS := segments[0].init.tracks, Offset(segments, s, start);
    KnownPartsPlay(Muxed([], 0, false), segments[s].parts, tracks, startDTS, duration);
    MuxParts(Muxed([], 0, false), segments[s].parts, tracks, startDTS, duration).value.elapsed
  }

  /** Segment s is continued by the next one, when both are played. */
  predicate JoinsOn(segments: seq<SegmentFile>, s: nat, start: int, duration: int)
    requires AreAlike(segments) && s + 1 < |segments|
  {
    && AreConsecutive(segments[s].init, segments[s + 1].init)
    && IsWithinASecond(segments[s].start + LastsFor(segments, s, start, duration), segments[s + 1].start)
  }

  lemma {:induction false} EndOfPlayed(segments: seq<SegmentFile>, n: nat, start: int, duration: int)
    requires AreAlike(segments) && 0 < n <= |segments|
    ensures SeekTo(segments, n, start, duration).Some?
    ensures var r := SeekTo(segments, n, start, duration).value;
            r.end == segments[r.played - 1].start + LastsFor(segments, r.played - 1, start, duration)
    decreases n
  {
    KnownSegmentsPlay(segments, n, start, duration);
    if n == 1 {
      assert Offset(segments, 0, start) == segments[0].start - start;
    } else {
      EndOfPlayed(segments, n - 1, start, duration);
      var r := SeekTo(segments, n - 1, start, duration).value;
      PartsIgnoreCalls(Muxed(r.calls, 0, false), Muxed([], 0, false), segments[n - 1].parts, segments[0].init.tracks,
                       Offset(segments, n - 1, start), duration);
    }
  }

  lemma {:induction false} PlaysOnIff(segments: seq<SegmentFile>, n: nat, start: int, duration: int)
    requires AreAlike(segments) && 0 < n < |segments|
    ensures SeekTo(segments, n, start, duration).Some? && SeekTo(segments, n + 1, start, duration).Some?
    ensures var r, t := SeekTo(segments, n, start, duration).value, SeekTo(segments, n + 1, start, duration).value;
            t.played == if r.played == n && JoinsOn(segments, n - 1, start, duration) then n + 1 else r.played
  {
    EndOfPlayed(segments, n, start, duration);
    EndOfPlayed(segments, n + 1, start, duration);
    var r := SeekTo(segments, n, start, duration).value;
    CanBeConcatenatedIff(segments[n - 1].init, r.end, segments[n].init, segments[n].start);
  }

  /** A segment is played if and only if after each one before it the next one is consecutive and begins within a second
      of where playing that has ended. */
  lemma {:induction false} PlayedIff(segments: seq<SegmentFile>, n: nat, start: int, duration: int, k: nat)
    requires AreAlike(segments) && k < n <= |segments|
    ensures SeekTo(segments, n, start, duration).Some?
    ensures k < SeekTo(segments, n, start, duration).value.played <==>
            forall s: nat :: s < k ==> JoinsOn(segments, s, start, duration)
    decreases n
  {
    if n == 1 {
      EndOfPlayed(segments, 1, start, duration);
    } else {
      PlaysOnIff(segments, n - 1, start, duration);
      PlayedIff(segments, n - 1, start, duration, if k < n - 1 then k else n - 2);
    }
  }

  /** Old recordings, without header: what is played has the same tracks, and each segment is placed where file names
      put it. */
  lemma {:induction false} PlayedLegacySegments(segments: seq<SegmentFile>, n: nat, start: int, duration: int, k: nat)
    requires 0 < n <= |segments| && ValidTracks(segments[0].init.tracks) && segments[0].init.mtxi.None?
    requires SeekTo(segments, n, start, duration).Some? && k < SeekTo(segments, n, start, duration).value.played
    ensures segments[k].init.mtxi.None? && segments[k].init.tracks == segments[0].init.tracks
    ensures Offset(segments, k, start) == segments[k].start - start
    decreases n
  {
    if n > 1 {
      var r := SeekTo(segments, n - 1, start, duration).value;
      if k < r.played {
        PlayedLegacySegments(segments, n - 1, start, duration, k);
      } else {
        PlayedLegacySegments(segments, n - 1, start, duration, n - 2);
      }
    }
  }

  // listing

  /** Segment k is listed together with the one before it. */
  predicate IsListedWith(parsed: seq<Parsed>, k: nat)
    requires 0 < k < |parsed|
  {
    && AreConsecutive(parsed[k - 1].init, parsed[k].init)
    && IsWithinASecond(parsed[k - 1].start + parsed[k - 1].duration, parsed[k].start)
  }

  /** Segments are listed as one entry if and only if each is consecutive to its predecessor and begins within a second
      of its end. */
  lemma {:induction false} OneEntryIff(parsed: seq<Parsed>, out: seq<ListEntry>)
    requires parsed != [] && AreEntries(parsed, out)
    ensures |out| == 1 <==> forall k: nat :: 0 < k < |parsed| ==> IsListedWith(parsed, k)
    ensures |out| == 1 ==>
              && out[0].start == parsed[0].start
              && out[0].start + out[0].duration == parsed[|parsed| - 1].start + parsed[|parsed| - 1].duration
  {
    var cuts := Cuts(parsed);
    CutsAreTheGaps(parsed);
    forall k: nat | 0 < k < |parsed| ensures Continues(parsed, k) <==> IsListedWith(parsed, k) {
      CanBeConcatenatedIff(parsed[k - 1].init, parsed[k - 1].End(), parsed[k].init, parsed[k].start);
    }
    assert 0 in cuts;
    if |out| == 1 {
      assert IsEntry(parsed, out[0], 0);
      forall k: nat | 0 < k < |parsed| ensures IsListedWith(parsed, k) {
        assert k !in cuts;
      }
    } else {
      assert cuts[0] < cuts[1] && cuts[1] in cuts;
      assert !IsListedWith(parsed, cuts[1]);
    }
  }
}
