/** Segment switching: where a new segment starts, and which tracks lose samples because of it. */
module RecorderSwitch {
  import opened Options
  import opened Rounding
  import opened RecorderModel
  import opened RecorderSafety
  import opened RecorderRuns

  predicate IsPending(tracks: seq<Track>, j: nat)
    requires ValidTracks(tracks)
  {
    j < |tracks| && tracks[j].next.Some?
  }

  function PendingDts(tracks: seq<Track>, j: nat): int
    requires ValidTracks(tracks) && IsPending(tracks, j)
  {
    Dts(tracks[j], tracks[j].next.value.dts)
  }

  lemma {:induction false} NewestIsMaximum(tracks: seq<Track>)
    requires ValidTracks(tracks)
    ensures NewestPending(tracks) >= 0
    ensures forall j: nat :: IsPending(tracks, j) ==> PendingDts(tracks, j) <= NewestPending(tracks)
    ensures NewestPending(tracks) == 0 || exists j: nat ::
            IsPending(tracks, j) && PendingDts(tracks, j) == NewestPending(tracks)
    decreases |tracks|
  {
    if tracks != [] {
      var n := |tracks| - 1;
      var rest := tracks[..n];
      NewestIsMaximum(rest);
      assert forall j: nat :: j < n ==> rest[j] == tracks[j];
      forall j: nat | IsPending(tracks, j) ensures PendingDts(tracks, j) <= NewestPending(tracks) {
        if j < n {
          assert IsPending(rest, j) && PendingDts(rest, j) == PendingDts(tracks, j);
        }
      }
      if NewestPending(tracks) != 0 {
        if NewestPending(tracks) == NewestPending(rest) {
          var j: nat :| IsPending(rest, j) && PendingDts(rest, j) == NewestPending(rest);
          assert IsPending(tracks, j) && PendingDts(tracks, j) == NewestPending(tracks);
        } else {
          assert IsPending(tracks, n) && PendingDts(tracks, n) == NewestPending(tracks);
        }
      }
    }
  }

  /** A pending sample that is close enough to the newest one to start a segment. */
  predicate IsClose(tracks: seq<Track>, j: nat, maxDTS: int)
    requires ValidTracks(tracks)
  {
    IsPending(tracks, j) && maxDTS - PendingDts(tracks, j) <= 1_000_000_000
  }

  lemma {:induction false} OldestIsMinimum(tracks: seq<Track>, maxDTS: int)
    requires ValidTracks(tracks)
    ensures var (ntp, dts) := OldestPending(tracks, maxDTS);
            && maxDTS - 1_000_000_000 <= dts <= maxDTS
            && (forall j: nat :: IsClose(tracks, j, maxDTS) ==> dts <= PendingDts(tracks, j))
            && ((ntp, dts) == (ZERO_TIME, maxDTS) ||
                exists j: nat :: IsClose(tracks, j, maxDTS) && PendingDts(tracks, j) == dts &&
                  tracks[j].next.value.ntp == ntp)
    decreases |tracks|
  {
    if tracks != [] {
      var n := |tracks| - 1;
      var rest := tracks[..n];
      OldestIsMinimum(rest, maxDTS);
      assert forall j: nat :: j < n ==> rest[j] == tracks[j];
      var (ntp, dts) := OldestPending(tracks, maxDTS);
      forall j: nat | IsClose(tracks, j, maxDTS) ensures dts <= PendingDts(tracks, j) {
        if j < n {
          assert IsClose(rest, j, maxDTS);
        }
      }
      if (ntp, dts) == OldestPending(rest, maxDTS) {
        if (ntp, dts) != (ZERO_TIME, maxDTS) {
          var j: nat :| IsClose(rest, j, maxDTS) && PendingDts(rest, j) == dts && rest[j].next.value.ntp == ntp;
          assert IsClose(tracks, j, maxDTS) && PendingDts(tracks, j) == dts;
        }
      } else {
        assert IsClose(tracks, n, maxDTS);
      }
    }
  }

  /** A new segment starts at most a second behind any pending sample and at least the segment
      duration, less a second, after the old one. */
  lemma {:induction false} SwitchBounds(s: State, i: nat, c: Settings)
    requires ValidTracks(s.tracks) && IsPending(s.tracks, i) && s.segment.Some? && MustSwitch(s, i, c)
    ensures var start := Switch(s).segment.value.startDTS;
            && start >= s.segment.value.startDTS + c.segmentDuration - 1_000_000_000
            && forall j: nat :: IsPending(s.tracks, j) ==> PendingDts(s.tracks, j) - start <= 1_000_000_000
  {
    NewestIsMaximum(s.tracks);
    OldestIsMinimum(s.tracks, NewestPending(s.tracks));
    assert PendingDts(s.tracks, i) <= NewestPending(s.tracks);
  }

  /** Track j is at most a second behind every other track. */
  predicate KeepsUp(tracks: seq<Track>, j: nat)
    requires ValidTracks(tracks)
  {
    && IsPending(tracks, j)
    && forall k: nat :: k < |tracks| && IsPending(tracks, k) ==>
       PendingDts(tracks, k) - PendingDts(tracks, j) <= 1_000_000_000
  }

  /** Time zero has been reached by some track, or by track j but for a second. */
  predicate PastZero(tracks: seq<Track>, j: nat)
    requires ValidTracks(tracks) && IsPending(tracks, j)
  {
    PendingDts(tracks, j) >= -1_000_000_000 || exists k: nat ::
      k < |tracks| && IsPending(tracks, k) && PendingDts(tracks, k) >= 0
  }

  /** A track that keeps up makes it into the new segment if and only if time zero has been reached:
      the newest sample is looked for from zero upwards. */
  lemma {:induction false} KeepingUpIsEnoughIff(tracks: seq<Track>, j: nat)
    requires ValidTracks(tracks) && KeepsUp(tracks, j)
    ensures PendingDts(tracks, j) >= NextSegmentStartingPos(tracks).1 <==> PastZero(tracks, j)
  {
    var newest := NewestPending(tracks);
    NewestIsMaximum(tracks);
    OldestIsMinimum(tracks, newest);
    if k: nat :| k < |tracks| && IsPending(tracks, k) && PendingDts(tracks, k) >= 0 {
      var n := NewestTrack(tracks, k);
      assert IsClose(tracks, j, newest);
    } else {
      assert newest == 0;
      if PendingDts(tracks, j) >= -1_000_000_000 {
        assert IsClose(tracks, j, newest);
      }
    }
  }

  lemma {:induction false} NewestTrack(tracks: seq<Track>, j: nat) returns (k: nat)
    requires ValidTracks(tracks) && IsPending(tracks, j) && PendingDts(tracks, j) >= 0
    ensures IsPending(tracks, k) && PendingDts(tracks, k) == NewestPending(tracks)
  {
    NewestIsMaximum(tracks);
    if NewestPending(tracks) == 0 {
      k := j;
    } else {
      k :| IsPending(tracks, k) && PendingDts(tracks, k) == NewestPending(tracks);
    }
  }

  /** A single track far enough before time zero loses its samples after the switch. */
  lemma {:induction false} NegativeTimeExample(t: Track)
    requires t.timeScale == 1000 && t.next.Some? && t.next.value.dts == -5000
    ensures KeepsUp([t], 0) && PendingDts([t], 0) < NextSegmentStartingPos([t]).1 == 0
    ensures NextSegmentStartingPos([t]).0 == ZERO_TIME
  {
    assert [t][..0] == [];
    assert Dts(t, -5000) == -5 * SECOND;
    NewestIsMaximum([t]);
    OldestIsMinimum([t], NewestPending([t]));
    assert PendingDts([t], 0) == -5 * SECOND;
    assert forall j: nat :: IsPending([t], j) ==> j == 0;
  }

  // what happens inside a segment

  lemma {:induction false} FateAt(log: seq<Fate>, i: nat, k: nat) returns (n: nat)
    requires k < |OfTrack(log, i)|
    ensures n < |log| && log[n] == OfTrack(log, i)[k] && log[n].track == i
    decreases |log|
  {
    n := |log| - 1;
    if k < |OfTrack(log[..n], i)| {
      n := FateAt(log[..n], i, k);
    }
  }

  lemma {:induction false} ChainIsMonotone(h: seq<Sample>, j: nat, k: nat)
    requires IsChain(h) && j <= k < |h|
    ensures h[j].dts <= h[k].dts
    decreases k - j
  {
    if j < k {
      ChainIsMonotone(h, j + 1, k);
    }
  }

  /** Within a segment the discarded samples of a track come before the kept ones. */
  lemma {:induction false} DiscardedFirst(tracks: seq<Track>, inputs: seq<Input>, c: Settings, i: nat, j: nat, k: nat)
    requires ValidInputs(tracks, inputs) && Fresh(tracks) && i < |tracks| && !Record(tracks, inputs, c).failed
    requires j < k < |OfTrack(Record(tracks, inputs, c).log, i)|
    ensures var h := OfTrack(Record(tracks, inputs, c).log, i);
            h[j].segment == h[k].segment && h[j].part.Some? ==> h[k].part.Some?
  {
    var s := Record(tracks, inputs, c);
    var h := OfTrack(s.log, i);
    RecordingIsRight(tracks, inputs, c);
    RecordingHistory(tracks, inputs, c, i);
    var m := FateAt(s.log, i, j);
    var n := FateAt(s.log, i, k);
    assert FateIsRight(s, s.log[m]) && FateIsRight(s, s.log[n]);
    ChainIsMonotone(History(s, i), j, k);
    assert History(s, i)[j] == h[j].sample && History(s, i)[k] == h[k].sample;
    MultiplyAndDivideMonotone(h[j].sample.dts, h[k].sample.dts, SECOND, s.tracks[i].timeScale);
  }

  // whole recordings

  /** Segment n has not lost any sample of track j, and is not going to. */
  ghost predicate NothingLostOf(s: State, j: nat, n: nat) {
    && ValidTracks(s.tracks) && s.segment.Some?
    && s.nextSegmentNumber == s.segment.value.number + 1 && n <= s.segment.value.number
    && (forall k :: 0 <= k < |s.log| && s.log[k].track == j && s.log[k].segment == n ==> s.log[k].part.Some?)
    && (s.segment.value.number == n ==> IsPending(s.tracks, j) && PendingDts(s.tracks, j) >= s.segment.value.startDTS)
  }

  /** What the segment and the log can look like after a sample has been stored. */
  lemma {:induction false} StoreInSegment(s: State, i: nat, sample: Sample, c: Settings, n: nat)
    requires ValidTracks(s.tracks) && i < |s.tracks| && s.tracks[i].next.Some?
    requires s.segment.Some? && s.nextSegmentNumber == s.segment.value.number + 1 && n <= s.segment.value.number
    ensures var t := Store(s, i, sample, c);
            && t.tracks == s.tracks && t.segment.Some? && t.nextSegmentNumber == t.segment.value.number + 1
            && (t.segment.value.number > n ||
                (t.segment.value.number == s.segment.value.number &&
                 t.segment.value.startDTS == s.segment.value.startDTS))
            && (t.log == s.log || exists f: Fate ::
                  && t.log == s.log + [f] && f.track == i && f.sample == sample && f.segment == s.segment.value.number
                  && (f.part.None? ==> Dts(s.tracks[i], sample.dts) < s.segment.value.startDTS))
  {
    var t := Store(s, i, sample, c);
    if t.log != s.log {
      assert t.log == s.log + [t.log[|s.log|]];
    }
  }

  lemma {:induction false} StaysWithoutLoss(s: State, i: nat, sample: Sample, c: Settings, j: nat, n: nat)
    requires NothingLostOf(s, j, n) && i < |s.tracks|
    ensures NothingLostOf(Write(s, i, sample, c), j, n)
  {
    var (u, known) := Accept(s, i, sample);
    if i == j && known.Some? {
      var previous := s.tracks[i].next.value;
      MultiplyAndDivideMonotone(previous.dts, u.tracks[i].next.value.dts, SECOND, s.tracks[i].timeScale);
    }
    if known.Some? {
      StoreInSegment(u, i, known.value, c, n);
    }
  }

  lemma {:induction false} RecordingStaysWithoutLoss(
    tracks: seq<Track>, before: seq<Input>, after: seq<Input>, c: Settings, j: nat, n: nat)
    requires ValidInputs(tracks, before) && ValidInputs(tracks, before + after)
    requires NothingLostOf(Record(tracks, before, c), j, n)
    ensures NothingLostOf(Record(tracks, before + after, c), j, n)
    decreases |after|
  {
    if after == [] {
      assert before + after == before;
    } else {
      var m := |after| - 1;
      var x := after[m];
      assert (before + after)[..|before + after| - 1] == before + after[..m];
      assert (before + after)[|before + after| - 1] == x;
      RecordingStaysWithoutLoss(tracks, before, after[..m], c, j, n);
      var s := Record(tracks, before + after[..m], c);
      if !s.failed {
        StaysWithoutLoss(s, x.track, x.sample, c, j, n);
      }
    }
  }

  /** Storing a sample that completes a file switches segments; nothing is in the new one. */
  lemma {:induction false} SwitchedState(s: State, i: nat, sample: Sample, c: Settings)
    requires StorageIsRight(s, c) && i < |s.tracks| && s.tracks[i].next.Some?
    requires |Store(s, i, sample, c).files| > |s.files|
    ensures var t := Store(s, i, sample, c);
            && ValidTracks(t.tracks) && t.segment.Some? && t.segment.value.number == |t.files|
            && t.nextSegmentNumber == t.segment.value.number + 1
            && t.segment.value.startDTS == NextSegmentStartingPos(t.tracks).1
            && forall k :: 0 <= k < |t.log| ==> t.log[k].segment < |t.files|
  {
    StoreIsRight(s, i, sample, c);
    var dts := Dts(s.tracks[i], sample.dts);
    if s.segment.None? {
      OpenSegmentIsRight(s, dts, sample.ntp, c);
    }
    var u := if s.segment.None? then OpenSegment(s, dts, sample.ntp) else s;
    KeepKeepsRight(u, i, sample, c);
    var v := Keep(u, i, sample, c);
    forall k | 0 <= k < |v.log| ensures v.log[k].segment <= |v.files| {
      assert FateIsRight(v, v.log[k]);
    }
  }

  /** A track that keeps up when segments are switched does not lose any sample of the new segment,
      however the recording goes on. */
  lemma {:induction false} KeepingUpLosesNothing(
    tracks: seq<Track>, before: seq<Input>, x: Input, after: seq<Input>, c: Settings, j: nat, k: nat)
    requires ValidInputs(tracks, before + [x] + after) && ValidInputs(tracks, before + [x]) &&
             ValidInputs(tracks, before)
    requires |Record(tracks, before + [x], c).files| > |Record(tracks, before, c).files|
    requires KeepsUp(Record(tracks, before + [x], c).tracks, j)
    requires PastZero(Record(tracks, before + [x], c).tracks, j)
    requires k < |Record(tracks, before + [x] + after, c).log|
    requires var f := Record(tracks, before + [x] + after, c).log[k];
             f.track == j && f.segment == |Record(tracks, before + [x], c).files|
    ensures Record(tracks, before + [x] + after, c).log[k].part.Some?
  {
    var s, t := Record(tracks, before, c), Record(tracks, before + [x], c);
    assert (before + [x])[..|before|] == before;
    RecordingIsRight(tracks, before, c);
    RecordingIsRight(tracks, before + [x], c);
    AcceptIsRight(s, x.track, x.sample, c);
    SwitchedState(Accept(s, x.track, x.sample).0, x.track, Accept(s, x.track, x.sample).1.value, c);
    KeepingUpIsEnoughIff(t.tracks, j);
    StartsWithoutLoss(t, j, c);
    RecordingStaysWithoutLoss(tracks, before + [x], after, c, j, |t.files|);
  }

  lemma {:induction false} StartsWithoutLoss(t: State, j: nat, c: Settings)
    requires StorageIsRight(t, c) && t.segment.Some? && IsPending(t.tracks, j)
    requires PendingDts(t.tracks, j) >= t.segment.value.startDTS
    requires forall k :: 0 <= k < |t.log| ==> t.log[k].segment < |t.files|
    ensures NothingLostOf(t, j, |t.files|)
  {
  }
}
