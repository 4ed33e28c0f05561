/** The two muxers as objects that are updated in place, proved to do what MuxerModel says. */
module Muxers {
  import opened Options
  import opened Rounding
  import opened MuxerModel
  import MuxerAgreement
  import MuxerTimes

  class MuxerFMP4 {
    var tracks: seq<FTrack>
    var curTrack: Option<nat>
    var initPending: bool
    var nextSequenceNumber: nat
    var parts: seq<Part>
    var failed: bool

    ghost function View(): FState
      reads this
    {
      FState(curTrack, tracks, initPending, nextSequenceNumber, parts, failed)
    }

    constructor (timeScales: seq<nat>)
      ensures View() == FCreate(timeScales)
    {
      tracks := seq(|timeScales|, i requires 0 <= i < |timeScales| => FTrack(timeScales[i], -1, 0, []));
      curTrack, initPending, nextSequenceNumber, parts, failed := None, true, 0, [], false;
    }

    method SetTrack(i: nat)
      requires View().Valid() && !failed && i < |tracks|
      modifies this
      ensures View() == old(View()).Step(Call.SetTrack(i))
    {
      curTrack := Some(i);
    }

    method WriteSample(x: Item)
      requires View().Valid() && !failed && curTrack.Some?
      modifies this
      ensures View() == old(View()).Step(Call.WriteSample(x))
    {
      var i := curTrack.value;
      var t := tracks[i];
      var s := NewSample(x);
      if x.dts >= 0 {
        if t.firstDTS < 0 {
          t := t.(firstDTS := x.dts);
          if !x.nonSync {
            t := t.(samples := []);
          }
        } else {
          t := t.(samples := SetLastDuration(t.samples, Duration(x.dts, t.lastDTS)));
        }
        t := t.(samples := t.samples + [s], lastDTS := x.dts);
        tracks := tracks[i := t];
        if t.lastDTS - t.firstDTS >= DurationGoToMp4(SECOND, t.timeScale) {
          InnerFlush(false);
        }
      } else if !x.nonSync {
        tracks := tracks[i := t.(samples := [s])];
        assert [] + [s] == [s];
      } else {
        tracks := tracks[i := t.(samples := t.samples + [s])];
      }
    }

    method WriteFinalDTS(dts: int)
      requires View().Valid() && !failed && curTrack.Some?
      modifies this
      ensures View() == old(View()).Step(Call.WriteFinalDTS(dts))
    {
      var i := curTrack.value;
      var t := tracks[i];
      if t.samples != [] && t.firstDTS >= 0 {
        t := t.(samples := SetLastDuration(t.samples, Duration(dts, t.lastDTS)));
      }
      tracks := tracks[i := t];
    }

    /** Takes what each track has to write. */
    method TakeChunks(final: bool) returns (chunks: map<nat, Chunk>)
      requires View().Valid()
      modifies `tracks
      ensures chunks == old(View()).Chunks(final)
      ensures |tracks| == |old(tracks)|
      ensures forall i :: 0 <= i < |tracks| ==> tracks[i] == old(tracks[i]).Flushed(final)
    {
      chunks := map[];
      ghost var before := tracks;
      var n := 0;
      while n < |tracks|
        invariant n <= |tracks| == |before|
        invariant forall i :: 0 <= i < |tracks| ==> tracks[i] == if i < n then before[i].Flushed(final) else before[i]
        invariant chunks == map i: nat | i < n && before[i].HasChunk(final) :: before[i].TakeChunk(final)
      {
        var t := tracks[n];
        if t.firstDTS >= 0 && (|t.samples| > 1 || (final && t.samples != [])) {
          chunks := chunks[n := Chunk(t.firstDTS, if final then t.samples else t.samples[..|t.samples| - 1])];
          if !final {
            tracks := tracks[n := t.(samples := t.samples[|t.samples| - 1..], firstDTS := t.lastDTS)];
          }
        }
        n := n + 1;
      }
    }

    method InnerFlush(final: bool)
      requires View().Valid()
      modifies this
      ensures View() == old(View()).Flush(final)
    {
      var chunks := TakeChunks(final);
      if chunks == map[] {
        assert forall i :: 0 <= i < |tracks| && old(tracks[i]).HasChunk(final) ==> i in chunks;
        assert tracks == old(tracks);
        if initPending {
          failed := true;
        }
        return;
      }
      parts := parts + [Part(nextSequenceNumber, chunks)];
      nextSequenceNumber := nextSequenceNumber + 1;
      initPending := false;
    }
  }

  class MuxerMP4 {
    var tracks: seq<MTrack>
    var curTrack: Option<nat>

    ghost function View(): MState
      reads this
    {
      MState(curTrack, tracks)
    }

    constructor (timeScales: seq<nat>)
      ensures View() == MCreate(timeScales)
    {
      tracks := seq(|timeScales|, i requires 0 <= i < |timeScales| => MTrack(timeScales[i], 0, [], 0));
      curTrack := None;
    }

    method SetTrack(i: nat)
      requires View().Valid() && i < |tracks|
      modifies this
      ensures View() == old(View()).Step(Call.SetTrack(i))
    {
      curTrack := Some(i);
    }

    method WriteSample(x: Item)
      requires View().Valid() && curTrack.Some?
      modifies this
      ensures View() == old(View()).Step(Call.WriteSample(x))
    {
      var i := curTrack.value;
      var t := tracks[i];
      ghost var u := t.Write(x);
      if (x.dts < 0 || (x.dts >= 0 && t.lastDTS < 0)) && !x.nonSync {
        t := t.(samples := []);
      }
      if t.samples == [] {
        t := t.(timeOffset := Int32(x.dts));
      } else {
        t := t.(samples := SetLastDuration(t.samples, Duration(x.dts, t.lastDTS)));
      }
      var ptsOffset := x.ptsOffset;
      if !x.nonSync {
        ptsOffset := 0;
      }
      t := t.(samples := t.samples + [Sample(ptsOffset, x.nonSync, x.payload, 0)], lastDTS := x.dts);
      assert t.samples == u.samples;
      tracks := tracks[i := t];
    }

    method WriteFinalDTS(dts: int)
      requires View().Valid() && curTrack.Some?
      modifies this
      ensures View() == old(View()).Step(Call.WriteFinalDTS(dts))
    {
      var i := curTrack.value;
      var t := tracks[i];
      if t.samples != [] {
        t := t.(samples := SetLastDuration(t.samples, Duration(dts, t.lastDTS)));
      }
      tracks := tracks[i := t];
    }

    method Flush() returns (ok: bool)
      requires View().Valid() && curTrack.Some?
      ensures ok == !View().Fails()
    {
      var t := tracks[curTrack.value];
      return !(t.samples == [] || t.lastDTS < 0);
    }
  }

  lemma {:induction false} ValidPrefix(calls: seq<Call>, n: nat, k: nat)
    requires ValidCalls(calls, n) && k <= |calls|
    ensures ValidCalls(calls[..k], n)
    decreases |calls|
  {
    if k < |calls| {
      ValidPrefix(calls[..|calls| - 1], n, k);
      assert calls[..|calls| - 1][..k] == calls[..k];
    } else {
      assert calls[..k] == calls;
    }
  }

  lemma {:induction false} FailureLasts(timeScales: seq<nat>, calls: seq<Call>, k: nat)
    requires ValidCalls(calls, |timeScales|) && k <= |calls| && ValidCalls(calls[..k], |timeScales|)
    requires MuxerAgreement.FRun(timeScales, calls[..k]).failed
    ensures MuxerAgreement.FRun(timeScales, calls).failed
    decreases |calls|
  {
    if k < |calls| {
      assert calls[..|calls| - 1][..k] == calls[..k];
      FailureLasts(timeScales, calls[..|calls| - 1], k);
    } else {
      assert calls[..k] == calls;
    }
  }

  /** Drives the fragmented muxer until the end or the first failure. */
  method PlayFMP4(timeScales: seq<nat>, calls: seq<Call>) returns (parts: seq<Part>, ok: bool)
    requires ValidCalls(calls, |timeScales|)
    ensures if MuxerAgreement.FRun(timeScales, calls).failed then !ok
            else
              && parts == MuxerTimes.FOutput(timeScales, calls).parts
              && (ok <==> !MuxerTimes.FOutput(timeScales, calls).failed)
  {
    var m := new MuxerFMP4(timeScales);
    var n := 0;
    while n < |calls|
      invariant n <= |calls| && ValidCalls(calls[..n], |timeScales|)
      invariant m.View() == MuxerAgreement.FRun(timeScales, calls[..n]) && !m.failed
    {
      assert calls[..n + 1][..n] == calls[..n];
      ValidPrefix(calls, |timeScales|, n + 1);
      match calls[n] {
        case SetTrack(i) => m.SetTrack(i);
        case WriteSample(x) => m.WriteSample(x);
        case WriteFinalDTS(dts) => m.WriteFinalDTS(dts);
      }
      n := n + 1;
      if m.failed {
        FailureLasts(timeScales, calls, n);
        return m.parts, false;
      }
    }
    assert calls[..n] == calls;
    m.InnerFlush(true);
    return m.parts, !m.failed;
  }

  /** Drives the plain muxer. */
  method PlayMP4(timeScales: seq<nat>, calls: seq<Call>) returns (tracks: seq<MTrack>, ok: bool)
    requires ValidCalls(calls, |timeScales|) && Current(calls).Some?
    ensures tracks == MuxerTimes.MRun(timeScales, calls).tracks && ok == !MuxerTimes.MRun(timeScales, calls).Fails()
  {
    var m := new MuxerMP4(timeScales);
    var n := 0;
    while n < |calls|
      invariant n <= |calls| && ValidCalls(calls[..n], |timeScales|)
      invariant m.View() == MuxerTimes.MRun(timeScales, calls[..n])
    {
      assert calls[..n + 1][..n] == calls[..n];
      ValidPrefix(calls, |timeScales|, n + 1);
      match calls[n] {
        case SetTrack(i) => m.SetTrack(i);
        case WriteSample(x) => m.WriteSample(x);
        case WriteFinalDTS(dts) => m.WriteFinalDTS(dts);
      }
      n := n + 1;
    }
    assert calls[..n] == calls;
    ok := m.Flush();
    return m.tracks, ok;
  }
}
