/** The recorder as objects that are updated in place. Every method is proved to do exactly what the
    functions of RecorderModel say, so the results about recordings hold for it. */
module RecorderObjects {
  import opened Options
  import opened Rounding
  import opened RecorderModel

  class PartWriter {
    const maxPartSize: nat
    const segmentStartDTS: int
    const number: nat
    const startDTS: int
    var partTracks: map<nat, PartTrack>
    var size: nat
    var endDTS: int

    ghost function View(): Part
      reads this
    {
      Part(number, startDTS, partTracks, size, endDTS)
    }

    constructor (maxPartSize: nat, segmentStartDTS: int, number: nat, startDTS: int)
      ensures View() == NewPart(number, startDTS)
      ensures this.maxPartSize == maxPartSize && this.segmentStartDTS == segmentStartDTS
    {
      this.maxPartSize, this.segmentStartDTS, this.number, this.startDTS := maxPartSize, segmentStartDTS, number,
        startDTS;
      partTracks, size, endDTS := map[], 0, 0;
    }

    method Write(i: nat, track: Track, sample: Sample, dts: int) returns (ok: bool)
      requires track.timeScale > 0
      modifies this
      ensures var r := PartWrite(old(View()), i, track, sample, dts, segmentStartDTS, maxPartSize);
              && ok == r.Some?
              && View() == if ok then r.value else old(View())
    {
      var sampleSize := |sample.payload|;
      if size + sampleSize > maxPartSize {
        return false;
      }
      size := size + sampleSize;
      if i !in partTracks {
        partTracks := partTracks[i := PartTrack(track.id,
                                                MultiplyAndDivide(dts - segmentStartDTS, track.timeScale, SECOND), [])];
      }
      partTracks := partTracks[i := partTracks[i].(samples := partTracks[i].samples + [sample])];
      var end := dts + TimestampToDuration(sample.duration, track.timeScale);
      if end > endDTS {
        endDTS := end;
      }
      return true;
    }

    method Duration() returns (d: int)
      ensures d == View().endDTS - View().startDTS
    {
      return endDTS - startDTS;
    }
  }

  class SegmentWriter {
    const settings: Settings
    const startDTS: int
    const startNTP: int
    const number: nat
    var written: seq<Part>
    var curPart: PartWriter?
    var endDTS: int
    var nextPartNumber: nat

    ghost function Repr(): set<object>
      reads this
    {
      {this} + (if curPart == null then {} else {curPart})
    }

    ghost predicate Valid()
      reads this
    {
      curPart != null ==> curPart.segmentStartDTS == startDTS && curPart.maxPartSize == settings.maxPartSize
    }

    ghost function View(): Segment
      reads Repr()
    {
      Segment(number, startDTS, startNTP, written, if curPart == null then None else Some(curPart.View()), endDTS,
              nextPartNumber)
    }

    constructor (settings: Settings, startDTS: int, startNTP: int, number: nat)
      ensures Valid() && fresh(Repr()) && this.settings == settings
      ensures View() == NewSegment(number, startDTS, startNTP)
    {
      this.settings, this.startDTS, this.startNTP, this.number := settings, startDTS, startNTP, number;
      written, curPart, endDTS, nextPartNumber := [], null, startDTS, 0;
    }

    /** Parts are appended to the segment's file. */
    method CloseCurPart()
      requires Valid() && curPart != null
      modifies this
      ensures Valid() && curPart == null && View() == old(RecorderModel.CloseCurPart(View()))
    {
      written := written + [Part(curPart.number, curPart.startDTS, curPart.partTracks, curPart.size, curPart.endDTS)];
      curPart := null;
    }

    method OpenPart(dts: int)
      requires Valid()
      modifies this
      ensures Valid() && curPart != null && fresh(curPart) && View() == old(RecorderModel.OpenPart(View(), dts))
    {
      curPart := new PartWriter(settings.maxPartSize, startDTS, nextPartNumber, dts);
      nextPartNumber := nextPartNumber + 1;
    }

    method Write(i: nat, track: Track, sample: Sample, dts: int) returns (ok: bool)
      requires Valid() && track.timeScale > 0
      modifies Repr()
      ensures Valid() && fresh(Repr() - old(Repr()))
      ensures (View(), ok) == SegmentWrite(old(View()), i, track, sample, dts, settings)
    {
      var end := dts + TimestampToDuration(sample.duration, track.timeScale);
      if end > endDTS {
        endDTS := end;
      }
      if curPart == null {
        OpenPart(dts);
      } else {
        var duration := curPart.Duration();
        if duration >= settings.partDuration {
          CloseCurPart();
          OpenPart(dts);
        }
      }
      ok := curPart.Write(i, track, sample, dts);
    }

    /** The file of the segment, if anything has been written to it. */
    method Close(files: seq<File>) returns (r: seq<File>)
      requires Valid()
      modifies this
      ensures Valid() && r == SegmentClose(old(View()), files)
    {
      if curPart != null {
        CloseCurPart();
      }
      if written == [] {
        return files;
      }
      return files + [File(number, startDTS, startNTP, written, endDTS - startDTS)];
    }
  }

  /** Where the next segment has to start: the oldest pending sample that is close to the newest one. */
  method FindNextSegmentStartingPos(tracks: seq<Track>) returns (ntp: int, dts: int)
    requires ValidTracks(tracks)
    ensures (ntp, dts) == NextSegmentStartingPos(tracks)
  {
    var maxDTS := 0;
    var n := 0;
    while n < |tracks|
      invariant n <= |tracks| && maxDTS == NewestPending(tracks[..n])
    {
      assert tracks[..n + 1][..n] == tracks[..n];
      if tracks[n].next.Some? {
        var d := TimestampToDuration(tracks[n].next.value.dts, tracks[n].timeScale);
        if d > maxDTS {
          maxDTS := d;
        }
      }
      n := n + 1;
    }
    assert tracks[..n] == tracks;
    ntp, dts := ZERO_TIME, maxDTS;
    n := 0;
    while n < |tracks|
      invariant n <= |tracks| && (ntp, dts) == OldestPending(tracks[..n], maxDTS)
    {
      assert tracks[..n + 1][..n] == tracks[..n];
      if tracks[n].next.Some? {
        var d := TimestampToDuration(tracks[n].next.value.dts, tracks[n].timeScale);
        if maxDTS - d <= MAX_BASETIME && d <= dts {
          ntp, dts := tracks[n].next.value.ntp, d;
        }
      }
      n := n + 1;
    }
    assert tracks[..n] == tracks;
  }

  class Recorder {
    const settings: Settings
    var tracks: seq<Track>
    var hasVideo: bool
    var segment: SegmentWriter?
    var nextSegmentNumber: nat
    var files: seq<File>
    var failed: bool
    ghost var log: seq<Fate>

    ghost function Repr(): set<object>
      reads this, segment
    {
      {this} + (if segment == null then {} else segment.Repr())
    }

    ghost predicate Valid()
      reads this, segment
    {
      && ValidTracks(tracks)
      && (segment != null ==> segment.Valid() && segment.settings == settings)
    }

    ghost function View(): State
      reads Repr()
    {
      State(tracks, hasVideo, if segment == null then None else Some(segment.View()), nextSegmentNumber, files, failed,
            log)
    }

    constructor (settings: Settings, tracks: seq<Track>)
      requires ValidTracks(tracks)
      ensures Valid() && fresh(Repr()) && this.settings == settings
      ensures View() == Create(tracks)
    {
      this.settings, this.tracks := settings, tracks;
      hasVideo, segment, nextSegmentNumber, files, failed, log := false, null, 0, [], false, [];
    }

    method OpenSegment(startDTS: int, startNTP: int)
      requires Valid()
      modifies this
      ensures Valid() && segment != null && fresh(segment.Repr())
      ensures View() == old(RecorderModel.OpenSegment(View(), startDTS, startNTP))
    {
      segment := new SegmentWriter(settings, startDTS, startNTP, nextSegmentNumber);
      nextSegmentNumber := nextSegmentNumber + 1;
    }

    method SwitchSegment()
      requires Valid() && segment != null
      modifies Repr()
      ensures Valid() && fresh(Repr() - old(Repr()))
      ensures View() == Switch(old(View()))
    {
      files := segment.Close(files);
      var ntp, dts := FindNextSegmentStartingPos(tracks);
      OpenSegment(dts, ntp);
    }

    /** Writes into the segment the sample of track i that has just got a successor. */
    method Keep(i: nat, sample: Sample, dts: int)
      requires Valid() && segment != null && i < |tracks| && dts == Dts(tracks[i], sample.dts)
      modifies Repr()
      ensures Valid() && segment != null && fresh(Repr() - old(Repr()))
      ensures View() == RecorderModel.Keep(old(View()), i, sample, settings)
    {
      var ok := segment.Write(i, tracks[i], sample, dts);
      if ok {
        log := log + [Fate(i, sample, segment.number, Some(segment.curPart.number))];
      } else {
        failed := true;
      }
    }

    method StoreSample(i: nat, sample: Sample)
      requires Valid() && i < |tracks| && tracks[i].next.Some?
      modifies Repr()
      ensures Valid() && fresh(Repr() - old(Repr()))
      ensures View() == Store(old(View()), i, sample, settings)
    {
      var dts := TimestampToDuration(sample.dts, tracks[i].timeScale);
      if segment == null {
        OpenSegment(dts, sample.ntp);
      } else if dts < segment.startDTS {
        log := log + [Fate(i, sample, segment.number, None)];
        return;
      }
      Keep(i, sample, dts);
      if failed {
        return;
      }
      var next := tracks[i].next.value;
      var nextDTS := TimestampToDuration(next.dts, tracks[i].timeScale);
      if (!hasVideo || tracks[i].video) && !next.nonSync && nextDTS - segment.startDTS >= settings.segmentDuration {
        SwitchSegment();
      }
    }

    /** The new sample becomes the pending one, and the duration of the previous one becomes known. */
    method AcceptSample(i: nat, sample: Sample) returns (known: Option<Sample>)
      requires Valid() && i < |tracks|
      modifies `hasVideo, `tracks
      ensures Valid() && (View(), known) == Accept(old(View()), i, sample)
    {
      if tracks[i].video {
        hasVideo := true;
      }
      var previous := tracks[i].next;
      tracks := tracks[i := tracks[i].(next := Some(sample))];
      if previous.None? {
        return None;
      }
      var duration := sample.dts - previous.value.dts;
      if duration < 0 {
        tracks := tracks[i := tracks[i].(next := Some(sample.(dts := previous.value.dts)))];
        duration := 0;
      }
      assert tracks == old(tracks)[i := tracks[i]];
      return Some(previous.value.(duration := duration % UINT32));
    }

    method WriteSample(i: nat, sample: Sample)
      requires Valid() && i < |tracks|
      modifies Repr()
      ensures Valid() && fresh(Repr() - old(Repr()))
      ensures View() == Write(old(View()), i, sample, settings)
    {
      var known := AcceptSample(i, sample);
      if known.Some? {
        StoreSample(i, known.value);
      }
    }

    /** Recording ends: what is still in memory is written. */
    method Finish()
      requires Valid()
      modifies Repr()
      ensures files == Close(old(View())).files
    {
      if segment != null {
        files := segment.Close(files);
      }
    }
  }
}
