/** The two playback muxers as functions. Both receive the samples of several tracks with their
    playback DTS, negative before the requested start, and must present the same samples at the
    same times; one streams parts of a second, the other builds a single presentation. */
module MuxerModel {
  import opened Options
  import opened Rounding

  const UINT32: int := 0x1_0000_0000
  const INT31: int := 0x8000_0000

  datatype Item = Item(dts: int, ptsOffset: int, nonSync: bool, payload: seq<Byte>)

  datatype Sample = Sample(ptsOffset: int, nonSync: bool, payload: seq<Byte>, duration: nat)

  /** What the driver of a muxer does with it; tracks are known by their index. */
  datatype Call = SetTrack(track: nat) | WriteSample(item: Item) | WriteFinalDTS(dts: int)

  predicate ValidCalls(calls: seq<Call>, n: nat) {
    calls == [] ||
    var c := calls[|calls| - 1];
    && ValidCalls(calls[..|calls| - 1], n)
    && (if c.SetTrack? then c.track < n else Current(calls[..|calls| - 1]).Some?)
  }

  /** The track that was set last. */
  function Current(calls: seq<Call>): Option<nat> {
    if calls == [] then None
    else
      var c := calls[|calls| - 1];
      if c.SetTrack? then Some(c.track) else Current(calls[..|calls| - 1])
  }

  function Duration(dts: int, lastDTS: int): nat {
    (if dts >= lastDTS then dts - lastDTS else 0) % UINT32
  }

  function SetLastDuration(samples: seq<Sample>, duration: nat): seq<Sample>
    requires samples != []
  {
    samples[|samples| - 1 := samples[|samples| - 1].(duration := duration)]
  }

  function NewSample(x: Item): Sample {
    Sample(x.ptsOffset, x.nonSync, x.payload, 0)
  }

  // fragmented

  datatype FTrack = FTrack(timeScale: nat, firstDTS: int, lastDTS: int, samples: seq<Sample>) {
    predicate Valid() {
      firstDTS >= 0 ==> samples != []
    }

    function Write(x: Item): (r: FTrack)
      requires Valid()
      ensures r.Valid() && r.timeScale == timeScale
    {
      var s := NewSample(x);
      if x.dts >= 0 then
        if firstDTS < 0 then
          FTrack(timeScale, x.dts, x.dts, (if x.nonSync then samples else []) + [s])
        else
          FTrack(timeScale, firstDTS, x.dts, SetLastDuration(samples, Duration(x.dts, lastDTS)) + [s])
      else
        this.(samples := (if x.nonSync then samples else []) + [s])
    }

    function WriteFinalDTS(dts: int): (r: FTrack)
      requires Valid()
      ensures r.Valid() && r.timeScale == timeScale
    {
      if samples != [] && firstDTS >= 0 then this.(samples := SetLastDuration(samples, Duration(dts, lastDTS)))
        else this
    }

    predicate IsFull() {
      lastDTS - firstDTS >= DurationGoToMp4(SECOND, timeScale)
    }

    /** Whether flushing writes something: the last sample stays, unless this is the end. */
    predicate HasChunk(final: bool) {
      firstDTS >= 0 && (|samples| > 1 || (final && samples != []))
    }

    function TakeChunk(final: bool): Chunk
      requires HasChunk(final)
    {
      Chunk(firstDTS, if final then samples else samples[..|samples| - 1])
    }

    function Flushed(final: bool): (r: FTrack)
      requires Valid()
      ensures r.Valid() && r.timeScale == timeScale
    {
      if HasChunk(final) && !final then this.(samples := samples[|samples| - 1..], firstDTS := lastDTS) else this
    }
  }

  /** The samples of one track in one part. */
  datatype Chunk = Chunk(baseTime: int, samples: seq<Sample>)

  datatype Part = Part(sequenceNumber: nat, chunks: map<nat, Chunk>)

  datatype FState = FState(
    current: Option<nat>, tracks: seq<FTrack>, initPending: bool, nextSequenceNumber: nat, parts: seq<Part>,
    failed: bool)
  {
    predicate Valid() {
      && (forall i :: 0 <= i < |tracks| ==> tracks[i].Valid())
      && (current.Some? ==> current.value < |tracks|)
    }

    function Chunks(final: bool): map<nat, Chunk> {
      map i: nat | i < |tracks| && tracks[i].HasChunk(final) :: tracks[i].TakeChunk(final)
    }

    function Flush(final: bool): (r: FState)
      requires Valid()
      ensures r.Valid() && |r.tracks| == |tracks| && r.current == current
      ensures forall i :: 0 <= i < |tracks| ==> r.tracks[i].timeScale == tracks[i].timeScale
    {
      var chunks := Chunks(final);
      if chunks == map[] then
        if initPending then this.(failed := true) else this
      else
        this.(tracks := seq(|tracks|, i requires 0 <= i < |tracks| => tracks[i].Flushed(final)),
              initPending := false,
              nextSequenceNumber := nextSequenceNumber + 1,
              parts := parts + [Part(nextSequenceNumber, chunks)])
    }

    function Step(c: Call): (r: FState)
      requires Valid() && !failed && (if c.SetTrack? then c.track < |tracks| else current.Some?)
      ensures r.Valid() && |r.tracks| == |tracks|
      ensures r.current == if c.SetTrack? then Some(c.track) else current
      ensures forall i :: 0 <= i < |tracks| ==> r.tracks[i].timeScale == tracks[i].timeScale
    {
      match c
      case SetTrack(i) => this.(current := Some(i))
      case WriteSample(x) =>
        var i := current.value;
        var s := this.(tracks := tracks[i := tracks[i].Write(x)]);
        if x.dts >= 0 && s.tracks[i].IsFull() then s.Flush(false) else s
      case WriteFinalDTS(dts) =>
        var i := current.value;
        this.(tracks := tracks[i := tracks[i].WriteFinalDTS(dts)])
    }
  }

  function FCreate(timeScales: seq<nat>): FState {
    FState(None, seq(|timeScales|, i requires 0 <= i < |timeScales| => FTrack(timeScales[i], -1, 0, [])), true, 0, [],
           false)
  }

  // plain

  datatype MTrack = MTrack(timeScale: nat, timeOffset: int, samples: seq<Sample>, lastDTS: int) {
    function Write(x: Item): MTrack {
      var kept := if (x.dts < 0 || lastDTS < 0) && !x.nonSync then [] else samples;
      var s := NewSample(x).(ptsOffset := if x.nonSync then x.ptsOffset else 0);
      if kept == [] then MTrack(timeScale, Int32(x.dts), [s], x.dts)
      else MTrack(timeScale, timeOffset, SetLastDuration(kept, Duration(x.dts, lastDTS)) + [s], x.dts)
    }

    function WriteFinalDTS(dts: int): MTrack {
      if samples != [] then this.(samples := SetLastDuration(samples, Duration(dts, lastDTS))) else this
    }
  }

  /** Truncation to 32 bits, with sign. */
  function Int32(x: int): int {
    (x + INT31) % UINT32 - INT31
  }

  datatype MState = MState(current: Option<nat>, tracks: seq<MTrack>) {
    predicate Valid() {
      current.Some? ==> current.value < |tracks|
    }

    function Step(c: Call): (r: MState)
      requires Valid() && (if c.SetTrack? then c.track < |tracks| else current.Some?)
      ensures r.Valid() && |r.tracks| == |tracks|
      ensures r.current == if c.SetTrack? then Some(c.track) else current
    {
      match c
      case SetTrack(i) => this.(current := Some(i))
      case WriteSample(x) => this.(tracks := tracks[current.value := tracks[current.value].Write(x)])
      case WriteFinalDTS(dts) => this.(tracks := tracks[current.value := tracks[current.value].WriteFinalDTS(dts)])
    }

    /** The presentation is written unless the current track shows nothing. */
    predicate Fails()
      requires Valid() && current.Some?
    {
      var t := tracks[current.value];
      t.samples == [] || t.lastDTS < 0
    }
  }

  function MCreate(timeScales: seq<nat>): MState {
    MState(None, seq(|timeScales|, i requires 0 <= i < |timeScales| => MTrack(timeScales[i], 0, [], 0)))
  }
}
