# Verification of MediaMTX's path lifecycle, recorder and playback

MediaMTX routes live streams between publishers, static sources and readers, records them into
segments and plays recordings back. This project models the parts of it in which several components,
timers, clocks or file formats have to agree, and proves what they promise each other. `dafny verify
dfyconfig.toml` checks all of it.

## What is modelled

- **The path** (`Config`, `PathModel`, `PathSafety`, `PathRuns`, `PathFailures`, `PathAnswers`, `PathResponses`, `Path`). The
  event loop of a path with its source, stream, readers, two queues of held requests, two on-demand state
  machines with two timers each, the on-demand command and the recorder. `PathObject.Path` is the object whose
  handlers update its fields; each handler is proved to do what a function on the whole state does. An
  independent observer sees only what the path does to the outside, in order, and rejects any action that
  breaks the protocol; which runs it accepts is characterized exactly. What the path does in response to each event
  is also listed action by action, without its handlers, and proved to be what it does.
- **The static source handler** (`SourceProtocol`, `PathAndSource`). Path, handler loop and source instance as
  three processes that hand off over unbuffered channels, with cancellation and restart, and their runs
  together with the events of the path.
- **The path manager** (`PathManager`). The index from names to paths, requests, and hot reload.
- **The recorder** (`RecorderModel`, `RecorderSafety`, `RecorderRuns`, `RecorderFiles`, `RecorderSwitch`,
  `RecorderStarts`, `RecorderTiming`, `RecorderDurations`, `RecorderOverlap`, `Recorder`, `RecordingExamples`). The
  one-sample-delay fMP4 writer with parts and segments for tracks of different clock rates: what the files hold, when
  one is completed, where it starts and how long it lasts.
- **Playback** (`Playback`, `PlaybackRuns`, `PlaybackGaps`, `OnList`, `MuxerModel`, `MuxerRuns`, `MuxerAgreement`,
  `MuxerTimes`, `Muxers`, `RecordAndPlay`, `PlaybackOrder`, `EndToEnd`, `Continuity`, `PlaybackExamples`). Which
  segments are played, listed together and placed where, the two muxers, and the whole way of a sample from the
  recorder through the files to what is shown.
- **Recording names and lookup** (`RecordNames`, `RecordPath`, `RecordEncode`, `RecordFormats`, `RecordDecode`,
  `RecordStore`).
- **Supporting algorithms** (`Rounding`, `Sorting`, `NtpEstimator`, `Nalus`, `H264`, `H265`).

Objects that the source updates in place are classes. Their methods state the whole new state by a
function of the old one; the results about runs are lemmas about these functions.

## Where the code does not do what it seems to

The lemmas named here show an instance or say exactly when it happens.

- A stream is stored before it is initialized. When initialization fails it stays, and is handed out to
  later requests (`PathFailures.StaleStreamExample`, `PathFailures.StepIsSafeIff`).
- A cancelled path can be brought a second stream by its static source. The first one, with its recorder and
  hook, is then forgotten and never closed (`PathFailures.SecondStreamExample`, `PathAndSource.LateStreamExample`,
  `PathAndSource.SourceKeepsThePathSafe`).
- When a demanded publisher comes and leaves again, a later request is put on hold without a timer
  (`PathFailures.HeldForeverExample`, `PathFailures.OnHoldIsTimedIff`).
- A source that reads another path through the path manager (the secondary stream of the Raspberry Pi
  camera does) can deadlock with a path manager that removes its path (`SourceProtocol.DeadlockExample`,
  `SourceProtocol.StoppingGoesOnIff`).
- Hot reloads are sent by separate goroutines and can arrive out of order, so that a path stays with an outdated
  configuration (`PathManager.OutdatedExample`, `PathManager.ReloadsRace`).
- A path that a reload moves to another expression keeps the submatches of the first one for its commands and
  its source (`PathManager.StaleMatchesExample`, `PathManager.ReloadKeepsMatchesIff`).
- The newest pending sample is looked for from zero upwards, so tracks with negative timestamps can lose
  samples at a segment switch, and the segment gets the zero NTP (`RecorderSwitch.NegativeTimeExample`,
  `RecorderSwitch.KeepingUpIsEnoughIff`).
- The end of a part is likewise looked for from zero upwards, so that a part of negative timestamps is taken
  to last until zero (`RecorderDurations.RecordingLasts`).
- The duration in the header of a file is in milliseconds and 32 bits: a longer one wraps around
  (`Continuity.HeaderTellsDurationIff`).
- Truncation can place a part two ticks too early, so that samples of zero duration at the border of two parts are
  played backwards (`RecordingExamples.TwoTicksExample`, `PlaybackExamples.UsualClocksExample`,
  `EndToEnd.PlaybackGoesForwardIff`).
- When a track goes back before the requested start after it has been visible, the two muxers show different
  samples of it (`MuxerTimes.GoingBackExample`, `MuxerTimes.MuxersAgree`).
- The plain MP4 muxer decides by the track that was set last whether there is anything to show, the
  fragmented one by all tracks (`MuxerTimes.TwoTracksExample`, `MuxerTimes.FailuresCharacterized`).
- The minutes of a time zone in a file name are read as hours (`RecordNames.ZoneRoundTripIff`), and a path name is
  read too short when a piece of it followed by the rest also has the format
  (`RecordDecode.ShorterNameExample`, `RecordDecode.DecodingRecoversIff`).
- A name that is put behind a percent sign can complete it to a tag, which is then replaced as well
  (`RecordEncode.ValidNamesRenderIff`).
- The H265 parameter update compares every unit with the parameters stored before the access unit, so a
  unit that changes a parameter set and changes it back leaves the first change behind
  (`H265.ChangedBackExample`, `H265.UnitBringsItsParamsIff`). H264 compares with the latest ones.

## Model

| member | source | states |
|---|---|---|
| PathRuns.EveryRunIsSafe | internal/core/path.go:242-316 | Over every possible run of a path in which streams initialize and none is brought on top of another (StreamsInitialize, StreamsDoNotOverlap; PathFailures.RunIsSafeIff says that no other run is safe), an independent observer of its outside actions accepts all of them in order, and at every loop head the source, stream, reader, on-demand, timer and queue invariants hold; a finished path has undone everything |
| PathRuns.EveryRequestIsAnsweredOnce | internal/core/path.go:213-219 | Over every such run the multiset of requests received is exactly the multiset answered plus those on hold, and once the path is destroyed it is exactly the multiset answered: nothing is answered twice or forgotten |
| PathRuns.EverySwitchAlternates | internal/core/path.go:703-770 | Over every such run, ready and not-ready notifications, ready hooks, source starts and stops, on-demand hooks and recorders each strictly alternate starting with on, and everything switched on is off again once the path is destroyed |
| PathRuns.OnlyOpenStreamsAreHandedOut | internal/core/path.go:737-749 | Over every such run, a request answered with a stream gets one that was opened before and has not been closed since |
| PathRuns.NoReaderOutlivesItsStream | internal/core/path.go:751-770 | Over every such run, between giving a stream to a reader and closing a stream the reader has left or has been closed |
| PathSafety.StepSeen | internal/core/path.go:242-316 | One loop iteration from any state that satisfies the invariants, for any possible event that neither fails to initialize a stream nor brings one to a path that has one, leads to such a state or to a properly destroyed path |
| PathSafety.ConsumeOnHoldSeen | internal/core/path.go:737-749 | Answering everything on hold after a stream has opened gives every held request exactly one suitable answer and keeps the reader limit |
| PathSafety.AddReaderPostSeen | internal/core/path.go:827-861 | A reader is accepted, accepted again or refused exactly as the limit allows, whatever was observed before |
| PathSafety.SetNotReadySeen | internal/core/path.go:751-770 | Getting not ready is announced before readers, hook, recorder and stream go, in an order that the observer accepts |
| PathSafety.SetReadySeen | internal/core/path.go:703-735 | Getting ready opens a new stream, starts recording if configured, runs the hook and announces the path, once each |
| PathSafety.ReloadConfSeen | internal/core/path.go:355-380 | A hot reload restarts the recorder exactly when a recording setting has changed, and never leaves one without a stream |
| PathSafety.LeaveSeen | internal/core/path.go:199-240 | The tail of a run answers all held requests, undoes every hook and releases the source, whatever state the loop was left in |
| PathSafety.AddPublisherSeen | internal/core/path.go:458-503 | Publishing replaces an existing publisher only if that is configured, after the old stream is gone; otherwise it is refused with the right reason |
| PathFailures.StepIsSafeIff | internal/core/path.go:703-715 | For every possible event: one iteration is safe if and only if it neither tries to open a stream that fails to initialize, which is stored before it is initialized, nor opens one while the path has one |
| PathFailures.RunIsSafeIff | internal/core/path.go:242-316 | For every configuration and every possible run: the run is safe if and only if every stream that is opened can be initialized and meets a path without stream; once the observer has rejected something, nothing later makes up for it |
| PathFailures.SecondStreamExample | internal/core/path.go:703-735 | On every recording path with a permanent static source, two set-ready events and the end of the path leave the first stream open for ever: two streams, recorders, hooks and announcements, and one end for each |
| PathFailures.StaleStreamExample | internal/core/path.go:703-715 | After a failed initialization a later describe request is answered with a stream that was never opened, and the not-ready hook is called although the ready hook never ran |
| PathFailures.OnHoldIsTimedIff | internal/core/path.go:435-441 | For every possible event, failing ones included: requests on hold stay covered by an armed ready timer unless, exactly when, a request finds that a demanded publisher came and left again |
| PathFailures.AbandonedIsReachable | internal/core/path.go:451-456 | On every on-demand publisher path that state can be reached |
| PathFailures.HeldForeverExample | internal/core/path.go:519-525 | In that state a request is put on hold without timer and stays there after the on-demand command has been stopped |
| PathAnswers.EveryAnswerFits | internal/core/path.go:412-547 | Over every such run, every answer belongs to the event in response to which it is given: a stream is the one that is open, for the request itself, or the one that the event brings, for what was on hold; requests on hold are otherwise answered only by the timer that waits for a stream (timed out) and at termination (terminated); every refusal has its reason in the state before the event and the fixed configuration; redirects lead where that says |
| PathResponses.StepDoes | internal/core/path.go:242-316 | For every state that satisfies the invariants and every possible event that neither fails to initialize a stream nor opens a second one: everything the path does to the outside, answers, notifications, hooks, recorder and source actions, is, in order, a list that is given for that event without the handlers (PathResponses.Visible) |
| PathResponses.EveryRunDoes | internal/core/path.go:242-316 | Over every such run the path does exactly what is listed for its events, one after the other |
| PathResponses.FailureDoes | internal/core/path.go:703-715 | A stream that cannot be initialized stays with the path, which says so to a publisher that brought it and has by then closed the one it was to replace |
| PathResponses.SecondStreamDoes | internal/core/path.go:382-398 | A stream on top of another one is opened, recorded, hooked and announced like any other, and nothing is done about the first one |
| PathResponses.EveryRequestIsServed | internal/core/path.go:412-449 | Over every such run, a request to describe or read that reaches a path with a stream is answered at once with that stream, or with the reader limit exactly if the reader is new and the limit is reached, and a reader that is let in is a reader afterwards; on an on-demand path without stream the source or command is started unless it is, and the request is on hold behind all others; elsewhere it is answered at once and nothing is kept |
| PathResponses.ReaderIsServed | internal/core/path.go:505-528 | The same for one reader in any state that satisfies the invariants |
| PathResponses.DescribeIsServed | internal/core/path.go:412-449 | The same for one describe request |
| PathResponses.ReadersDo | internal/core/path.go:744-748 | Held readers are let in in order until the limit is reached, and each is answered by whether it was |
| PathResponses.HoldEnds | internal/core/path.go:318-353 | Nothing stays on hold when a stream comes, when the time to wait for one is over, or after termination |
| PathResponses.TerminatedComesLast | internal/core/path.go:199-219 | Over every such run, nobody is told that the path has been terminated before the rest of the system is |
| PathAndSource.JointRunIsPossible | internal/core/path.go:872-905 | Path and static source together: in every run of both, whatever the interleaving, the source events that the hand-off protocol delivers are possible events of the path model |
| PathAndSource.OverlapIff | internal/core/path.go:872-889 | In every such run in which streams initialize: a stream of the path is opened on top of another one if and only if the source hands over a stream while the protocol says that it has brought one |
| PathAndSource.InTimeMeansNoOverlap | internal/core/path.go:872-889 | That never happens in a run in which no set-ready request is received after the path has been cancelled |
| PathAndSource.SourceKeepsThePathSafe | internal/staticsources/handler.go:240-283 | Every joint run is safe if and only if every stream can be initialized and the source brings none on top of another |
| PathAndSource.LateStreamExample | internal/core/path.go:891-905 | A joint run in which a cancelled path skips the answer to set-not-ready and then receives a second set-ready; it is not safe |
| PathObject.Path.constructor | internal/core/path.go:166-190 | A new path has the source that its configuration says, started unless it is on demand, and is good: invariants hold and the observer has accepted everything |
| PathObject.Path.CloseReaders | internal/core/path.go:754-758 | The loop removes every reader once, in any order, and nothing else |
| PathObject.Path.ReplyAll | internal/core/path.go:319-327 | The loop answers a whole queue in order |
| PathObject.Path.FlushOnHold | internal/core/path.go:318-328 | Both queues are answered in order with the same error and emptied; readers stay |
| PathObject.Path.AddReadersPost | internal/core/path.go:744-748 | The loop adds the held readers in order, each within the limit |
| PathObject.Path.ConsumeOnHold | internal/core/path.go:737-749 | Both queues are answered in order with the new stream and emptied; on a path with a stream the invariants hold afterwards |
| PathObject.Path.DoSourceSetReady | internal/core/path.go:382-398 | Keeps a good path good and leaves nothing on hold, if the stream initializes and the path had none |
| PathObject.Path.DoAddPublisher | internal/core/path.go:458-503 | Keeps a good path good, whether it refuses, overrides or accepts, if the stream initializes |
| PathObject.Path.OnStaticTimer | internal/core/path.go:318-335 | A firing timer of an on-demand source leaves a safe path |
| PathObject.Path.OnPublisherTimer | internal/core/path.go:337-353 | A firing timer of an on-demand publisher leaves a safe path |
| PathObject.Path.Leave | internal/core/path.go:199-240 | Turns a good path into one that has answered and undone everything |
| PathObject.Path.Handle | internal/core/path.go:242-316 | One iteration of the event loop does what the state function says, so what PathResponses.Visible lists; on a good path it leaves a safe one if and only if the event neither fails to initialize a stream nor opens one on top of another |
| PathObject.Path.RunInner | internal/core/path.go:242-316 | The event loop leaves a safe path if and only if the events are clean, for any possible sequence of events |
| PathObject.Live | internal/core/path.go:166-240 | A path object that is created, fed and destroyed keeps all invariants and satisfies the observer if and only if its events are clean |
| SourceProtocol.EveryStateIsInvariant | internal/staticsources/handler.go:197-333 | In every reachable state of path, handler loop and source instance, the hand-off invariants hold; Start and Stop never meet the wrong running flag |
| SourceProtocol.OneInstance | internal/staticsources/handler.go:240-283 | In every reachable state, at the head of the handler loop exactly one instance exists if and only if it is not being recreated, and none is left once the handler is done |
| SourceProtocol.SourceEventsFitThePath | internal/staticsources/handler.go:253-257 | In every reachable state, set-ready meets a running source and, unless the path is cancelled, a path without stream; set-not-ready meets a path with a stream |
| SourceProtocol.StreamingIsReachable | internal/staticsources/handler.go:253-254 | The state from which both examples start can be reached |
| SourceProtocol.SecondStreamExample | internal/core/path.go:872-905 | Once the path is cancelled a restarted instance can offer a second stream to a path that still has the first |
| SourceProtocol.StoppingGoesOnIff | internal/staticsources/handler.go:197-211 | In every reachable state a path that waits for its source to stop can count on some step if and only if the source is not itself waiting for a path manager that waits for this path |
| SourceProtocol.NoDeadlockWithoutManager | internal/staticsources/handler.go:197-211 | Sources that never read through the path manager cannot deadlock |
| SourceProtocol.DeadlockIsForever | internal/staticsources/handler.go:335-338 | No step leads out of that cycle |
| SourceProtocol.DeadlockExample | internal/staticsources/handler.go:335-338 | The cycle can be reached by removing the path of a source that is reading through the path manager |
| SourceProtocol.StoppingIsBounded | internal/staticsources/handler.go:245-282 | Under every scheduling the path is blocked for at most 23 steps, plus 17 for each retry timer chosen after cancellation and 5 for each call to the path manager |
| PathManager.ReloadKeepsIndex | internal/core/path_manager.go:204-267 | Whatever paths and configurations there are, after a reload each entry is a live path of that name whose recorded configuration is the one its name resolves to, is the one sent last, and agrees, live and pending, on all fixed fields, and which keeps the submatches of its first configuration; every named configuration has a path |
| PathManager.ReloadKeepsPathIff | internal/core/path_manager.go:220-254 | For any state in which the index is right and any new configurations: which paths stay, with their publisher and readers, and what is sent to them, said by the fixed parts alone |
| PathManager.ReloadKeepsMatchesIff | internal/core/path_manager.go:220-254 | The submatches that a path keeps for its commands and source stay current over a reload if and only if its name is found by the same expression as before; paths that are new have current ones |
| PathManager.SubmatchesAreOfFirst | internal/core/path_manager.go:431-458 | A path keeps the submatches of the expression by which its first configuration was found, and none if that was found by its own name |
| PathManager.StaleMatchesExample | internal/core/path_manager.go:222-222 | A reload that moves a path from one expression to another leaves it with the submatches of the first |
| PathManager.SurvivorIsRight | internal/core/path_manager.go:230-254 | A path survives a reload only with a configuration that agrees on all fixed fields |
| PathManager.ReloadsRace | internal/core/path_manager.go:236-253 | In any state in which the index is right, so after serving any requests: once everything pending has arrived, in whatever order, the path has got each configuration sent to it once, runs the one that arrived last, and runs the recorded one if and only if the one sent last has arrived last |
| PathManager.OneReloadAtATime | internal/core/path_manager.go:236-253 | A path that gets one reload at a time stays up to date |
| PathManager.OutdatedExample | internal/core/path_manager.go:236-253 | Of two reloads under way the older one can arrive last and then stays in effect |
| PathManager.Manager.constructor | internal/core/path_manager.go:106-128 | The index is right at the start and every named configuration has a path |
| PathManager.Manager.CreatePath | internal/core/path_manager.go:431-458 | A new path gets a new entry and nothing else changes |
| PathManager.Manager.RemoveAndClosePath | internal/core/path_manager.go:269-273 | The path is closed and its name is free |
| PathManager.Manager.CompareConfs | internal/core/path_manager.go:205-218 | Exactly the changed configurations are found, split by whether they can be reloaded |
| PathManager.Manager.Decide | internal/core/path_manager.go:221-254 | A path is removed if and only if its name no longer resolves to a configuration with the same fixed part, and is sent the new configuration if and only if it stays and that differs from the recorded one |
| PathManager.Manager.DoReloadConf | internal/core/path_manager.go:204-267 | After a reload every name that had a path keeps it, open, with exactly one more configuration on its way if that has changed and none otherwise, if and only if the name resolves to a configuration with the same fixed part; every other path is closed. The index is right and every named configuration has a path |
| PathManager.Manager.DoClosePath | internal/core/path_manager.go:289-294 | A late close of a replaced path changes nothing |
| PathManager.Manager.SetPathReady | internal/core/path_manager.go:296-318 | A late ready or not-ready of a replaced path changes nothing |
| PathManager.Manager.DoRequest | internal/core/path_manager.go:336-409 | Unknown name, changed configuration, no authorization, or the path of that name, created if it did not exist |
| PathManager.Manager.Handle | internal/core/path_manager.go:156-202 | One event: a reload as in DoReloadConf, a close, ready or not-ready only of the path that has the name, a request that makes a path exactly when there is none and it may, or the delivery of a pending configuration; anything else changes nothing |
| PathManager.Manager.DeliverReload | internal/core/path.go:863-869 | A path applies a configuration that was sent to it; the index stays right |
| PathManager.Serve | internal/core/path_manager.go:156-202 | For any sequence of events: every state follows from the one before by what its event does, said without the handlers, and the index is right in each; in the end a path to which nothing is on its way runs what the index records if and only if what was sent last arrived last, and its submatches are current if and only if what was sent last is found by the same expression as what it was created with |
| Config.FindPathConf | internal/conf/path.go:67-106 | Exact name; else invalid name; else a matching expression: a catch-all only if no other expression matches, and any other only if every other match that is no catch-all has a greater name, by the first byte that differs or as a proper prefix; else nothing |
| Config.StringLessIff | internal/conf/path.go:86-95 | Less means: less at the first byte that differs, or a proper prefix |
| Config.LookupIsPreferred | internal/conf/path.go:86-95 | The declarative lookup prefers the same configuration |
| Config.InvalidNameIff | internal/conf/path.go:20-39 | A name is invalid if and only if it is empty, begins or ends with a slash, or has a character that is not a digit, letter, or one of six others |
| Config.GatherRegexps | internal/conf/path.go:79-85 | Exactly the configurations with an expression, in any order of the map |
| Config.LookupIsUnique | internal/conf/path.go:67-106 | The answer cannot depend on the order of the map, given that the catch-all aliases are not both configured |
| Config.LookupExists | internal/conf/path.go:67-106 | There is an answer for every name |
| Config.TriedBeforeIsTotal | internal/conf/path.go:86-95 | The order in which expressions are tried is total on one configuration map |
| Config.TriedBeforeIsStrictWeak | internal/conf/path.go:86-95 | The comparison given to the sort is a strict weak order |
| Sorting.SortSlice | internal/recordstore/segment.go:170-172 | The contract of the sort: a permutation in which nothing is less than what is before it |
| Rounding.MultiplyAndDivideExact | internal/recorder/format_mpegts.go:28-38 | The split computation equals the truncated quotient of the exact product, for both signs |
| Rounding.MultiplyAndDivideMonotone | internal/ntpestimator/estimator.go:14-18 | A later timestamp never converts to an earlier one |
| Rounding.MultiplyAndDivideError | internal/recorder/format_mpegts.go:28-42 | The conversion is less than one unit away from the exact rational, towards zero |
| Rounding.TicksRoundTrip | internal/playback/segment_fmp4.go:29-41 | Ticks to nanoseconds and back loses at most one tick, towards zero, for clocks up to one gigahertz |
| RecorderRuns.NothingIsLost | internal/recorder/format_fmp4_track.go:51-114 | For every recording and track, what was stored or discarded, followed by the pending sample, is what was written, in order, with timestamps raised to their predecessors |
| RecorderRuns.RaisedIsMaximum | internal/recorder/format_fmp4_track.go:62-66 | The raised timestamp is the greatest one seen so far on the track |
| RecorderRuns.RecordingHistory | internal/recorder/format_fmp4_track.go:57-68 | Each stored sample lasts until its successor, modulo 32 bits |
| RecorderRuns.RecordingReadsBack | internal/recorder/format_fmp4_part.go:59-84 | At any time, reading files, parts and memory back yields exactly the samples that were kept, in order |
| RecorderRuns.ClosedFilesHoldWhatWasKept | internal/recorder/format_fmp4_segment.go:139-167 | After the end the files hold exactly the samples that were kept, in order |
| RecorderRuns.FilesAreConsecutive | internal/recorder/format_fmp4_segment.go:169-202 | Files are numbered 0, 1, 2 and so on, none is empty, parts are numbered, no part exceeds the size limit and no base time is negative |
| RecorderRuns.RecordingIsRight | internal/recorder/format_fmp4_track.go:51-114 | In every reachable state each part holds exactly what the log says, its base times come from its first samples, and a sample was kept if and only if it was not before its segment |
| RecorderFiles.RecordingCompletesIff | internal/recorder/format_fmp4_track.go:70-113 | Over every recording that has not failed: a write completes exactly one file if and only if the sample whose duration becomes known is not before the segment, and the pending one of its track is a sync sample at least the segment duration past the start of the segment, on a video track if any video has been written; otherwise it completes none; complete files are never touched |
| RecorderFiles.EveryFileEndsBeforeSync | internal/recorder/format_fmp4_track.go:93-111 | Every complete file was completed by one write, after which the written track, a video track if there has been video, waits with a sync sample |
| RecorderFiles.RecordingFailsIff | internal/recorder/format_fmp4_part.go:59-66 | Over every recording: the next write fails if and only if the stored sample does not fit into the current part or, if that has lasted for the part duration, into an empty one |
| RecorderFiles.WriteStores | internal/recorder/format_fmp4_segment.go:204-238 | A sample goes into the current part if that has not lasted for the part duration, else into the next one, or nowhere if it is before the segment |
| RecorderFiles.RecordedPartsBegin | internal/recorder/format_fmp4_segment.go:209-232 | Each part starts at the first sample that was kept in it |
| RecorderFiles.WriteTracks | internal/recorder/format_fmp4_track.go:51-68 | A write replaces the pending sample of its track, not before the previous one, and changes nothing else of the tracks |
| RecorderStarts.FilesStartAtSamples | internal/recorder/format_fmp4_track.go:72-111 | Over every recording that has not failed: a file starts at the time stamp and the wall clock time of one of the samples that were written, or at zero with the zero time when all pending ones were more than a second before zero |
| RecorderStarts.NextStart | internal/recorder/format_fmp4_track.go:15-42 | The next file starts at a pending sample, with its wall clock time, as soon as one has reached time zero |
| RecorderOverlap.FilesFollow | internal/recorder/format_fmp4_track.go:93-111 | Over every recording that has not failed: a file starts at most a second, and a nanosecond for rounding, before the previous one ends |
| RecorderOverlap.SteadyFilesFollow | internal/recorder/format_fmp4_track.go:93-111 | If no pending sample is more than a spread behind another one when a file is completed, at most the spread before and a nanosecond after the end |
| RecorderOverlap.SteadyFilesStartAtSamples | internal/recorder/format_fmp4_track.go:93-111 | ... and every file starts at a sample |
| RecorderSafety.PartWriteIsRight | internal/recorder/format_fmp4_part.go:59-84 | Writing a sample into a part keeps it right, or is refused when the part would be too big |
| RecorderSafety.SwitchIsRight | internal/recorder/format_fmp4_track.go:93-111 | Switching turns the segment into the next file and starts an empty one with the next number |
| RecorderSafety.LateIsRight | internal/recorder/format_fmp4_track.go:81-84 | Discarding a late sample leaves all parts as they are |
| RecorderSwitch.NewestIsMaximum | internal/recorder/format_fmp4_track.go:18-26 | The newest pending sample is the maximum of all pending ones and zero |
| RecorderSwitch.OldestIsMinimum | internal/recorder/format_fmp4_track.go:28-41 | The start is the minimum of the pending samples that are at most a second behind the newest one |
| RecorderSwitch.SwitchBounds | internal/recorder/format_fmp4_track.go:93-111 | A new segment starts at least the segment duration less a second after the old one, and no pending sample is more than a second ahead of it |
| RecorderSwitch.KeepingUpIsEnoughIff | internal/recorder/format_fmp4_track.go:15-42 | A track that is at most a second behind the others makes it into the new segment if and only if time zero has been reached |
| RecorderSwitch.NegativeTimeExample | internal/recorder/format_fmp4_track.go:18-26 | A single track far before time zero is behind the new segment, which starts at zero with the zero NTP |
| RecorderSwitch.KeepingUpLosesNothing | internal/recorder/format_fmp4_track.go:93-111 | Over every recording, a track that keeps up at a switch loses no sample of the new segment, however the recording goes on |
| RecorderSwitch.DiscardedFirst | internal/recorder/format_fmp4_track.go:81-84 | Over every recording, within a segment the discarded samples of a track come before the kept ones |
| RecorderTiming.RecordingIsChained | internal/recorder/format_fmp4_part.go:59-84 | Over every recording, in each file each sample of a track lasts until the next one, across the borders of parts |
| RecorderTiming.PartsUpTo | internal/recorder/format_fmp4_segment.go:209-238 | The samples from one part to the first one of a later part are such a chain, whether or not the parts in between have the track |
| RecorderTiming.DurationsTelescope | internal/recorder/format_fmp4_track.go:62-68 | Durations add up to the DTS difference if no gap needs more than 32 bits and miss it by at least 2^32 otherwise |
| RecorderDurations.RecordingLasts | internal/recorder/format_fmp4_segment.go:204-238 | For every recording that has not failed, the duration written into a file reaches to the latest end of the samples in it, each part ends with the latest of its samples or at time zero, and only the last part of a file can be shorter than the part duration |
| RecorderDurations.LatestEndIsMaximum | internal/recorder/format_fmp4_segment.go:205-208 | That latest end is the maximum over the kept samples and the start |
| RecorderObjects.PartWriter.Write | internal/recorder/format_fmp4_part.go:59-84 | Updates size, base time, samples and end, or refuses a sample that is too big |
| RecorderObjects.SegmentWriter.CloseCurPart | internal/recorder/format_fmp4_segment.go:169-202 | The part is appended to the file |
| RecorderObjects.SegmentWriter.Write | internal/recorder/format_fmp4_segment.go:204-238 | Opens, keeps or replaces the current part and writes the sample into it |
| RecorderObjects.SegmentWriter.Close | internal/recorder/format_fmp4_segment.go:139-167 | Writes the last part; the file exists if anything was written |
| RecorderObjects.FindNextSegmentStartingPos | internal/recorder/format_fmp4_track.go:17-42 | The two loops find the newest and then the oldest close pending sample |
| RecorderObjects.Recorder.AcceptSample | internal/recorder/format_fmp4_track.go:51-68 | Swaps the pending sample and fixes timestamp and duration |
| RecorderObjects.Recorder.StoreSample | internal/recorder/format_fmp4_track.go:70-113 | Opens a segment, discards, writes and switches as the state function says, which RecorderFiles describes without it |
| RecorderObjects.Recorder.SwitchSegment | internal/recorder/format_fmp4_track.go:93-111 | Closes the segment and opens the next one |
| RecorderObjects.Recorder.WriteSample | internal/recorder/format_fmp4_track.go:51-114 | One write does to the whole recorder what the state function says |
| RecorderObjects.Recorder.Finish | internal/recorder/format_fmp4_segment.go:139-167 | The last file is completed |
| RecordAndPlay.PlayedWhenRecorded | internal/playback/on_get.go:95-100 | For every recording, every sample and every requested start: the playback DTS is less than three ticks below and less than two above the recorded DTS plus one constant shared by all tracks, parts and segments, if and only if no gap before it in its part needs more than 32 bits; clocks up to one gigahertz |
| RecordAndPlay.PartsFollow | internal/recorder/format_fmp4_part.go:68-72 | For every recording and any two parts of a file that have a track: the base times differ by the sum of the durations in between, to within two ticks, or one for times of one sign or clocks up to half a gigahertz, if and only if the gaps in between fit into 32 bits; otherwise by at least 2^32 - 2 more; clocks up to one gigahertz |
| RecordAndPlay.BaseTimesApart | internal/recorder/format_fmp4_part.go:68-72 | For any two parts of a segment the error is at most two ticks, and at most one for times of one sign or clocks up to half a gigahertz |
| RecordingExamples.TwoTicksExample | internal/recorder/format_fmp4_part.go:68-72 | The second tick is real: a recording of three samples whose parts lie two ticks too close |
| RecordAndPlay.FirstSampleError | internal/playback/segment_fmp4.go:464-475 | Base time plus segment offset is less than three ticks below and less than two above the recorded time plus the constant |
| RecordAndPlay.RecordedSegmentsAreConsecutive | internal/playback/segment_fmp4.go:89-92 | Two segments of a recording are recognized as consecutive if and only if their numbers are |
| Playback.DriveRun | internal/playback/segment_fmp4.go:467-518 | The sample loop plays exactly the samples before the requested end, each at base time plus preceding durations, and measures what has elapsed |
| Playback.DriveParts | internal/playback/segment_fmp4.go:434-531 | All parts up to the first one that exceeds the requested duration are played; an unknown track is an error |
| Playback.SeekAndMux | internal/playback/on_get.go:43-120 | Segments are played in order until one does not continue its predecessor; which ones is PlaybackGaps.PlayedIff |
| Playback.PlayNext | internal/playback/on_get.go:77-111 | One more segment: error, stop, or its samples at the right offset |
| Playback.PlayedSegmentsAreOneRecording | internal/playback/on_get.go:95-100 | Whatever is on disk, the segments that are played have one stream ID and consecutive numbers, all carry the header that is dereferenced, and their offsets differ exactly as their recorded starts do |
| Playback.PlayingStopsAtAGap | internal/playback/on_get.go:91-93 | Playback leaves segments out only after one that does not continue its predecessor |
| PlaybackGaps.PlayedIff | internal/playback/segment_fmp4.go:95-104 | For any segments that can be read and any request: a segment is played if and only if after each one before it the next one is consecutive and starts, by its name, not more than 1000000000 ns before or after where playing it has ended |
| PlaybackGaps.PlayedLegacySegments | internal/playback/on_get.go:77-89 | Recordings without header: what is played has the same tracks, and is placed where file names say |
| PlaybackGaps.PartsIgnoreCalls | internal/playback/segment_fmp4.go:512-518 | How long a segment lasts does not depend on what was played before it |
| Continuity.FileIsPlayedIff | internal/playback/on_get.go:77-111 | For every recording and any request: a file is played if and only if after each one before it the next one starts, by name, within 1000000000 ns of where playing it has ended |
| Continuity.FilesAreOneEntryIff | internal/playback/on_list.go:92-116 | For every recording: its files are listed as one entry, from the start of the first to the end of the last, if and only if each starts within 1000000000 ns of the listed end of its predecessor |
| Continuity.SegmentLasts | internal/playback/segment_fmp4.go:512-518 | What playback takes a file of a recording to last is what the recorder says, less at most the longest tick and three nanoseconds, or three nanoseconds more, if its gaps fit into 32 bits and nothing in it is beyond the requested end |
| Continuity.ListedIsDuration | internal/playback/on_list.go:44-51 | What the list takes it to last is less than a millisecond less and at most three nanoseconds more, from the header or, if that says nothing, from the last part |
| Continuity.HeaderTellsDurationIff | internal/recorder/format_fmp4_segment.go:107-107 | The header tells the duration to the millisecond if and only if it is shorter than 2^32 milliseconds |
| Continuity.FileFollowsOnClock | internal/recorder/format_fmp4_track.go:93-111 | If the tracks stay within a spread at switches and the wall clock of all samples follows their time stamps to within an error: a file starts, by the wall clock, at most the spread and twice the error before, and twice the error after the end of its predecessor, to within a nanosecond |
| Continuity.RegularRecordingsPlayOn | internal/playback/on_get.go:77-111 | Recorder and playback together: if twice the error of the clocks, the unit to which names are rounded down, and the greater of the spread and the longest tick are less than a second by three nanoseconds, a recording is played on from file to file for as long as it is requested |
| Continuity.RegularRecordingsAreOneEntry | internal/playback/on_list.go:92-116 | ... and is listed as one entry, with a millisecond in place of the tick |
| PlaybackRuns.SeekHistory | internal/playback/on_get.go:43-120 | For every list of segments and every request, the seek drives a muxer in a valid way and gives it, for each track, exactly the samples of the played segments and parts that lie before the requested end, in order, each at its offset |
| PlaybackRuns.PartsHistory | internal/playback/segment_fmp4.go:434-531 | For one segment: exactly the samples of the played parts before the end |
| PlaybackRuns.ElapsedIsLatestEnd | internal/playback/segment_fmp4.go:512-518 | The duration that playback takes a segment to have is the latest end of what is played of it, on any track |
| PlaybackRuns.StopsIff | internal/playback/segment_fmp4.go:478-481 | Playing a segment stops if and only if some part has a sample beyond the requested end on some track |
| EndToEnd.MuxersGetRecordedSamples | internal/playback/on_get.go:43-120 | For every recording, played from its files with any request: what a muxer gets of a track are, position by position, the recorded samples that are played, each once and in order, and all of them: those of the played segments, up to the first part with a sample beyond the end, that are not beyond the end themselves |
| EndToEnd.MuxersGetSamplesOnTime | internal/playback/segment_fmp4.go:464-475 | Each of them is less than three ticks before and less than two after the recorded time at its position plus one constant, if and only if the gaps before it in its part fit into 32 bits |
| EndToEnd.RecordingsPlay | internal/playback/segment_fmp4.go:434-463 | Playing the files of a recording never fails, from whatever file on and with whatever request |
| EndToEnd.PlaybackGoesForwardIff | internal/playback/segment_fmp4.go:464-518 | For every recording and request, whatever the clocks and gaps: the muxers are never given a DTS below an earlier one of a track if and only if, at every border between parts, the last sample that is played before it is due no later than the first one after it, by the starts, base times and durations in the files |
| PlaybackOrder.PartsInOrderIff | internal/recorder/format_fmp4_part.go:68-72 | For any two parts of one file or of two: every sample of the first is played no later than every one of the second if and only if the first lasts no longer than the conversions of the two first time stamps leave between them; how long it lasts is what its time stamps say if their gaps fit |
| PlaybackOrder.PartsInOrder | internal/recorder/format_fmp4_part.go:68-72 | So one tick between parts of a file is enough, or two for mixed times of fast clocks |
| PlaybackOrder.FilesInOrder | internal/playback/on_get.go:95-100 | ... and four ticks between files |
| EndToEnd.PlaybackGoesForward | internal/playback/segment_fmp4.go:464-518 | Hence playback goes forward for every recording whose samples are spaced like that at borders, whatever is requested |
| RecordingExamples.PlayedBackwardsExample | internal/recorder/format_fmp4_part.go:68-72 | Whenever a time loses ticks on its way through nanoseconds, two samples at that time across the border of two parts are played backwards, in a recording of six samples on two tracks |
| PlaybackExamples.SentBackExample | internal/playback/segment_fmp4.go:464-518 | Played from its beginning, that recording sends the muxers back in time |
| PlaybackExamples.UsualClocksExample | internal/recorder/format_mpegts.go:28-38 | It exists for the usual clocks of video and audio and parts of a second |
| EndToEnd.RecordedSamplesAreShownIff | internal/playback/muxer_fmp4.go:61-200 | For every recording and request and every track that has a visible sample: the fragmented muxer shows exactly the samples at the played positions, from the last sync sample at or before the first visible one, each once and in order, with its flags and payload, if and only if no sync sample from before the requested start is played after a visible one |
| EndToEnd.RecordedSamplesAreShown | internal/playback/muxer_fmp4.go:61-200 | If the borders between the parts of the track are in order (PlaybackGoesForwardIff), it shows each visible one of them on time, if and only if the gaps fit |
| EndToEnd.PartContributes | internal/playback/segment_fmp4.go:457-463 | Of a recorded part exactly the run of a track contributes to it, if track IDs are distinct |
| Playback.FindTrack | internal/playback/segment_fmp4.go:43-50 | The first track with an ID |
| OnList.ConcatenateSegments | internal/playback/on_list.go:92-116 | Entries begin exactly at the gaps and reach from the start of their first segment to the end of their last one; one entry means PlaybackGaps.OneEntryIff |
| OnList.CutsAreTheGaps | internal/playback/on_list.go:96-110 | Entries begin at the first segment and exactly at those that do not continue their predecessor |
| OnList.OneMore | internal/playback/on_list.go:96-113 | One more segment either extends the last entry or becomes one |
| PlaybackGaps.OneEntryIff | internal/playback/on_list.go:92-116 | For any segments: they are one entry, from the first start to the last end, if and only if each is consecutive to its predecessor and starts within 1000000000 ns of its end |
| OnList.ReadDurationFromParts | internal/playback/segment_fmp4.go:181-416 | The loop over the runs of the last part finds their latest end; an unknown track is an error |
| OnList.ParseSegment | internal/playback/on_list.go:31-57 | The duration comes from the header, or from the last part if the header says zero |
| MuxerTimes.MuxersAgree | internal/playback/muxer_fmp4.go:61-200 | For any sequence of calls and any track that shows anything: both muxers show the same samples in the same order, from the last sync sample at or before the first visible one, if and only if no later sync sample is before the requested start or directly follows one that is; the fragmented one alone shows them if and only if none is before the start, the plain one shows exactly what follows the last such sample; if DTS never decrease, the fragmented one shows each visible sample at its own time, and the plain one is on time, whatever the DTS, if and only if its 32-bit numbers fit |
| MuxerTimes.GoingBackExample | internal/playback/muxer_fmp4.go:104-120 | A track of two samples that goes back before the requested start is shown by one muxer and not by the other |
| MuxerTimes.FailuresCharacterized | internal/playback/muxer_mp4.go:92-106 | For any sequence of calls: the fragmented muxer finds no segments if and only if no track shows anything, the plain one if and only if the last set track has no sample or its last one is before the requested start; with one track they fail together unless a visible sample is followed by such a last one |
| MuxerTimes.TwoTracksExample | internal/playback/muxer_mp4.go:92-95 | With two tracks only the plain muxer can fail |
| MuxerTimes.ChunkTimes | internal/playback/muxer_fmp4.go:76-95 | Within a part every visible sample is at base time plus preceding durations, whatever the gaps |
| MuxerTimes.ChunksFollow | internal/playback/muxer_fmp4.go:149-158 | Each base time equals the previous one plus the durations flushed, if and only if the gap between them fits into 32 bits |
| MuxerTimes.PlainIsExactIff | internal/playback/muxer_mp4.go:63-80 | First time plus preceding durations is the DTS of every kept sample if and only if the first time fits into 32 bits and every step is not negative and fits as well, whatever the DTS |
| MuxerTimes.MWrite | internal/playback/muxer_mp4.go:50-83 | The plain muxer keeps exactly what follows the last sync sample that was before the requested start or directly after one that was |
| MuxerAgreement.FRunIsRight | internal/playback/muxer_fmp4.go:61-200 | After any calls every track of the fragmented muxer holds the right samples, with the right times if it does not go back before the requested start; parts are numbered from zero, the header goes out with the first, and flushing never fails before the end |
| MuxerAgreement.FlushIsRight | internal/playback/muxer_fmp4.go:133-200 | Flushing because one track is full keeps all tracks right |
| MuxerAgreement.PartIsWrittenIff | internal/playback/muxer_fmp4.go:94-101 | After any calls, a sample makes the muxer write a part if and only if it is visible and a second has passed on its track since the first visible sample that is in no part yet |
| MuxerAgreement.FirstInMemory | internal/playback/muxer_fmp4.go:73-95 | ... which is where what is in memory begins |
| MuxerRuns.GopStart | internal/playback/muxer_fmp4.go:75-81 | Where playback begins: a sync sample or the first one, with no sync sample between it and the first visible one |
| MuxerRuns.FFlush | internal/playback/muxer_fmp4.go:136-161 | Flushing moves all samples but the last one into a part that starts at its first visible sample |
| MuxerRuns.FWriteVisible | internal/playback/muxer_fmp4.go:73-95 | Taking a visible sample fixes the duration of its predecessor, or drops everything before a sync sample |
| MuxerRuns.FWriteHolds | internal/playback/muxer_fmp4.go:61-124 | Whatever the times: chunks and memory together hold all samples that are needed, until a sync sample from before the requested start follows a visible one, which drops what is in memory |
| MuxerRuns.FWriteFinal | internal/playback/muxer_fmp4.go:126-131 | The end of a run fixes the duration of the last visible sample |
| Muxers.MuxerFMP4.WriteSample | internal/playback/muxer_fmp4.go:61-124 | One call does what the state function says |
| Muxers.MuxerFMP4.TakeChunks | internal/playback/muxer_fmp4.go:133-161 | The loop takes from each track what it has to write |
| Muxers.MuxerFMP4.InnerFlush | internal/playback/muxer_fmp4.go:133-200 | Writes a part, or reports that nothing was ever written |
| Muxers.MuxerFMP4.WriteFinalDTS | internal/playback/muxer_fmp4.go:126-131 | One call does what the state function says |
| Muxers.MuxerMP4.WriteSample | internal/playback/muxer_mp4.go:50-83 | One call does what the state function says |
| Muxers.MuxerMP4.WriteFinalDTS | internal/playback/muxer_mp4.go:85-90 | One call does what the state function says |
| Muxers.MuxerMP4.Flush | internal/playback/muxer_mp4.go:92-106 | Fails if the current track shows nothing |
| Muxers.PlayFMP4 | internal/playback/muxer_fmp4.go:202-204 | Driving the fragmented muxer to the end yields the output that MuxersAgree is about, or fails |
| Muxers.PlayMP4 | internal/playback/muxer_mp4.go:92-106 | Driving the plain muxer to the end yields the output that MuxersAgree is about |
| RecordStore.FindSegments | internal/recordstore/segment.go:124-199 | Returns, sorted, exactly the segments that start by the end, from the last one that starts by the start onwards, or all when none does; fails only when there is none; the last failure branch is unreachable |
| RecordStore.AnswerHoldsWhatIsNeeded | internal/recordstore/segment.go:174-196 | Every later segment is in the answer, and of the others only the latest |
| RecordStore.GatheredHoldsExactly | internal/recordstore/segment.go:147-158 | Exactly the files that decode and start by the end are gathered |
| RecordPath.EncodedPathsAreBelowCommonPath | internal/recordstore/path.go:79-105 | For every format and recording the encoded path is below the common directory that is walked |
| RecordPath.CommonIsLongest | internal/recordstore/path.go:84-98 | The common directories are as long as possible: the next one contains a tag |
| RecordPath.FindCommonPath | internal/recordstore/path.go:79-105 | The loop finds the common path |
| RecordEncode.EncodeIs | internal/recordstore/path.go:249-262 | For every format and name, percent signs included: encoding puts in the name and then gives every tag of what results its value at its place |
| RecordEncode.EncodeRendersIff | internal/recordstore/path.go:249-262 | That is every tag of the format replaced by its value if and only if putting in the name makes no tag |
| RecordEncode.ValidNamesRenderIff | internal/recordstore/path.go:249-251 | For valid path names, if and only if the name is not put behind a percent sign with which its first character is a tag |
| RecordFormats.FormatBecomes | internal/recordstore/path.go:249-262 | For names without percent sign: a format that is put together from tags and plain text becomes the values and the text, in order |
| RecordFormats.DateNames | internal/recordstore/path.go:249-262 | ... for instance year, month and day, the last two with two digits |
| RecordFormats.TimeNames | internal/recordstore/path.go:249-262 | ... hour, minute, second and time zone |
| RecordFormats.UnixNames | internal/recordstore/path.go:249-262 | ... seconds since 1970 and microseconds with six digits |
| RecordDecode.DecodingRecoversIff | internal/recordstore/path.go:114-247 | What has been encoded can always be decoded with the same format, for numbers as wide as their groups; it recovers the name and every field that the format says, to the microsecond, if no shorter piece of the name would match and the zone, where it matters, is a whole number of hours, and in formats with at most one name only if |
| RecordDecode.PathIsReadIff | internal/recordstore/path.go:137-137 | The name is read back if no shorter piece of it is followed by something that matches the rest, and in a format with one name only if |
| RecordDecode.LaterNameExample | internal/recordstore/path.go:185-189 | With several names the only-if is false: the last one counts, and what the first one lost the second one can have taken |
| RecordDecode.ShorterNameExample | internal/recordstore/path.go:137-137 | A name that ends like another recording of a shorter name is read as that one |
| RecordDecode.Decode | internal/recordstore/path.go:114-247 | For any format and path: fails exactly when nothing matches, and otherwise returns what the leftmost match says, names as short as possible |
| RecordDecode.SubmatchIff | internal/recordstore/path.go:178-181 | A path has the format if and only if something in it matches |
| RecordDecode.SubmatchIsLeftmost | internal/recordstore/path.go:178-181 | What counts is the match before which nothing matches |
| RecordDecode.NameIsShortest | internal/recordstore/path.go:137-137 | A name is what is before the first place on the same line from which on the rest matches |
| RecordDecode.ReadGroups | internal/recordstore/path.go:183-244 | The loop over the groups fills in the fields, in whatever order |
| RecordNames.ZoneRoundTripIff | internal/recordstore/path.go:26-66 | A time zone is read back if and only if it is a whole number of hours |
| RecordNames.LeadingZerosParse | internal/recordstore/path.go:12-24 | Padding keeps the value and gives the wanted width if and only if the number is not too big |
| RecordNames.PadWithZeros | internal/recordstore/path.go:12-24 | The loop pads as specified |
| NtpEstimator.EstimatesGoOn | internal/ntpestimator/estimator.go:31-49 | Over every run with a clock and PTS that do not go back, estimates do not go back, resets included |
| NtpEstimator.EstimatesAreRecent | internal/ntpestimator/estimator.go:40-48 | Over every run each estimate is between five seconds ago and now |
| NtpEstimator.RenewedIff | internal/ntpestimator/estimator.go:40-46 | The reference is renewed exactly when the estimate it gives is in the future or more than five seconds old |
| NtpEstimator.EstimatesFollowPTS | internal/ntpestimator/estimator.go:40-48 | Between resets estimates are as far apart as the PTS, to within two nanoseconds |
| NtpEstimator.Estimator.Estimate | internal/ntpestimator/estimator.go:31-49 | One call updates the reference and returns the estimate as the state function says |
| NtpEstimator.EstimateAll | internal/ntpestimator/estimator.go:31-49 | The estimates of a whole run |
| H264.RemuxIsIdempotentIff | internal/codecprocessor/h264.go:167-223 | Remuxing twice equals remuxing once if and only if the parameters that are added are of types that are removed |
| H264.UnitBringsItsParams | internal/codecprocessor/h264.go:225-227 | A unit with an IDR and its own parameters starts with the last of them, followed by the kept units in order, and remuxing it again changes nothing |
| H264.KeyUnitsGetParams | internal/codecprocessor/h264.go:167-223 | A unit gets the stored SPS and PPS in front of what is kept if and only if it has an IDR and both are known |
| H264.ExtractFromAggregate | internal/codecprocessor/h264.go:41-76 | A STAP-A packet (section 5.7.1 of RFC 6184) yields the last SPS and PPS that were put into it |
| H264.ScanFindsLast | internal/codecprocessor/h264.go:46-74 | Scanning from the front finds the last parameters, or that the packet is truncated |
| H264.ExtractParams | internal/codecprocessor/h264.go:27-81 | What a payload carries, by type |
| H264.Processor.UpdateFromRTPPacket | internal/codecprocessor/h264.go:124-137 | New parameters replace old ones, missing ones are kept |
| H264.Processor.UpdateFromAU | internal/codecprocessor/h264.go:139-165 | The last parameters of the unit, or the old ones |
| H264.Processor.Count | internal/codecprocessor/h264.go:168-192 | The first pass counts exactly the slots that the second one needs |
| H264.Fill | internal/codecprocessor/h264.go:207-220 | The second pass fills every slot once, in order |
| H264.Processor.RemuxAccessUnit | internal/codecprocessor/h264.go:167-223 | The result is the parameters, if needed and known, and the kept units in order; nothing if that is empty |
| H264.Processor.ProcessUnit | internal/codecprocessor/h264.go:225-227 | Update, then remux |
| Nalus.AggregationRoundTrip | internal/codecprocessor/h264.go:46-64 | Parsing an aggregation packet yields exactly the units that were put in |
| Nalus.LastOfIsLast | internal/codecprocessor/h264.go:65-73 | The last unit of a kind is followed by no other of that kind |
| H265.UnitBringsItsParamsIff | internal/codecprocessor/h265.go:257-259 | A key unit starts with its own last VPS, SPS and PPS, or those known before where it has none, if and only if of none of the three kinds the last one is the stored one while another differs from it |
| H265.KeyUnitsGetParams | internal/codecprocessor/h265.go:198-255 | A unit gets the stored VPS, SPS and PPS in front of what is kept if it has an IDR or CRA picture and all three are known, and otherwise nothing |
| H265.UpdateIsLatestIff | internal/codecprocessor/h265.go:163-196 | The update, which compares with the stored parameters, yields the last ones of the unit if and only if these are not the stored ones or none differs |
| H265.ChangedBackExample | internal/codecprocessor/h265.go:169-176 | A unit that changes a VPS and changes it back leaves the wrong one behind |
| H265.RemuxIsIdempotentIff | internal/codecprocessor/h265.go:198-255 | Remuxing twice equals remuxing once if and only if the parameters that are added are of types that are removed |
| H265.ExtractFromAggregate | internal/codecprocessor/h265.go:57-96 | An aggregation packet (section 4.4.2 of RFC 7798) yields the last VPS, SPS and PPS that were put into it |
| H265.ExtractParams | internal/codecprocessor/h265.go:40-101 | What a payload carries, by type |
| H265.Processor.UpdateFromRTPPacket | internal/codecprocessor/h265.go:144-161 | New parameters replace old ones, missing ones are kept |
| H265.Processor.UpdateFromAU | internal/codecprocessor/h265.go:163-196 | Of each kind the last one that differs from the stored one |
| H265.Processor.RemuxAccessUnit | internal/codecprocessor/h265.go:198-255 | The result is the parameters, if needed and known, and the kept units in order |
| H265.Processor.ProcessUnit | internal/codecprocessor/h265.go:257-259 | Update, then remux |

## Left out

- Protocol servers, metrics, the API, authentication, logging and hooks other than the ready, not-ready and on-demand ones: they only call into what is modelled. Authentication of a request is a parameter.
- The stream ring buffer, RTP encoders and decoders, DTS extractors, and the marshalling of MP4 boxes and MPEG-TS: calls into libraries that are not part of this model. Parts and files are values in an append-only log, and whether a stream initializes is a parameter of the event.
- File errors, partial reads and aborted downloads: writing and reading succeed. Playback therefore makes the same calls to the muxers whether or not one of them would fail.
- Integers are unbounded. The 32-bit durations and offsets of samples, where the code truncates, are modelled as such; 64-bit times, segment numbers, part numbers and sequence numbers do not wrap.
- Map iteration order is arbitrary wherever it matters, except that closing all readers of a path is one action, and that the order of tracks within a part is not recorded.
- Timers are armed or not armed. A stopped timer is replaced by a drained one, so that a stale expiry cannot be seen.
- A regular expression is an uninterpreted predicate on names, and the submatches that a path keeps are known by the expression that they come from. For recording names the expression that is built from the format is matched directly.
- Calendar arithmetic: a start time is its calendar fields with a zone offset, or its Unix time.
- RecordDecode.DecodingRecoversIff: is about names that make no tag when they are put in (RecordEncode.EncodeRendersIff), and numbers as wide as their groups; its only-if about formats that say the name at most once, as it is false for others (LaterNameExample).
- RecordDecode.PathIsReadIff: likewise.
- RecordAndPlay.PartsFollow: is about clocks up to one gigahertz, like every result that converts to nanoseconds and back.
- EndToEnd.RecordedSamplesAreShown: says when samples are shown only for tracks whose borders are in order, which PlaybackGoesForwardIff characterizes; which samples are shown is RecordedSamplesAreShownIff, for all recordings.
- PlaybackOrder.FilesInOrder: the four ticks are enough; what is needed exactly is PartsInOrderIff.
- MuxerTimes.MuxersAgree: says at what time the fragmented muxer shows a sample only where DTS do not decrease; a decreasing DTS gets a duration of zero in both muxers.
- RecorderRuns.NothingIsLost: is about recordings that have not failed; the recorder stops at the first part that would exceed the size limit.
- RecorderObjects.Recorder.WriteSample: samples, finished parts and tracks are values; the source shares pointers to them, which it does not write through after it has passed them on.
- SourceProtocol.StoppingGoesOnIff: an instance whose context is cancelled is taken to return by itself, unless it waits for the path manager. Reloading of the configuration of a running instance is not part of the protocol; it only adds a goroutine that waits for the same contexts.
- PathAndSource.SourceKeepsThePathSafe: events that do not come from the source are taken to be possible ones; when a path is cancelled is up to the rest of the system.
- NtpEstimator.Estimator.Estimate: whether there is a reference is a flag of its own rather than a comparison with the zero time.
- The trimming of the first and last list entry to the requested period, the reading of headers and durations from files, the MPEG-TS recorder and RTP packet handling beyond parameter extraction.
- Configuration loading and validation beyond what the path relies on; a configuration is a fixed part, which a running path cannot change, and a hot part.
- Empty NAL units: the type of units excludes them, while the source looks at the first byte of each unit without checking that there is one.
- Continuity.RegularRecordingsPlayOn: the bounds on clocks and tracks are enough; exactly when a file is played is FileIsPlayedIff. Gaps of more than 32 bits and files longer than 2^32 milliseconds are outside of what it and RegularRecordingsAreOneEntry promise.
- RecorderOverlap.SteadyFilesFollow: is about recordings that have reached time zero when a file is completed; before that the start of the next file is zero (RecorderStarts.NextStart).
- PathResponses.StepDoes: lists what is done to the outside; the timers of the on-demand state machines are determined by the invariants of PathSafety.
