/** Safety of the path over whole runs. An independent observer sees only what a path does to the
    outside, in order, and rejects any action that breaks the protocol: a request answered twice or
    never, a stream handed out after it was closed, a reader left attached to a closed stream, a
    source started twice or stopped while stopped, a hook undone without having been run. */
module PathSafety {
  import opened Options
  import opened Config
  import opened PathModel

  datatype Observer = Observer(
    open: Option<nat>,
    announced: bool,
    hooked: bool,
    recording: Option<RecordSettings>,
    attached: set<nat>,
    publishing: Option<nat>,
    running: bool,
    demanded: bool,
    pending: multiset<Request>,
    destroyed: bool)

  const START := Observer(None, false, false, None, {}, None, false, false, multiset{}, false)

  /** Which answer a request may get. */
  predicate Suitable(o: Observer, maxReaders: nat, q: Request, reply: Reply) {
    match reply
    case GotStream(k) =>
      && o.open == Some(k) && o.announced
      && (q.AddPublisher? ==> o.publishing.None?)
      && (q.AddReader? ==> q.reader in o.attached || maxReaders == 0 || |o.attached| < maxReaders)
    case Redirected(_) => q.Describe? && !o.announced
    case Refused(TimedOut) => !q.AddPublisher? && o.open.None?
    case Refused(NoStreamAvailable) => !q.AddPublisher? && o.open.None?
    case Refused(Terminated) => !q.AddPublisher?
    case Refused(MaxReadersReached) =>
      && q.AddReader? && o.announced && q.reader !in o.attached
      && maxReaders != 0 && |o.attached| == maxReaders
    case Refused(AlreadyPublishing) => q.AddPublisher? && o.publishing.Some?
    case Refused(NotAPublisherPath) => q.AddPublisher?
    case Refused(InitializeFailed) => false
  }

  predicate Allowed(o: Observer, maxReaders: nat, a: Action) {
    && !o.destroyed
    && match a
       case Received(q) => true
       case Replied(q, reply) => q in o.pending && Suitable(o, maxReaders, q, reply)
       case StreamOpened(_) => o.open.None?
       case StreamNotOpened(_) => false
       case StreamClosed(k) =>
         o.open == Some(k) && !o.announced && !o.hooked && o.attached == {} && o.recording.None?
       case OnReadyHook => o.open.Some? && !o.hooked
       case OnNotReadyHook => o.hooked
       case NotifiedReady => o.open.Some? && !o.announced
       case NotifiedNotReady => o.announced
       case ReaderLeft(r) => r in o.attached
       case ReadersClosed(rs) => rs == o.attached && !o.announced
       case PublisherLeft(p) => o.publishing == Some(p)
       case PublisherClosed(p) => o.publishing == Some(p)
       case RecorderStarted(_) => o.open.Some? && o.recording.None?
       case RecorderClosed => o.recording.Some?
       case SourceStarted => !o.running
       case SourceStopped => o.running && !o.announced
       case OnDemandHook => !o.demanded
       case OnUnDemandHook => o.demanded
       case NotifiedClosed => true
       case Destroyed => o == START
  }

  function Observe(o: Observer, a: Action): Observer {
    match a
    case Received(q) => o.(pending := o.pending + multiset{q})
    case Replied(q, reply) =>
      var p := o.(pending := o.pending - multiset{q});
      if !reply.GotStream? then p
      else if q.AddReader? then p.(attached := p.attached + {q.reader})
      else if q.AddPublisher? then p.(publishing := Some(q.publisher))
      else p
    case StreamOpened(k) => o.(open := Some(k))
    case StreamClosed(_) => o.(open := None)
    case OnReadyHook => o.(hooked := true)
    case OnNotReadyHook => o.(hooked := false)
    case NotifiedReady => o.(announced := true)
    case NotifiedNotReady => o.(announced := false)
    case ReaderLeft(r) => o.(attached := o.attached - {r})
    case ReadersClosed(_) => o.(attached := {})
    case PublisherLeft(_) => o.(publishing := None)
    case PublisherClosed(_) => o.(publishing := None)
    case RecorderStarted(settings) => o.(recording := Some(settings))
    case RecorderClosed => o.(recording := None)
    case SourceStarted => o.(running := true)
    case SourceStopped => o.(running := false)
    case OnDemandHook => o.(demanded := true)
    case OnUnDemandHook => o.(demanded := false)
    case Destroyed => o.(destroyed := true)
    case _ => o
  }

  function Next(o: Observer, maxReaders: nat, a: Action): Option<Observer> {
    if Allowed(o, maxReaders, a) then Some(Observe(o, a)) else None
  }

  predicate Observes(maxReaders: nat, trace: seq<Action>, run: seq<Observer>, i: nat)
    requires i < |trace| && |run| == |trace| + 1
  {
    Next(run[i], maxReaders, trace[i]) == Some(run[i + 1])
  }

  /** The observer follows the trace from the start: it rejects none of the actions. */
  ghost predicate Follows(maxReaders: nat, trace: seq<Action>, run: seq<Observer>) {
    && |run| == |trace| + 1
    && run[0] == START
    && forall i {:trigger Observes(maxReaders, trace, run, i)} :: 0 <= i < |trace| ==>
       Observes(maxReaders, trace, run, i)
  }

  /** The observer has accepted everything the path did, and now thinks o of it. */
  ghost predicate Seen(s: State, o: Observer) {
    exists run :: Follows(s.conf.fixed.maxReaders, s.trace, run) && run[|s.trace|] == o
  }

  function Bag(qs: seq<Request>): multiset<Request> {
    multiset(qs)
  }

  /** What the observer must think of a path that is in its event loop. */
  function View(s: State): Observer {
    Observer(s.stream, s.stream.Some?, s.stream.Some?, s.recorder, s.readers,
             if s.source.Publisher? then Some(s.source.id) else None,
             s.running, s.unDemandHook,
             Bag(s.describesOnHold) + Bag(s.readersOnHold), false)
  }

  function WithPending(o: Observer, q: Request): Observer {
    o.(pending := o.pending + multiset{q})
  }

  // what holds whenever the event loop waits

  predicate SourceInvariant(s: State) {
    match s.conf.fixed.source
    case FromRedirect => s.source == Redirect && s.stream.None? && !s.running
    case FromStatic => s.source == Static && (!s.conf.fixed.sourceOnDemand ==> s.running)
    case FromPublisher =>
      && (s.source == NoSource || s.source.Publisher?)
      && (s.source != NoSource <==> s.stream.Some?)
      && !s.running
  }

  predicate StreamInvariant(s: State) {
    && s.recorder == (if s.stream.Some? && s.conf.hot.record then Some(s.conf.hot.settings) else None)
    && (s.stream.None? ==> s.readers == {})
    && (s.conf.fixed.maxReaders != 0 ==> |s.readers| <= s.conf.fixed.maxReaders)
  }

  /** The state of an on-demand static source decides everything else about the path. */
  predicate StaticInvariant(s: State) {
    var d := s.sourceDemand;
    if s.conf.HasOnDemandStaticSource() then
      && (s.stream.Some? <==> d.state == Ready || d.state == Closing)
      && (s.readers != {} <==> d.state == Ready)
      && (d.readyTimer <==> d.state == WaitingReady)
      && (d.closeTimer <==> d.state == Closing)
      && (s.running <==> d.state != Initial)
    else
      d == IDLE
  }

  /** A publisher comes and goes by itself, so less is known about its on-demand state. */
  predicate PublisherInvariant(s: State) {
    var d := s.publisherDemand;
    if s.conf.HasOnDemandPublisher() then
      && (s.unDemandHook <==> d.state != Initial)
      && (d.readyTimer <==> d.state == WaitingReady)
      && (d.closeTimer <==> d.state == Closing)
      && (d.state == Closing ==> s.readers == {})
      && (d.state == WaitingReady ==> s.stream.None?)
      && (d.state == Ready && s.stream.Some? ==> s.readers != {})
    else
      d == IDLE && !s.unDemandHook
  }

  predicate NothingOnHold(s: State) {
    s.describesOnHold == [] && s.readersOnHold == []
  }

  /** Requests wait only for a stream that somebody has been asked for. */
  predicate QueueInvariant(s: State) {
    && (forall q :: q in s.describesOnHold ==> q.Describe?)
    && (!NothingOnHold(s) ==>
          && s.stream.None?
          && (s.conf.HasOnDemandStaticSource() || s.conf.HasOnDemandPublisher())
          && (s.conf.HasOnDemandStaticSource() ==> s.sourceDemand.state == WaitingReady))
  }

  /** Everything but the queues, which are emptied last. */
  predicate CoreInvariant(s: State) {
    && !s.finished
    && s.conf.Valid()
    && SourceInvariant(s)
    && StreamInvariant(s)
    && StaticInvariant(s)
    && PublisherInvariant(s)
  }

  predicate Invariant(s: State) {
    CoreInvariant(s) && QueueInvariant(s)
  }

  ghost predicate Good(s: State) {
    Invariant(s) && Seen(s, View(s))
  }

  const GONE := START.(destroyed := true)

  ghost predicate Gone(s: State) {
    s.finished && Seen(s, GONE)
  }

  /** The events that the rest of the system can deliver. Source events come from a source that is
      running, and only a stream that the path has can end (see PathAndSource). */
  predicate Enabled(s: State, e: Event) {
    && !s.finished
    && match e
       case StaticReadyTimer => s.sourceDemand.readyTimer
       case StaticCloseTimer => s.sourceDemand.closeTimer
       case PublisherReadyTimer => s.publisherDemand.readyTimer
       case PublisherCloseTimer => s.publisherDemand.closeTimer
       case ReloadConf(newConf) => newConf.Valid() && CanBeUpdated(s.conf, newConf)
       case SourceSetReady(_) => s.running
       case SourceSetNotReady => s.running && s.stream.Some?
       case _ => true
  }

  /** Whether the event opens a stream that cannot be initialized. */
  predicate FailsToInitialize(s: State, e: Event) {
    match e
    case SourceSetReady(initializes) => !initializes
    case AddPublisherRequest(_, _, initializes) =>
      !initializes && s.conf.fixed.source == FromPublisher && (s.source == NoSource || s.conf.fixed.overridePublisher)
    case _ => false
  }

  /** Whether the source brings a stream to a path that still has one. */
  predicate OpensSecondStream(s: State, e: Event) {
    e.SourceSetReady? && s.stream.Some?
  }

  // one action at a time

  lemma {:induction false} Emitted(s: State, o: Observer, a: Action, p: Observer)
    requires Seen(s, o) && Next(o, s.conf.fixed.maxReaders, a) == Some(p)
    ensures Seen(Emit(s, a), p)
  {
    var maxReaders, t := s.conf.fixed.maxReaders, Emit(s, a);
    var run :| Follows(maxReaders, s.trace, run) && run[|s.trace|] == o;
    var longer := run + [p];
    forall i | 0 <= i < |t.trace| ensures Observes(maxReaders, t.trace, longer, i) {
      if i < |s.trace| {
        assert Observes(maxReaders, s.trace, run, i);
      }
    }
    assert Follows(maxReaders, t.trace, longer);
  }

  lemma {:induction false} ReplyAllFrame(s: State, qs: seq<Request>, reply: Reply)
    ensures ReplyAll(s, qs, reply) == s.(trace := ReplyAll(s, qs, reply).trace)
    decreases |qs|
  {
    if qs != [] {
      ReplyAllFrame(Emit(s, Replied(qs[0], reply)), qs[1..], reply);
    }
  }

  /** Whether a whole queue can be answered in the same way. */
  predicate SuitableForAll(o: Observer, qs: seq<Request>, reply: Reply) {
    && (forall q :: q in qs ==> !q.AddPublisher?)
    && (|| reply == Refused(Terminated)
        || (reply == Refused(TimedOut) && o.open.None?)
        || (reply.GotStream? && o.open == Some(reply.stream) && o.announced && forall q :: q in qs ==> q.Describe?))
  }

  lemma {:induction false} ReplyFirstSeen(s: State, o: Observer, qs: seq<Request>, reply: Reply)
    requires qs != [] && Seen(s, o) && !o.destroyed
    requires Bag(qs) <= o.pending && SuitableForAll(o, qs, reply)
    ensures Seen(Emit(s, Replied(qs[0], reply)), o.(pending := o.pending - multiset{qs[0]}))
    ensures Bag(qs[1..]) <= o.pending - multiset{qs[0]}
    ensures SuitableForAll(o, qs[1..], reply)
  {
    var q := qs[0];
    assert qs == [q] + qs[1..];
    assert q in qs && q in Bag(qs);
    Emitted(s, o, Replied(q, reply), o.(pending := o.pending - multiset{q}));
  }

  lemma {:induction false} ReplyAllSeen(s: State, o: Observer, qs: seq<Request>, reply: Reply)
    requires Seen(s, o) && !o.destroyed
    requires Bag(qs) <= o.pending && SuitableForAll(o, qs, reply)
    ensures Seen(ReplyAll(s, qs, reply), o.(pending := o.pending - Bag(qs)))
    decreases |qs|
  {
    if qs == [] {
      assert o.pending - Bag(qs) == o.pending;
    } else {
      var p := o.(pending := o.pending - multiset{qs[0]});
      ReplyFirstSeen(s, o, qs, reply);
      ReplyAllSeen(Emit(s, Replied(qs[0], reply)), p, qs[1..], reply);
      assert qs == [qs[0]] + qs[1..];
      assert p.pending - Bag(qs[1..]) == o.pending - Bag(qs);
    }
  }

  // fields that an operation leaves alone, spelled out one by one because that is cheap to check

  predicate SameDemands(s: State, t: State) {
    t.sourceDemand == s.sourceDemand && t.publisherDemand == s.publisherDemand
  }

  predicate SameQueues(s: State, t: State) {
    t.describesOnHold == s.describesOnHold && t.readersOnHold == s.readersOnHold
  }

  predicate SameOwners(s: State, t: State) {
    && t.conf == s.conf && t.source == s.source && t.unDemandHook == s.unDemandHook
    && t.running == s.running && t.finished == s.finished
  }

  predicate SameStream(s: State, t: State) {
    t.stream == s.stream && t.recorder == s.recorder && t.nextStream == s.nextStream
  }

  lemma {:induction false} FlushOnHoldSeen(s: State, reply: Reply)
    requires !s.finished && Seen(s, View(s))
    requires reply == Refused(TimedOut)
    requires s.stream.None?
    requires forall q :: q in s.describesOnHold ==> q.Describe?
    ensures Seen(FlushOnHold(s, reply), View(s).(pending := multiset{}))
  {
    var t := ReplyAll(s, s.describesOnHold, reply);
    ReplyAllFrame(s, s.describesOnHold, reply);
    ReplyAllSeen(s, View(s), s.describesOnHold, reply);
    var o := View(s).(pending := Bag(s.readersOnHold));
    assert View(s).pending - Bag(s.describesOnHold) == o.pending;
    ReplyAllSeen(t.(describesOnHold := []), o, s.readersOnHold, reply);
    assert o.pending - Bag(s.readersOnHold) == multiset{};
  }

  lemma {:induction false} FlushOnHoldFrame(s: State, reply: Reply)
    ensures var t := FlushOnHold(s, reply);
            && t.describesOnHold == [] && t.readersOnHold == [] && t.readers == s.readers
            && SameOwners(s, t) && SameStream(s, t) && SameDemands(s, t)
  {
    var t := ReplyAll(s, s.describesOnHold, reply).(describesOnHold := []);
    ReplyAllFrame(s, s.describesOnHold, reply);
    ReplyAllFrame(t, s.readersOnHold, reply);
  }

  lemma {:induction false} CloseRecorderSeen(s: State, o: Observer)
    requires Seen(s, o) && !o.destroyed && o.recording == s.recorder
    ensures var t := CloseRecorder(s);
            && t == s.(recorder := None, trace := t.trace)
            && Seen(t, o.(recording := None))
  {
    if s.recorder.Some? {
      Emitted(s.(recorder := None), o, RecorderClosed, o.(recording := None));
    }
  }

  lemma {:induction false} StartRecordingSeen(s: State, o: Observer)
    requires Seen(s, o) && !o.destroyed && o.recording.None? && o.open.Some?
    ensures var t := StartRecording(s);
            && t == s.(recorder := Some(s.conf.hot.settings), trace := t.trace)
            && Seen(t, o.(recording := t.recorder))
  {
    var settings := s.conf.hot.settings;
    Emitted(s.(recorder := Some(settings)), o, RecorderStarted(settings), o.(recording := Some(settings)));
  }

  /** Closing a stream detaches every reader, undoes the hook and stops the recorder first. */
  lemma {:induction false} SetNotReadySeen(s: State, o: Observer)
    requires s.stream.Some? && Seen(s, o) && !o.destroyed
    requires o.open == s.stream && o.announced && o.hooked && o.recording == s.recorder && o.attached == s.readers
    ensures Seen(SetNotReady(s),
                 o.(open := None, announced := false, hooked := false, recording := None, attached := {}))
  {
    var o1 := o.(announced := false);
    Emitted(s, o, NotifiedNotReady, o1);
    var t1 := Emit(s, NotifiedNotReady);
    var o2 := o1.(attached := {});
    Emitted(t1.(readers := {}), o1, ReadersClosed(t1.readers), o2);
    var t2 := Emit(t1.(readers := {}), ReadersClosed(t1.readers));
    var o3 := o2.(hooked := false);
    Emitted(t2, o2, OnNotReadyHook, o3);
    var t3 := Emit(t2, OnNotReadyHook);
    CloseRecorderSeen(t3, o3);
    var t4, o4 := CloseRecorder(t3), o3.(recording := None);
    Emitted(t4.(stream := None), o4, StreamClosed(t4.stream.value), o4.(open := None));
  }

  lemma {:induction false} SetNotReadyFrame(s: State)
    ensures var t := SetNotReady(s);
            && t.stream.None? && t.recorder.None? && t.readers == {} && t.nextStream == s.nextStream
            && SameOwners(s, t) && SameQueues(s, t) && SameDemands(s, t)
  {
  }

  lemma {:induction false} SetReadySeen(s: State, o: Observer)
    requires s.stream.None? && Seen(s, o) && !o.destroyed
    requires o.open.None? && !o.announced && !o.hooked && o.recording.None? && s.recorder.None?
    ensures var t := SetReady(s, true);
            Seen(t, o.(open := t.stream, announced := true, hooked := true, recording := t.recorder))
  {
    var t3, o3 := OpenedAndRecorded(s), o.(open := Some(s.nextStream), recording := OpenedAndRecorded(s).recorder);
    OpenedSeen(s, o);
    var o4 := o3.(hooked := true);
    Emitted(t3, o3, OnReadyHook, o4);
    Emitted(Emit(t3, OnReadyHook), o4, NotifiedReady, o4.(announced := true));
  }

  /** The first half of getting ready. */
  function OpenedAndRecorded(s: State): State {
    var t := Emit(s.(stream := Some(s.nextStream), nextStream := s.nextStream + 1), StreamOpened(s.nextStream));
    if t.conf.hot.record then StartRecording(t) else t
  }

  lemma {:induction false} OpenedSeen(s: State, o: Observer)
    requires s.stream.None? && Seen(s, o) && !o.destroyed
    requires o.open.None? && !o.announced && !o.hooked && o.recording.None? && s.recorder.None?
    ensures var t := OpenedAndRecorded(s);
            Seen(t, o.(open := Some(s.nextStream), recording := t.recorder))
  {
    var k := s.nextStream;
    var t1 := s.(stream := Some(k), nextStream := k + 1);
    var o2 := o.(open := Some(k));
    Emitted(t1, o, StreamOpened(k), o2);
    var t2 := Emit(t1, StreamOpened(k));
    if t2.conf.hot.record {
      StartRecordingSeen(t2, o2);
    }
  }

  lemma {:induction false} SetReadyFrame(s: State)
    ensures var t := SetReady(s, true);
            && t.stream == Some(s.nextStream) && t.readers == s.readers
            && t.recorder == (if s.conf.hot.record then Some(s.conf.hot.settings) else s.recorder)
            && SameOwners(s, t) && SameQueues(s, t) && SameDemands(s, t)
  {
  }

  // readers

  lemma {:induction false} KeepAliveFrame(s: State)
    ensures var t := KeepAlive(s);
            t.readers == s.readers && t.trace == s.trace && SameOwners(s, t) && SameStream(s, t) && SameQueues(s, t)
  {
  }

  lemma {:induction false} AttachSeen(s: State, o: Observer, q: ReaderRequest)
    requires Seen(s, o) && !o.destroyed && q in o.pending
    requires s.stream.Some? && o.open == s.stream && o.announced
    requires q.reader in o.attached || s.conf.fixed.maxReaders == 0 || |o.attached| < s.conf.fixed.maxReaders
    ensures Seen(Emit(s, Replied(q, StreamReply(s))),
                 o.(pending := o.pending - multiset{q}, attached := o.attached + {q.reader}))
  {
    Emitted(s, o, Replied(q, StreamReply(s)),
            o.(pending := o.pending - multiset{q}, attached := o.attached + {q.reader}));
  }

  lemma {:induction false} AddReaderPostSeen(s: State, o: Observer, q: ReaderRequest)
    requires Seen(s, o) && !o.destroyed && q in o.pending
    requires s.stream.Some? && o.open == s.stream && o.announced && o.attached == s.readers
    requires s.conf.fixed.maxReaders != 0 ==> |s.readers| <= s.conf.fixed.maxReaders
    ensures Seen(AddReaderPost(s, q), o.(pending := o.pending - multiset{q}, attached := AddReaderPost(s, q).readers))
  {
    var maxReaders := s.conf.fixed.maxReaders;
    if q.reader in s.readers {
      assert o.attached + {q.reader} == o.attached;
      AttachSeen(s, o, q);
    } else if maxReaders != 0 && |s.readers| >= maxReaders {
      Emitted(s, o, Replied(q, Refused(MaxReadersReached)), o.(pending := o.pending - multiset{q}));
    } else {
      var u := s.(readers := s.readers + {q.reader});
      KeepAliveFrame(u);
      AttachSeen(KeepAlive(u), o, q);
    }
  }

  /** Attaching a reader succeeds exactly when the reader is known or there is room. */
  lemma {:induction false} AddReaderPostFrame(s: State, q: ReaderRequest)
    ensures var t := AddReaderPost(s, q);
            && SameOwners(s, t) && SameStream(s, t) && SameQueues(s, t)
            && t.readers == (if s.conf.fixed.maxReaders != 0 && |s.readers| >= s.conf.fixed.maxReaders
                             then s.readers else s.readers + {q.reader})
            && (q.reader in s.readers ==> t.readers == s.readers)
  {
    assert q.reader in s.readers ==> s.readers + {q.reader} == s.readers;
    KeepAliveFrame(s.(readers := s.readers + {q.reader}));
  }

  // the invariant, operation by operation

  lemma {:induction false} AddReaderPostKeeps(s: State, q: ReaderRequest)
    requires CoreInvariant(s) && s.stream.Some?
    ensures CoreInvariant(AddReaderPost(s, q)) && AddReaderPost(s, q).stream == s.stream
  {
    AddReaderPostFrame(s, q);
  }

  lemma {:induction false} AddReadersPostKeeps(s: State, qs: seq<ReaderRequest>)
    requires CoreInvariant(s) && s.stream.Some?
    ensures var t := AddReadersPost(s, qs);
            CoreInvariant(t) && SameOwners(s, t) && SameStream(s, t) && SameQueues(s, t)
    decreases |qs|
  {
    if qs != [] {
      AddReaderPostKeeps(s, qs[0]);
      AddReaderPostFrame(s, qs[0]);
      AddReadersPostKeeps(AddReaderPost(s, qs[0]), qs[1..]);
    }
  }

  lemma {:induction false} ConsumeOnHoldKeeps(s: State)
    requires CoreInvariant(s) && s.stream.Some?
    ensures var t := ConsumeOnHold(s);
            Invariant(t) && NothingOnHold(t) && SameOwners(s, t) && SameStream(s, t)
  {
    var t := ReplyAll(s, s.describesOnHold, StreamReply(s)).(describesOnHold := []);
    ReplyAllFrame(s, s.describesOnHold, StreamReply(s));
    AddReadersPostKeeps(t, s.readersOnHold);
  }

  lemma {:induction false} StaticReadyTimerKeeps(s: State)
    requires Invariant(s) && s.sourceDemand.readyTimer
    ensures Invariant(DoStaticReadyTimer(Fire(s, StaticReadyTimer)))
  {
    FlushOnHoldFrame(Fire(s, StaticReadyTimer), Refused(TimedOut));
  }

  lemma {:induction false} StaticCloseTimerKeeps(s: State)
    requires Invariant(s) && s.sourceDemand.closeTimer
    ensures Invariant(DoStaticCloseTimer(Fire(s, StaticCloseTimer)))
  {
    SetNotReadyFrame(Fire(s, StaticCloseTimer));
  }

  lemma {:induction false} PublisherReadyTimerKeeps(s: State)
    requires Invariant(s) && s.publisherDemand.readyTimer
    ensures Invariant(DoPublisherReadyTimer(Fire(s, PublisherReadyTimer)))
  {
    FlushOnHoldFrame(Fire(s, PublisherReadyTimer), Refused(TimedOut));
  }

  lemma {:induction false} PublisherCloseTimerKeeps(s: State)
    requires Invariant(s) && s.publisherDemand.closeTimer
    ensures Invariant(DoPublisherCloseTimer(Fire(s, PublisherCloseTimer)))
  {
  }

  lemma {:induction false} ReloadConfOwners(s: State, newConf: Conf)
    ensures var t := DoReloadConf(s, newConf);
            t == s.(conf := newConf, recorder := t.recorder, trace := t.trace)
  {
  }

  lemma {:induction false} ReloadConfFrame(s: State, newConf: Conf)
    requires StreamInvariant(s)
    ensures var t := DoReloadConf(s, newConf);
            && t.conf == newConf && t.source == s.source && t.unDemandHook == s.unDemandHook
            && t.running == s.running && t.finished == s.finished
            && t.readers == s.readers && t.stream == s.stream && SameQueues(s, t) && SameDemands(s, t)
            && t.recorder == (if t.stream.Some? && newConf.hot.record then Some(newConf.hot.settings) else None)
  {
    ReloadConfOwners(s, newConf);
  }

  lemma {:induction false} ReloadConfKeeps(s: State, newConf: Conf)
    requires Invariant(s) && newConf.Valid() && CanBeUpdated(s.conf, newConf)
    ensures Invariant(DoReloadConf(s, newConf))
  {
    ReloadConfFrame(s, newConf);
    assert newConf.fixed == s.conf.fixed;
  }

  lemma {:induction false} SourceSetReadyKeeps(s: State)
    requires Invariant(s) && s.running && s.stream.None?
    ensures Invariant(DoSourceSetReady(s, true)) && NothingOnHold(DoSourceSetReady(s, true))
  {
    SetReadyFrame(s);
    var t := SetReady(s, true);
    ConsumeOnHoldKeeps(if t.conf.HasOnDemandStaticSource()
                       then StaticScheduleClose(t.(sourceDemand := t.sourceDemand.(readyTimer := false)))
                       else t);
  }

  lemma {:induction false} SourceSetNotReadyKeeps(s: State)
    requires Invariant(s) && Enabled(s, SourceSetNotReady)
    ensures Invariant(DoSourceSetNotReady(s))
  {
    SetNotReadyFrame(s);
  }

  /** Somebody brings a stream from now on, if not already. */
  function Demanded(s: State): State {
    if s.conf.HasOnDemandStaticSource() then DemandStatic(s) else DemandPublisher(s)
  }

  lemma {:induction false} DemandKeeps(s: State)
    requires CoreInvariant(s) && s.stream.None?
    requires s.conf.HasOnDemandStaticSource() || s.conf.HasOnDemandPublisher()
    ensures var t := Demanded(s);
            && CoreInvariant(t) && SameQueues(s, t) && t.conf == s.conf && t.stream.None?
            && (s.conf.HasOnDemandStaticSource() ==> t.sourceDemand.state == WaitingReady)
  {
  }

  lemma {:induction false} DescribeKeeps(s: State, id: nat)
    requires Invariant(s)
    ensures Invariant(DoDescribe(s, id))
  {
    if s.stream.None? && (s.conf.HasOnDemandStaticSource() || s.conf.HasOnDemandPublisher()) {
      DemandKeeps(s);
      var t := Demanded(s);
      assert DoDescribe(s, id) == t.(describesOnHold := t.describesOnHold + [Describe(id)]);
    }
  }

  lemma {:induction false} ExecuteRemovePublisherKeeps(s: State)
    requires Invariant(s) && s.source.Publisher?
    ensures Invariant(ExecuteRemovePublisher(s)) && ExecuteRemovePublisher(s).conf == s.conf
    ensures ExecuteRemovePublisher(s).source == NoSource
  {
    SetNotReadyFrame(s);
  }

  lemma {:induction false} AcceptPublisherKeeps(r: State, request: Request)
    requires Invariant(r) && r.conf.fixed.source == FromPublisher && r.source == NoSource && request.AddPublisher?
    ensures Invariant(AcceptPublisher(r, request, true))
  {
    SetReadyFrame(r.(source := Publisher(request.publisher)));
    var t := SetReady(r.(source := Publisher(request.publisher)), true);
    ConsumeOnHoldKeeps(if t.conf.HasOnDemandPublisher() && t.publisherDemand.state != Initial
                       then PublisherScheduleClose(t.(publisherDemand := t.publisherDemand.(readyTimer := false)))
                       else t);
  }

  lemma {:induction false} AddPublisherKeeps(s: State, id: nat, author: nat)
    requires Invariant(s)
    ensures Invariant(DoAddPublisher(s, id, author, true))
  {
    if s.conf.fixed.source == FromPublisher && (s.source == NoSource || s.conf.fixed.overridePublisher) {
      if s.source.Publisher? {
        ExecuteRemovePublisherKeeps(Emit(s, PublisherClosed(s.source.id)));
      }
      var r := OverridePublisher(s);
      assert Invariant(r) && r.conf == s.conf && r.source == NoSource;
      AcceptPublisherKeeps(r, AddPublisher(id, author));
    }
  }

  lemma {:induction false} AddReaderKeeps(s: State, id: nat, reader: nat)
    requires Invariant(s)
    ensures Invariant(DoAddReader(s, id, reader))
  {
    if s.stream.Some? {
      AddReaderPostKeeps(s, AddReader(id, reader));
      AddReaderPostFrame(s, AddReader(id, reader));
    } else if s.conf.HasOnDemandStaticSource() || s.conf.HasOnDemandPublisher() {
      DemandKeeps(s);
      var t := Demanded(s);
      assert DoAddReader(s, id, reader) == t.(readersOnHold := t.readersOnHold + [AddReader(id, reader)]);
    }
  }

  /** A reader leaves, and that it was the last one has not been noticed yet. */
  lemma {:induction false} ReaderLeaves(s: State, reader: nat)
    requires Invariant(s)
    ensures var t, readers := DoRemoveReader(s, reader), s.readers - {reader};
            && t.readers == readers && SameOwners(s, t) && SameStream(s, t) && SameQueues(s, t)
            && t.sourceDemand == (if readers == {} && s.conf.HasOnDemandStaticSource() && s.sourceDemand.state == Ready
                                  then s.sourceDemand.(closeTimer := true, state := Closing) else s.sourceDemand)
            && t.publisherDemand ==
               (if readers == {} && !s.conf.HasOnDemandStaticSource() && s.conf.HasOnDemandPublisher() &&
                   s.publisherDemand.state == Ready
                then s.publisherDemand.(closeTimer := true, state := Closing) else s.publisherDemand)
  {
    assert reader !in s.readers ==> s.readers - {reader} == s.readers;
  }

  lemma {:induction false} RemoveReaderKeeps(s: State, reader: nat)
    requires Invariant(s)
    ensures Invariant(DoRemoveReader(s, reader))
  {
    ReaderLeaves(s, reader);
  }

  // what the observer sees, operation by operation

  lemma {:induction false} FirstOfQueue(qs: seq<Request>, pending: multiset<Request>)
    requires qs != [] && Bag(qs) <= pending
    ensures qs[0] in pending && Bag(qs[1..]) <= pending - multiset{qs[0]}
    ensures pending - multiset{qs[0]} - Bag(qs[1..]) == pending - Bag(qs)
  {
    assert qs == [qs[0]] + qs[1..];
    assert qs[0] in Bag(qs);
  }

  lemma {:induction false} AddReadersPostSeen(s: State, o: Observer, qs: seq<ReaderRequest>)
    requires CoreInvariant(s) && s.stream.Some? && Seen(s, o) && !o.destroyed
    requires Bag(qs) <= o.pending && o.open == s.stream && o.announced && o.attached == s.readers
    ensures var t := AddReadersPost(s, qs);
            Seen(t, o.(pending := o.pending - Bag(qs), attached := t.readers))
    decreases |qs|
  {
    if qs == [] {
      assert o.pending - Bag(qs) == o.pending;
    } else {
      var q, t := qs[0], AddReaderPost(s, qs[0]);
      FirstOfQueue(qs, o.pending);
      AddReaderPostKeeps(s, q);
      AddReaderPostSeen(s, o, q);
      AddReadersPostSeen(t, o.(pending := o.pending - multiset{q}, attached := t.readers), qs[1..]);
    }
  }

  /** Once there is a stream, everything on hold is answered with it. */
  lemma {:induction false} ConsumeOnHoldSeen(s: State, o: Observer)
    requires CoreInvariant(s) && s.stream.Some? && Seen(s, o) && !o.destroyed
    requires forall q :: q in s.describesOnHold ==> q.Describe?
    requires Bag(s.describesOnHold) + Bag(s.readersOnHold) <= o.pending
    requires o.open == s.stream && o.announced && o.attached == s.readers
    ensures var t := ConsumeOnHold(s);
            Seen(t, o.(pending := o.pending - Bag(s.describesOnHold) - Bag(s.readersOnHold), attached := t.readers))
  {
    var t := ReplyAll(s, s.describesOnHold, StreamReply(s));
    ReplyAllFrame(s, s.describesOnHold, StreamReply(s));
    ReplyAllSeen(s, o, s.describesOnHold, StreamReply(s));
    AddReadersPostSeen(t.(describesOnHold := []), o.(pending := o.pending - Bag(s.describesOnHold)), s.readersOnHold);
  }

  lemma {:induction false} StaticStopSeen(s: State, o: Observer)
    requires Seen(s, o) && !o.destroyed && o.running && !o.announced
    ensures Seen(StaticStop(s), o.(running := false))
  {
    var d := if s.sourceDemand.state == Closing then s.sourceDemand.(closeTimer := false) else s.sourceDemand;
    Emitted(s.(sourceDemand := d.(state := Initial), running := false), o, SourceStopped, o.(running := false));
  }

  lemma {:induction false} PublisherStopSeen(s: State, o: Observer)
    requires Seen(s, o) && !o.destroyed && o.demanded
    ensures Seen(PublisherStop(s), o.(demanded := false))
  {
    Emitted(s.(unDemandHook := false), o, OnUnDemandHook, o.(demanded := false));
  }

  lemma {:induction false} DemandStaticSeen(s: State, o: Observer)
    requires CoreInvariant(s) && s.conf.HasOnDemandStaticSource() && Seen(s, o) && !o.destroyed &&
             o.running == s.running
    ensures Seen(DemandStatic(s), o.(running := true))
  {
    if s.sourceDemand.state == Initial {
      Emitted(s.(running := true), o, SourceStarted, o.(running := true));
    }
  }

  lemma {:induction false} DemandPublisherSeen(s: State, o: Observer)
    requires CoreInvariant(s) && s.conf.HasOnDemandPublisher() && Seen(s, o) && !o.destroyed
    requires o.demanded == s.unDemandHook
    ensures Seen(DemandPublisher(s), o.(demanded := true))
  {
    if s.publisherDemand.state == Initial {
      Emitted(s.(unDemandHook := true), o, OnDemandHook, o.(demanded := true));
    }
  }

  lemma {:induction false} ReceivedSeen(s: State, q: Request)
    requires Good(s)
    ensures Invariant(Emit(s, Received(q))) && Seen(Emit(s, Received(q)), WithPending(View(s), q))
  {
    Emitted(s, View(s), Received(q), WithPending(View(s), q));
  }

  lemma {:induction false} StaticReadyTimerSeen(s: State)
    requires Good(s) && s.sourceDemand.readyTimer
    ensures Good(DoStaticReadyTimer(Fire(s, StaticReadyTimer)))
  {
    StaticReadyTimerKeeps(s);
    var f := Fire(s, StaticReadyTimer);
    FlushOnHoldSeen(f, Refused(TimedOut));
    FlushOnHoldFrame(f, Refused(TimedOut));
    StaticStopSeen(FlushOnHold(f, Refused(TimedOut)), View(s).(pending := multiset{}));
  }

  lemma {:induction false} StaticCloseTimerSeen(s: State)
    requires Good(s) && s.sourceDemand.closeTimer
    ensures Good(DoStaticCloseTimer(Fire(s, StaticCloseTimer)))
  {
    StaticCloseTimerKeeps(s);
    var f, o := Fire(s, StaticCloseTimer), View(s);
    SetNotReadyFrame(f);
    SetNotReadySeen(f, o);
    StaticStopSeen(SetNotReady(f),
                   o.(open := None, announced := false, hooked := false, recording := None, attached := {}));
  }

  lemma {:induction false} PublisherReadyTimerSeen(s: State)
    requires Good(s) && s.publisherDemand.readyTimer
    ensures Good(DoPublisherReadyTimer(Fire(s, PublisherReadyTimer)))
  {
    PublisherReadyTimerKeeps(s);
    var f := Fire(s, PublisherReadyTimer);
    FlushOnHoldSeen(f, Refused(TimedOut));
    FlushOnHoldFrame(f, Refused(TimedOut));
    PublisherStopSeen(FlushOnHold(f, Refused(TimedOut)), View(s).(pending := multiset{}));
  }

  lemma {:induction false} PublisherCloseTimerSeen(s: State)
    requires Good(s) && s.publisherDemand.closeTimer
    ensures Good(DoPublisherCloseTimer(Fire(s, PublisherCloseTimer)))
  {
    PublisherCloseTimerKeeps(s);
    PublisherStopSeen(Fire(s, PublisherCloseTimer), View(s));
  }

  lemma {:induction false} ReloadConfSeen(s: State, newConf: Conf)
    requires Good(s) && newConf.Valid() && CanBeUpdated(s.conf, newConf)
    ensures Good(DoReloadConf(s, newConf))
  {
    ReloadConfKeeps(s, newConf);
    ReloadConfFrame(s, newConf);
    var t := s.(conf := newConf);
    CloseRecorderSeen(t, View(s));
    var changed := newConf.hot.record != s.conf.hot.record || newConf.hot.settings != s.conf.hot.settings;
    var u := if changed then CloseRecorder(t) else t;
    if newConf.hot.record && u.stream.Some? && u.recorder.None? {
      StartRecordingSeen(u, View(s).(recording := None));
    }
  }

  /** What the observer thinks once a stream has been opened and the queues have been consumed. */
  lemma {:induction false} OpenAndConsumeSeen(s: State, u: State, o: Observer)
    requires s.stream.None? && s.recorder.None? && Seen(s, o) && !o.destroyed
    requires o.open.None? && !o.announced && !o.hooked && o.recording.None? && o.attached == s.readers
    requires SameOwners(s, u) && SameQueues(s, u) && SameStream(SetReady(s, true), u)
    requires u.readers == s.readers && u.trace == SetReady(s, true).trace
    requires CoreInvariant(u) && forall q :: q in s.describesOnHold ==> q.Describe?
    requires Bag(s.describesOnHold) + Bag(s.readersOnHold) <= o.pending
    ensures var t := ConsumeOnHold(u);
            Seen(t, o.(open := t.stream, announced := true, hooked := true, recording := t.recorder,
                       attached := t.readers,
                       pending := o.pending - Bag(s.describesOnHold) - Bag(s.readersOnHold)))
  {
    SetReadySeen(s, o);
    SetReadyFrame(s);
    ConsumeOnHoldKeeps(u);
    ConsumeOnHoldSeen(u, o.(open := u.stream, announced := true, hooked := true, recording := u.recorder));
  }

  lemma {:induction false} SourceSetReadySeen(s: State)
    requires Good(s) && s.running && s.stream.None?
    ensures Good(DoSourceSetReady(s, true))
  {
    SourceSetReadyKeeps(s);
    SetReadyFrame(s);
    var t := SetReady(s, true);
    var u := if t.conf.HasOnDemandStaticSource()
             then StaticScheduleClose(t.(sourceDemand := t.sourceDemand.(readyTimer := false)))
             else t;
    OpenAndConsumeSeen(s, u, View(s));
    ConsumeOnHoldKeeps(u);
    var v := ConsumeOnHold(u);
    assert View(s).pending - Bag(s.describesOnHold) - Bag(s.readersOnHold) == View(v).pending;
  }

  lemma {:induction false} SourceSetNotReadySeen(s: State)
    requires Good(s) && Enabled(s, SourceSetNotReady)
    ensures Good(DoSourceSetNotReady(s))
  {
    SourceSetNotReadyKeeps(s);
    SetNotReadyFrame(s);
    SetNotReadySeen(s, View(s));
    var t, o := SetNotReady(s),
      View(s).(open := None, announced := false, hooked := false, recording := None, attached := {});
    if t.conf.HasOnDemandStaticSource() && t.sourceDemand.state != Initial {
      StaticStopSeen(t, o);
    }
  }

  /** A request that has to wait starts the on-demand source, which nobody else can have started. */
  lemma {:induction false} DemandSeen(s: State, q: Request)
    requires Invariant(s) && s.stream.None? && Seen(s, WithPending(View(s), q))
    requires s.conf.HasOnDemandStaticSource() || s.conf.HasOnDemandPublisher()
    ensures var t := Demanded(s);
            Seen(t, WithPending(View(t), q)) && SameQueues(s, t)
  {
    if s.conf.HasOnDemandStaticSource() {
      DemandStaticSeen(s, WithPending(View(s), q));
    } else {
      DemandPublisherSeen(s, WithPending(View(s), q));
    }
  }

  lemma {:induction false} HoldDescribeSeen(s: State, id: nat)
    requires Invariant(s) && s.stream.None? && Seen(s, WithPending(View(s), Describe(id)))
    requires s.conf.HasOnDemandStaticSource() || s.conf.HasOnDemandPublisher()
    ensures Seen(DoDescribe(s, id), View(DoDescribe(s, id)))
  {
    var q := Describe(id);
    DemandSeen(s, q);
    var t := Demanded(s);
    assert DoDescribe(s, id) == t.(describesOnHold := t.describesOnHold + [q]);
    assert Bag(t.describesOnHold + [q]) == Bag(t.describesOnHold) + multiset{q};
    assert View(DoDescribe(s, id)) == WithPending(View(t), q);
  }

  lemma {:induction false} DescribeSeen(s: State, id: nat)
    requires Invariant(s) && Seen(s, WithPending(View(s), Describe(id)))
    ensures Good(DoDescribe(s, id))
  {
    DescribeKeeps(s, id);
    if s.stream.None? && (s.conf.HasOnDemandStaticSource() || s.conf.HasOnDemandPublisher()) {
      HoldDescribeSeen(s, id);
    } else {
      DescribeNowSeen(s, id);
    }
  }

  lemma {:induction false} DescribeNowSeen(s: State, id: nat)
    requires Invariant(s) && Seen(s, WithPending(View(s), Describe(id)))
    requires s.stream.Some? || !(s.conf.HasOnDemandStaticSource() || s.conf.HasOnDemandPublisher())
    ensures Seen(DoDescribe(s, id), View(s))
  {
    var q, o := Describe(id), WithPending(View(s), Describe(id));
    var reply := if s.source.Redirect? then Redirected(s.conf.fixed.sourceRedirect)
                 else if s.stream.None? && s.conf.fixed.fallback != "" then Redirected(s.conf.fixed.fallback)
                 else StreamReply(s);
    assert DoDescribe(s, id) == Emit(s, Replied(q, reply));
    assert o.pending - multiset{q} == View(s).pending;
    Emitted(s, o, Replied(q, reply), View(s));
  }

  lemma {:induction false} HoldReaderSeen(s: State, id: nat, reader: nat)
    requires Invariant(s) && s.stream.None? && Seen(s, WithPending(View(s), AddReader(id, reader)))
    requires s.conf.HasOnDemandStaticSource() || s.conf.HasOnDemandPublisher()
    ensures Seen(DoAddReader(s, id, reader), View(DoAddReader(s, id, reader)))
  {
    var q: ReaderRequest := AddReader(id, reader);
    DemandSeen(s, q);
    var t := Demanded(s);
    assert DoAddReader(s, id, reader) == t.(readersOnHold := t.readersOnHold + [q]);
    assert Bag(t.readersOnHold + [q]) == Bag(t.readersOnHold) + multiset{q};
    assert View(DoAddReader(s, id, reader)) == WithPending(View(t), q);
  }

  lemma {:induction false} AddReaderSeen(s: State, id: nat, reader: nat)
    requires Invariant(s) && Seen(s, WithPending(View(s), AddReader(id, reader)))
    ensures Good(DoAddReader(s, id, reader))
  {
    AddReaderKeeps(s, id, reader);
    if s.stream.None? && (s.conf.HasOnDemandStaticSource() || s.conf.HasOnDemandPublisher()) {
      HoldReaderSeen(s, id, reader);
    } else {
      AddReaderNowSeen(s, id, reader);
      AddReaderPostFrame(s, AddReader(id, reader));
    }
  }

  lemma {:induction false} AddReaderNowSeen(s: State, id: nat, reader: nat)
    requires Invariant(s) && Seen(s, WithPending(View(s), AddReader(id, reader)))
    requires s.stream.Some? || !(s.conf.HasOnDemandStaticSource() || s.conf.HasOnDemandPublisher())
    ensures Seen(DoAddReader(s, id, reader), View(s).(attached := DoAddReader(s, id, reader).readers))
  {
    var q: ReaderRequest := AddReader(id, reader);
    var o := WithPending(View(s), q);
    assert o.pending - multiset{q} == View(s).pending;
    if s.stream.Some? {
      AddReaderPostSeen(s, o, q);
    } else {
      Emitted(s, o, Replied(q, Refused(NoStreamAvailable)), View(s));
    }
  }

  lemma {:induction false} RemoveReaderSeen(s: State, reader: nat)
    requires Good(s)
    ensures Good(DoRemoveReader(s, reader))
  {
    RemoveReaderKeeps(s, reader);
    if reader in s.readers {
      var o := View(s).(attached := s.readers - {reader});
      Emitted(s.(readers := s.readers - {reader}), View(s), ReaderLeft(reader), o);
    }
  }

  lemma {:induction false} ExecuteRemovePublisherSeen(s: State, o: Observer)
    requires Invariant(s) && s.source.Publisher? && Seen(s, o) &&
             o == View(s).(publishing := None, pending := o.pending)
    ensures Seen(ExecuteRemovePublisher(s), View(ExecuteRemovePublisher(s)).(pending := o.pending))
  {
    SetNotReadyFrame(s);
    SetNotReadySeen(s, o);
  }

  lemma {:induction false} RemovePublisherSeen(s: State, author: nat)
    requires Good(s)
    ensures Good(DoRemovePublisher(s, author))
  {
    if s.source == Publisher(author) {
      var t := Emit(s, PublisherLeft(author));
      Emitted(s, View(s), PublisherLeft(author), View(s).(publishing := None));
      ExecuteRemovePublisherKeeps(t);
      ExecuteRemovePublisherSeen(t, View(s).(publishing := None));
      SetNotReadyFrame(t);
    }
  }

  lemma {:induction false} OverridePublisherSeen(s: State, o: Observer)
    requires Invariant(s) && s.conf.fixed.source == FromPublisher && Seen(s, o) && o == View(s).(pending := o.pending)
    ensures var t := OverridePublisher(s);
            && Invariant(t) && t.conf == s.conf && t.source == NoSource && SameQueues(s, t)
            && Seen(t, View(t).(pending := o.pending))
  {
    if s.source.Publisher? {
      var t := Emit(s, PublisherClosed(s.source.id));
      Emitted(s, o, PublisherClosed(s.source.id), o.(publishing := None));
      ExecuteRemovePublisherKeeps(t);
      ExecuteRemovePublisherSeen(t, o.(publishing := None));
      SetNotReadyFrame(t);
    }
  }

  predicate CanPublish(s: State) {
    s.conf.fixed.source == FromPublisher && (s.source == NoSource || s.conf.fixed.overridePublisher)
  }

  lemma {:induction false} AddPublisherSeen(s: State, id: nat, author: nat)
    requires Invariant(s) && Seen(s, WithPending(View(s), AddPublisher(id, author)))
    ensures Good(DoAddPublisher(s, id, author, true))
  {
    AddPublisherKeeps(s, id, author);
    if CanPublish(s) {
      OverridePublisherSeen(s, WithPending(View(s), AddPublisher(id, author)));
      PublishSeen(OverridePublisher(s), id, author);
    } else {
      RefusePublisherSeen(s, id, author);
    }
  }

  lemma {:induction false} RefusePublisherSeen(s: State, id: nat, author: nat)
    requires Invariant(s) && Seen(s, WithPending(View(s), AddPublisher(id, author)))
    requires !CanPublish(s)
    ensures Seen(DoAddPublisher(s, id, author, true), View(s))
  {
    var q := AddPublisher(id, author);
    var why := if s.conf.fixed.source != FromPublisher then NotAPublisherPath else AlreadyPublishing;
    assert WithPending(View(s), q).pending - multiset{q} == View(s).pending;
    Emitted(s, WithPending(View(s), q), Replied(q, Refused(why)), View(s));
  }

  /** The path of a publisher that has been accepted, before requests on hold are answered. */
  function Publishing(s: State, author: nat): State {
    var t := SetReady(s.(source := Publisher(author)), true);
    if t.conf.HasOnDemandPublisher() && t.publisherDemand.state != Initial
    then PublisherScheduleClose(t.(publisherDemand := t.publisherDemand.(readyTimer := false)))
    else t
  }

  lemma {:induction false} PublishingFrame(s: State, author: nat)
    requires Invariant(s) && s.conf.fixed.source == FromPublisher && s.source == NoSource
    ensures var r, u := s.(source := Publisher(author)), Publishing(s, author);
            && SameOwners(r, u) && SameQueues(r, u) && SameStream(SetReady(r, true), u)
            && u.readers == {} && u.trace == SetReady(r, true).trace && CoreInvariant(u)
  {
    SetReadyFrame(s.(source := Publisher(author)));
  }

  /** Publishing to a path that has no publisher (any more). */
  lemma {:induction false} PublishSeen(s: State, id: nat, author: nat)
    requires Invariant(s) && s.conf.fixed.source == FromPublisher && s.source == NoSource
    requires Seen(s, WithPending(View(s), AddPublisher(id, author)))
    ensures var t := DoAddPublisher(s, id, author, true);
            Seen(t, View(t))
  {
    var q, u := AddPublisher(id, author), Publishing(s, author);
    var o := WithPending(View(s), q);
    PublishingFrame(s, author);
    OpenAndConsumeSeen(s.(source := Publisher(author)), u, o);
    ConsumeOnHoldKeeps(u);
    assert o.pending - Bag(s.describesOnHold) - Bag(s.readersOnHold) == multiset{q};
    var v := ConsumeOnHold(u);
    AcceptPublisherSeen(v, q);
    assert DoAddPublisher(s, id, author, true) == Emit(v, Replied(q, StreamReply(v)));
  }

  lemma {:induction false} AcceptPublisherSeen(v: State, q: Request)
    requires Invariant(v) && NothingOnHold(v) && v.stream.Some? && q.AddPublisher? && v.source == Publisher(q.publisher)
    requires Seen(v, View(v).(pending := multiset{q}, publishing := None))
    ensures Seen(Emit(v, Replied(q, StreamReply(v))), View(v))
  {
    assert multiset{q} - multiset{q} == View(v).pending;
    Emitted(v, View(v).(pending := multiset{q}, publishing := None), Replied(q, StreamReply(v)), View(v));
  }

  // leaving the event loop

  lemma {:induction false} AnswerBeforeLeavingSeen(s: State)
    requires Seen(s, View(s)) && !s.finished && forall q :: q in s.describesOnHold ==> q.Describe?
    ensures var t := ReplyAll(ReplyAll(s, s.describesOnHold, Refused(Terminated)), s.readersOnHold,
                              Refused(Terminated));
            t == s.(trace := t.trace) && Seen(t, View(s).(pending := multiset{}))
  {
    var t := ReplyAll(s, s.describesOnHold, Refused(Terminated));
    ReplyAllFrame(s, s.describesOnHold, Refused(Terminated));
    ReplyAllFrame(t, s.readersOnHold, Refused(Terminated));
    ReplyAllSeen(s, View(s), s.describesOnHold, Refused(Terminated));
    var o := View(s).(pending := Bag(s.readersOnHold));
    assert View(s).pending - Bag(s.describesOnHold) == o.pending;
    ReplyAllSeen(t, o, s.readersOnHold, Refused(Terminated));
    assert o.pending - Bag(s.readersOnHold) == multiset{};
  }

  /** The tail stops the source exactly when it is running. */
  predicate Releasable(s: State) {
    s.running <==> s.source.Static? && (!s.conf.fixed.sourceOnDemand || s.sourceDemand.state != Initial)
  }

  lemma {:induction false} ReleaseSourceSeen(s: State, o: Observer)
    requires Releasable(s) && s.stream.None? && s.readers == {} && s.recorder.None? && Seen(s, o)
    requires !s.finished && o == View(s).(pending := multiset{})
    ensures Seen(ReleaseSource(s), START.(demanded := s.unDemandHook))
    ensures ReleaseSource(s).unDemandHook == s.unDemandHook
  {
    var p := START.(demanded := s.unDemandHook);
    if s.running {
      Emitted(s.(running := false), o, SourceStopped, p);
    } else if s.source.Publisher? {
      Emitted(s, o, PublisherClosed(s.source.id), p);
    }
  }

  lemma {:induction false} UndoHookSeen(s: State)
    requires Seen(s, START.(demanded := s.unDemandHook))
    ensures Gone(Emit((if s.unDemandHook then Emit(s, OnUnDemandHook) else s).(finished := true), Destroyed))
  {
    if s.unDemandHook {
      Emitted(s, START.(demanded := true), OnUnDemandHook, START);
    }
    var t := if s.unDemandHook then Emit(s, OnUnDemandHook) else s;
    Emitted(t.(finished := true), START, Destroyed, GONE);
  }

  /** Whatever is going on, leaving the event loop answers everything and leaves nothing behind. */
  lemma {:induction false} LeaveSeen(s: State)
    requires Good(s)
    ensures Gone(Leave(s))
  {
    var t := Emit(s, NotifiedClosed);
    Emitted(s, View(s), NotifiedClosed, View(s));
    var u := t.(sourceDemand := t.sourceDemand.(readyTimer := false, closeTimer := false),
                publisherDemand := t.publisherDemand.(readyTimer := false, closeTimer := false));
    AnswerBeforeLeavingSeen(u);
    var w := ReplyAll(ReplyAll(u, u.describesOnHold, Refused(Terminated)), u.readersOnHold, Refused(Terminated));
    assert Releasable(w);
    UndoSeen(w);
    ReplyAllFrame(u, u.describesOnHold, Refused(Terminated));
  }

  lemma {:induction false} UndoSeen(w: State)
    requires Releasable(w) && StreamInvariant(w) && !w.finished && Seen(w, View(w).(pending := multiset{}))
    ensures Gone(Undo(w))
  {
    if w.stream.Some? {
      SetNotReadyFrame(w);
      SetNotReadySeen(w, View(w).(pending := multiset{}));
    }
    var y := if w.stream.Some? then SetNotReady(w) else w;
    ReleaseSourceSeen(y, View(y).(pending := multiset{}));
    UndoHookSeen(ReleaseSource(y));
  }

  // one iteration of the event loop, and whole runs

  ghost predicate Safe(s: State) {
    Good(s) || Gone(s)
  }

  lemma {:induction false} LeaveIfUnusedSeen(s: State)
    requires Good(s)
    ensures Safe(LeaveIfUnused(s))
  {
    if ShouldClose(s) {
      LeaveSeen(s);
    }
  }

  lemma {:induction false} StepSeen(s: State, e: Event)
    requires Good(s) && Enabled(s, e) && !FailsToInitialize(s, e) && !OpensSecondStream(s, e)
    ensures Safe(Step(s, e))
  {
    match e
    case StaticReadyTimer => StaticReadyTimerSeen(s); LeaveIfUnusedSeen(DoStaticReadyTimer(Fire(s, e)));
    case StaticCloseTimer => StaticCloseTimerSeen(s); LeaveIfUnusedSeen(DoStaticCloseTimer(Fire(s, e)));
    case PublisherReadyTimer => PublisherReadyTimerSeen(s); LeaveIfUnusedSeen(DoPublisherReadyTimer(Fire(s, e)));
    case PublisherCloseTimer => PublisherCloseTimerSeen(s);
    case ReloadConf(newConf) => ReloadConfSeen(s, newConf);
    case SourceSetReady(_) => SourceSetReadySeen(s);
    case SourceSetNotReady => SourceSetNotReadySeen(s); LeaveIfUnusedSeen(DoSourceSetNotReady(s));
    case DescribeRequest(id) =>
      ReceivedSeen(s, Describe(id));
      DescribeSeen(Emit(s, Received(Describe(id))), id);
      LeaveIfUnusedSeen(DoDescribe(Emit(s, Received(Describe(id))), id));
    case AddPublisherRequest(id, p, _) => AddPublisherStepSeen(s, id, p, e.initializes);
    case RemovePublisher(p) => RemovePublisherSeen(s, p); LeaveIfUnusedSeen(DoRemovePublisher(s, p));
    case AddReaderRequest(id, r) =>
      ReceivedSeen(s, AddReader(id, r));
      AddReaderSeen(Emit(s, Received(AddReader(id, r))), id, r);
      LeaveIfUnusedSeen(DoAddReader(Emit(s, Received(AddReader(id, r))), id, r));
    case RemoveReader(r) => RemoveReaderSeen(s, r);
    case Terminate => LeaveSeen(s);
  }

  lemma {:induction false} AddPublisherStepSeen(s: State, id: nat, p: nat, initializes: bool)
    requires Good(s) && !FailsToInitialize(s, AddPublisherRequest(id, p, initializes))
    ensures Good(Step(s, AddPublisherRequest(id, p, initializes)))
  {
    var t := Emit(s, Received(AddPublisher(id, p)));
    ReceivedSeen(s, AddPublisher(id, p));
    AddPublisherSeen(t, id, p);
    assert initializes || DoAddPublisher(t, id, p, false) == DoAddPublisher(t, id, p, true);
  }
}
