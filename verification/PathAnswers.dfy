/** Which answers a path gives, and when: over every run each one is justified by the event that leads to it, the state
    in which that is received, and the part of the configuration that never changes. */
module PathAnswers {
  import opened Options
  import opened Config
  import opened PathModel
  import opened PathSafety
  import opened PathRuns

  predicate IsOnDemand(conf: Conf) {
    conf.HasOnDemandStaticSource() || conf.HasOnDemandPublisher()
  }

  /** The event is this request. */
  predicate IsRequest(e: Event, q: Request) {
    match e
    case DescribeRequest(id) => q == Describe(id)
    case AddReaderRequest(id, reader) => q == AddReader(id, reader)
    case AddPublisherRequest(id, publisher, _) => q == AddPublisher(id, publisher)
    case _ => false
  }

  predicate IsOnHold(s: State, q: Request) {
    q in s.describesOnHold || q in s.readersOnHold
  }

  /** The event brings a stream. */
  predicate OpensStream(s: State, e: Event) {
    || e.SourceSetReady?
    || (e.AddPublisherRequest? && s.conf.fixed.source == FromPublisher &&
        (s.source == NoSource || s.conf.fixed.overridePublisher))
  }

  /** An answer that a path may give in response to an event. A stream is the one that is open, for the request itself,
      or the one that the event brings, for the requests on hold and the publisher; requests on hold are otherwise
      answered only by the timer that waits for a stream and when the path is terminated; redirects lead where the
      configuration says, nobody is sent away from an on-demand path for lack of a stream, and refusals have the
      reason that applies. */
  predicate Fits(s: State, e: Event, q: Request, reply: Reply) {
    var conf := s.conf;
    match reply
    case GotStream(k) =>
      && conf.fixed.source != FromRedirect && (q.AddPublisher? ==> conf.fixed.source == FromPublisher)
      && if OpensStream(s, e) then k == s.nextStream && (IsOnHold(s, q) || (q.AddPublisher? && IsRequest(e, q)))
         else s.stream == Some(k) && !q.AddPublisher? && IsRequest(e, q)
    case Redirected(to) =>
      && q.Describe? && IsRequest(e, q)
      && if conf.fixed.source == FromRedirect then to == conf.fixed.sourceRedirect
         else s.stream.None? && to == conf.fixed.fallback && to != "" && !IsOnDemand(conf)
    case Refused(NoStreamAvailable) =>
      && IsRequest(e, q) && s.stream.None? && !IsOnDemand(conf)
      && (q.Describe? ==> conf.fixed.source != FromRedirect && conf.fixed.fallback == "")
    case Refused(TimedOut) => IsOnDemand(conf) && IsOnHold(s, q) && (e.StaticReadyTimer? || e.PublisherReadyTimer?)
    case Refused(MaxReadersReached) =>
      && conf.fixed.maxReaders != 0 && q.AddReader?
      && if OpensStream(s, e) then IsOnHold(s, q) else s.stream.Some? && IsRequest(e, q)
    case Refused(NotAPublisherPath) => IsRequest(e, q) && conf.fixed.source != FromPublisher
    case Refused(AlreadyPublishing) =>
      IsRequest(e, q) && conf.fixed.source == FromPublisher && !conf.fixed.overridePublisher && s.source.Publisher?
    case Refused(InitializeFailed) => false
    case Refused(Terminated) => IsOnHold(s, q) && e.Terminate?
  }

  /** What a path does in response to an event. */
  datatype Cause = Cause(state: State, event: Event)

  /** All that the path has answered since it received the event fits. */
  predicate AllFit(c: Cause, t: State) {
    && c.state.trace <= t.trace
    && forall i :: |c.state.trace| <= i < |t.trace| && t.trace[i].Replied? ==>
       Fits(c.state, c.event, t.trace[i].request, t.trace[i].reply)
  }

  /** Everything on hold was on hold before the event. */
  predicate NothingNewOnHold(c: Cause, t: State) {
    && (forall q :: q in t.describesOnHold ==> q in c.state.describesOnHold)
    && (forall q :: q in t.readersOnHold ==> q in c.state.readersOnHold)
  }

  /** The event opens a stream, which the path has. */
  predicate HasNewStream(c: Cause, t: State) {
    && OpensStream(c.state, c.event) && t.stream == Some(c.state.nextStream)
    && t.conf.fixed == c.state.conf.fixed && t.conf.fixed.source != FromRedirect
  }

  lemma {:induction false} EmitFits(c: Cause, s: State, a: Action)
    requires AllFit(c, s) && (a.Replied? ==> Fits(c.state, c.event, a.request, a.reply))
    ensures AllFit(c, Emit(s, a))
  {
  }

  lemma {:induction false} ReplyAllFits(c: Cause, s: State, qs: seq<Request>, reply: Reply)
    requires AllFit(c, s) && forall q :: q in qs ==> Fits(c.state, c.event, q, reply)
    ensures AllFit(c, ReplyAll(s, qs, reply))
    ensures ReplyAll(s, qs, reply) == s.(trace := ReplyAll(s, qs, reply).trace)
    decreases |qs|
  {
    if qs != [] {
      EmitFits(c, s, Replied(qs[0], reply));
      ReplyAllFits(c, Emit(s, Replied(qs[0], reply)), qs[1..], reply);
    }
  }

  lemma {:induction false} FlushFits(c: Cause, s: State, reply: Reply)
    requires AllFit(c, s)
    requires forall q :: q in s.describesOnHold || q in s.readersOnHold ==> Fits(c.state, c.event, q, reply)
    ensures AllFit(c, FlushOnHold(s, reply))
  {
    ReplyAllFits(c, s, s.describesOnHold, reply);
    var t := ReplyAll(s, s.describesOnHold, reply);
    ReplyAllFits(c, t.(describesOnHold := []), s.readersOnHold, reply);
  }

  /** A path with a new stream answers a reader that was on hold by it or by the limit. */
  lemma {:induction false} HeldReaderFits(c: Cause, s: State, q: ReaderRequest)
    requires AllFit(c, s) && HasNewStream(c, s) && q in c.state.readersOnHold
    ensures AllFit(c, AddReaderPost(s, q)) && HasNewStream(c, AddReaderPost(s, q))
  {
    AddReaderPostFrame(s, q);
    if q.reader in s.readers || !(s.conf.fixed.maxReaders != 0 && |s.readers| >= s.conf.fixed.maxReaders) {
      KeepAliveFrame(s.(readers := s.readers + {q.reader}));
    }
  }

  lemma {:induction false} HeldReadersFit(c: Cause, s: State, qs: seq<ReaderRequest>)
    requires AllFit(c, s) && HasNewStream(c, s) && forall q :: q in qs ==> q in c.state.readersOnHold
    ensures AllFit(c, AddReadersPost(s, qs))
    decreases |qs|
  {
    if qs != [] {
      HeldReaderFits(c, s, qs[0]);
      HeldReadersFit(c, AddReaderPost(s, qs[0]), qs[1..]);
    }
  }

  lemma {:induction false} ConsumeFits(c: Cause, s: State)
    requires AllFit(c, s) && HasNewStream(c, s) && NothingNewOnHold(c, s)
    requires forall q :: q in s.describesOnHold ==> q.Describe?
    ensures AllFit(c, ConsumeOnHold(s))
  {
    ReplyAllFits(c, s, s.describesOnHold, StreamReply(s));
    HeldReadersFit(c, ReplyAll(s, s.describesOnHold, StreamReply(s)).(describesOnHold := []), s.readersOnHold);
  }

  lemma {:induction false} SetReadyFits(c: Cause, s: State)
    requires AllFit(c, s)
    ensures AllFit(c, SetReady(s, true))
  {
  }

  lemma {:induction false} SetNotReadyFits(c: Cause, s: State)
    requires AllFit(c, s)
    ensures AllFit(c, SetNotReady(s))
  {
  }

  lemma {:induction false} UndoFits(c: Cause, s: State)
    requires AllFit(c, s)
    ensures AllFit(c, Undo(s))
  {
    if s.stream.Some? {
      SetNotReadyFits(c, s);
    }
    ReleaseFits(c, if s.stream.Some? then SetNotReady(s) else s);
  }

  lemma {:induction false} ReleaseFits(c: Cause, s: State)
    requires AllFit(c, s)
    ensures AllFit(c, ReleaseSource(s))
  {
  }

  /** A path leaves its event loop when it is terminated, or with nothing on hold. */
  lemma {:induction false} LeaveFits(c: Cause, s: State)
    requires AllFit(c, s) && (NothingOnHold(s) || (c.event.Terminate? && NothingNewOnHold(c, s)))
    ensures AllFit(c, Leave(s))
  {
    var t := Emit(s, NotifiedClosed);
    var u := t.(sourceDemand := t.sourceDemand.(readyTimer := false, closeTimer := false),
                publisherDemand := t.publisherDemand.(readyTimer := false, closeTimer := false));
    ReplyAllFits(c, u, u.describesOnHold, Refused(Terminated));
    var v := ReplyAll(u, u.describesOnHold, Refused(Terminated));
    ReplyAllFits(c, v, v.readersOnHold, Refused(Terminated));
    UndoFits(c, ReplyAll(v, v.readersOnHold, Refused(Terminated)));
  }

  lemma {:induction false} LeaveIfUnusedFits(c: Cause, s: State)
    requires AllFit(c, s)
    ensures AllFit(c, LeaveIfUnused(s))
  {
    if ShouldClose(s) {
      LeaveFits(c, s);
    }
  }

  // one iteration

  lemma {:induction false} TimersFit(s: State, e: Event)
    requires Invariant(s) && Enabled(s, e)
    requires e.StaticReadyTimer? || e.StaticCloseTimer? || e.PublisherReadyTimer? || e.PublisherCloseTimer?
    ensures AllFit(Cause(s, e), Step(s, e))
  {
    var c, t := Cause(s, e), Fire(s, e);
    match e
    case StaticReadyTimer =>
      FlushFits(c, t, Refused(TimedOut));
      LeaveIfUnusedFits(c, DoStaticReadyTimer(t));
    case StaticCloseTimer =>
      SetNotReadyFits(c, t);
      LeaveIfUnusedFits(c, DoStaticCloseTimer(t));
    case PublisherReadyTimer =>
      FlushFits(c, t, Refused(TimedOut));
      LeaveIfUnusedFits(c, DoPublisherReadyTimer(t));
    case PublisherCloseTimer =>
  }

  lemma {:induction false} DescribeFits(s: State, id: nat)
    requires Invariant(s)
    ensures AllFit(Cause(s, DescribeRequest(id)), Step(s, DescribeRequest(id)))
  {
    LeaveIfUnusedFits(Cause(s, DescribeRequest(id)), DoDescribe(Emit(s, Received(Describe(id))), id));
  }

  /** A path with a stream answers a reader by it or by the limit. */
  lemma {:induction false} OwnReaderFits(c: Cause, s: State, q: ReaderRequest)
    requires AllFit(c, s) && IsRequest(c.event, q) && !OpensStream(c.state, c.event)
    requires s.stream.Some? && s.stream == c.state.stream && s.conf == c.state.conf
    requires s.conf.fixed.source != FromRedirect
    ensures AllFit(c, AddReaderPost(s, q))
  {
    if q.reader in s.readers || !(s.conf.fixed.maxReaders != 0 && |s.readers| >= s.conf.fixed.maxReaders) {
      KeepAliveFrame(s.(readers := s.readers + {q.reader}));
    }
  }

  lemma {:induction false} AddReaderFits(s: State, id: nat, reader: nat)
    requires Invariant(s)
    ensures AllFit(Cause(s, AddReaderRequest(id, reader)), Step(s, AddReaderRequest(id, reader)))
  {
    var c, t := Cause(s, AddReaderRequest(id, reader)), Emit(s, Received(AddReader(id, reader)));
    if s.stream.Some? {
      OwnReaderFits(c, t, AddReader(id, reader));
    } else {
      HeldOrRefusedFits(c, t, id, reader);
    }
    LeaveIfUnusedFits(c, DoAddReader(t, id, reader));
  }

  lemma {:induction false} HeldOrRefusedFits(c: Cause, s: State, id: nat, reader: nat)
    requires AllFit(c, s) && c.event == AddReaderRequest(id, reader) && s.stream.None? && c.state.stream.None?
    requires s.conf == c.state.conf
    ensures AllFit(c, DoAddReader(s, id, reader))
  {
  }

  lemma {:induction false} OverrideFits(c: Cause, s: State)
    requires AllFit(c, s)
    ensures AllFit(c, OverridePublisher(s))
    ensures var t := OverridePublisher(s);
            && t.conf == s.conf && t.describesOnHold == s.describesOnHold && t.readersOnHold == s.readersOnHold
            && t.nextStream == s.nextStream
  {
    if s.source.Publisher? && s.stream.Some? {
      SetNotReadyFits(c, Emit(s, PublisherClosed(s.source.id)));
    }
  }

  lemma {:induction false} AcceptFits(c: Cause, s: State, q: Request)
    requires AllFit(c, s) && q.AddPublisher? && IsRequest(c.event, q) && OpensStream(c.state, c.event)
    requires s.conf == c.state.conf && s.nextStream == c.state.nextStream && NothingNewOnHold(c, s)
    requires forall d :: d in s.describesOnHold ==> d.Describe?
    ensures AllFit(c, AcceptPublisher(s, q, true))
  {
    var t := SetReady(s.(source := Publisher(q.publisher)), true);
    SetReadyFits(c, s.(source := Publisher(q.publisher)));
    SetReadyFrame(s.(source := Publisher(q.publisher)));
    var u := if t.conf.HasOnDemandPublisher() && t.publisherDemand.state != Initial
             then PublisherScheduleClose(t.(publisherDemand := t.publisherDemand.(readyTimer := false)))
             else t;
    ConsumeFits(c, u);
    ConsumeKeepsStream(u);
    EmitFits(c, ConsumeOnHold(u), Replied(q, StreamReply(ConsumeOnHold(u))));
  }

  lemma {:induction false} ConsumeKeepsStream(s: State)
    ensures ConsumeOnHold(s).stream == s.stream
  {
    ReplyAllFrame(s, s.describesOnHold, StreamReply(s));
    ReadersKeepStream(ReplyAll(s, s.describesOnHold, StreamReply(s)).(describesOnHold := []), s.readersOnHold);
  }

  lemma {:induction false} ReadersKeepStream(s: State, qs: seq<ReaderRequest>)
    ensures AddReadersPost(s, qs).stream == s.stream
    decreases |qs|
  {
    if qs != [] {
      AddReaderPostFrame(s, qs[0]);
      ReadersKeepStream(AddReaderPost(s, qs[0]), qs[1..]);
    }
  }

  lemma {:induction false} AddPublisherFits(s: State, e: Event)
    requires Invariant(s) && e.AddPublisherRequest? && !FailsToInitialize(s, e)
    ensures AllFit(Cause(s, e), Step(s, e))
  {
    var c, t := Cause(s, e), Emit(s, Received(AddPublisher(e.id, e.publisher)));
    if s.conf.fixed.source == FromPublisher && (s.source == NoSource || s.conf.fixed.overridePublisher) {
      OverrideFits(c, t);
      AcceptFits(c, OverridePublisher(t), AddPublisher(e.id, e.publisher));
    }
  }

  lemma {:induction false} SourceFits(s: State, e: Event)
    requires Invariant(s) && Enabled(s, e) && !FailsToInitialize(s, e) && !OpensSecondStream(s, e)
    requires e.SourceSetReady? || e.SourceSetNotReady?
    ensures AllFit(Cause(s, e), Step(s, e))
  {
    var c := Cause(s, e);
    if e.SourceSetReady? {
      SetReadyFits(c, s);
      SetReadyFrame(s);
      var t := SetReady(s, true);
      var u := if t.conf.HasOnDemandStaticSource()
               then StaticScheduleClose(t.(sourceDemand := t.sourceDemand.(readyTimer := false)))
               else t;
      ConsumeFits(c, u);
    } else {
      SetNotReadyFits(c, s);
      LeaveIfUnusedFits(c, DoSourceSetNotReady(s));
    }
  }

  lemma {:induction false} RemoveFits(s: State, e: Event)
    requires Invariant(s) && (e.RemovePublisher? || e.RemoveReader?)
    ensures AllFit(Cause(s, e), Step(s, e))
  {
    var c := Cause(s, e);
    if e.RemovePublisher? {
      if s.source == Publisher(e.publisher) && s.stream.Some? {
        SetNotReadyFits(c, Emit(s, PublisherLeft(e.publisher)));
      }
      LeaveIfUnusedFits(c, DoRemovePublisher(s, e.publisher));
    }
  }

  /** In response to any event a path gives only answers that fit. */
  lemma {:induction false} StepFits(s: State, e: Event)
    requires Invariant(s) && Enabled(s, e) && !FailsToInitialize(s, e) && !OpensSecondStream(s, e)
    ensures AllFit(Cause(s, e), Step(s, e))
  {
    match e
    case DescribeRequest(id) => DescribeFits(s, id);
    case AddReaderRequest(id, reader) => AddReaderFits(s, id, reader);
    case AddPublisherRequest(_, _, _) => AddPublisherFits(s, e);
    case SourceSetReady(_) => SourceFits(s, e);
    case SourceSetNotReady => SourceFits(s, e);
    case RemovePublisher(_) => RemoveFits(s, e);
    case RemoveReader(_) => RemoveFits(s, e);
    case ReloadConf(_) =>
    case Terminate => LeaveFits(Cause(s, e), s);
    case _ => TimersFit(s, e);
  }

  // whole runs

  /** The i-th action of a run belongs to what the path did in response to the n-th event. */
  predicate BelongsTo(s: State, events: seq<Event>, n: nat, i: nat)
    requires n < |events|
  {
    |Run(s, events[..n]).trace| <= i < |Run(s, events[..n + 1]).trace|
  }

  predicate AnswerFits(s: State, events: seq<Event>, n: nat, i: nat)
    requires n < |events| && i < |Run(s, events).trace|
  {
    var a := Run(s, events).trace[i];
    BelongsTo(s, events, n, i) && (a.Replied? ==> Fits(Run(s, events[..n]), events[n], a.request, a.reply))
  }

  lemma {:induction false} RunOfFirst(s: State, events: seq<Event>, n: nat)
    requires n < |events|
    ensures Run(s, events[..n + 1]) == Run(Step(s, events[0]), events[1..][..n])
  {
    assert events[..n + 1][1..] == events[1..][..n];
  }

  lemma {:induction false} FitsLater(s: State, events: seq<Event>, n: nat, i: nat)
    requires n + 1 < |events| && i < |Run(s, events).trace| && AnswerFits(Step(s, events[0]), events[1..], n, i)
    ensures AnswerFits(s, events, n + 1, i)
  {
    RunOfFirst(s, events, n);
    RunOfFirst(s, events, n + 1);
  }

  lemma {:induction false} FitsNow(s: State, events: seq<Event>, i: nat)
    requires events != [] && |s.trace| <= i < |Step(s, events[0]).trace| &&
             AllFit(Cause(s, events[0]), Step(s, events[0]))
    requires i < |Run(s, events).trace| && Step(s, events[0]).trace <= Run(s, events).trace
    ensures AnswerFits(s, events, 0, i)
  {
    RunOfFirst(s, events, 0);
    assert events[..0] == [];
  }

  lemma {:induction false} RunFits(s: State, events: seq<Event>, i: nat)
    requires Safe(s) && Possible(s, events) && Clean(s, events) && |s.trace| <= i < |Run(s, events).trace|
    ensures exists n: nat :: n < |events| && AnswerFits(s, events, n, i)
    decreases |events|
  {
    var t := Step(s, events[0]);
    StepFits(s, events[0]);
    StepSeen(s, events[0]);
    RunKeepsTrace(t, events[1..]);
    if i < |t.trace| {
      FitsNow(s, events, i);
    } else {
      RunFits(t, events[1..], i);
      var n: nat :| n < |events[1..]| && AnswerFits(t, events[1..], n, i);
      FitsLater(s, events, n, i);
    }
  }

  lemma {:induction false} RunKeepsTrace(s: State, events: seq<Event>)
    requires Safe(s) && Possible(s, events) && Clean(s, events)
    ensures s.trace <= Run(s, events).trace
    decreases |events|
  {
    if events != [] {
      StepFits(s, events[0]);
      StepSeen(s, events[0]);
      RunKeepsTrace(Step(s, events[0]), events[1..]);
    }
  }

  lemma {:induction false} CreateIsQuiet(conf: Conf)
    ensures forall i :: 0 <= i < |Create(conf).trace| ==> Create(conf).trace[i] == SourceStarted
  {
  }

  /** Over every run every answer fits the event in response to which it is given. */
  lemma {:induction false} EveryAnswerFits(conf: Conf, events: seq<Event>, i: nat)
    requires conf.Valid() && Possible(Create(conf), events) && Clean(Create(conf), events)
    requires i < |Run(Create(conf), events).trace| && Run(Create(conf), events).trace[i].Replied?
    ensures exists n: nat :: n < |events| && AnswerFits(Create(conf), events, n, i)
  {
    CreateSeen(conf);
    CreateIsQuiet(conf);
    RunKeepsTrace(Create(conf), events);
    RunFits(Create(conf), events, i);
  }
}
