/** Where the path does not meet its invariants, and exactly when. */
module PathFailures {
  import opened Options
  import opened Config
  import opened PathModel
  import opened PathSafety
  import opened PathRuns

  // an observer is deterministic, and what it has rejected stays rejected

  /** The observer rejects none of the actions, whatever it thinks of the path in the end. */
  ghost predicate IsAccepted(maxReaders: nat, trace: seq<Action>) {
    exists run :: Follows(maxReaders, trace, run)
  }

  lemma {:induction false} SafeIsAccepted(s: State)
    requires Safe(s)
    ensures IsAccepted(s.conf.fixed.maxReaders, s.trace)
  {
    var o := if Good(s) then View(s) else GONE;
    var run :| Follows(s.conf.fixed.maxReaders, s.trace, run) && run[|s.trace|] == o;
  }

  lemma {:induction false} PrefixIsAccepted(maxReaders: nat, trace: seq<Action>, longer: seq<Action>)
    requires trace <= longer && IsAccepted(maxReaders, longer)
    ensures IsAccepted(maxReaders, trace)
  {
    var run :| Follows(maxReaders, longer, run);
    FollowsPrefix(maxReaders, longer, run, |trace|);
    assert longer[..|trace|] == trace;
  }

  lemma {:induction false} FollowsIsUnique(
    maxReaders: nat, trace: seq<Action>, run: seq<Observer>, other: seq<Observer>, n: nat)
    requires Follows(maxReaders, trace, run) && Follows(maxReaders, trace, other) && n <= |trace|
    ensures run[n] == other[n]
  {
    if n > 0 {
      FollowsIsUnique(maxReaders, trace, run, other, n - 1);
      assert Observes(maxReaders, trace, run, n - 1) && Observes(maxReaders, trace, other, n - 1);
    }
  }

  /** An observer that has seen one trace accepts a longer one only if it allows the next action. */
  lemma {:induction false} NextIsAllowed(maxReaders: nat, trace: seq<Action>, run: seq<Observer>, longer: seq<Action>)
    requires Follows(maxReaders, trace, run) && trace < longer && IsAccepted(maxReaders, longer)
    ensures Allowed(run[|trace|], maxReaders, longer[|trace|])
  {
    var n := |trace|;
    var other :| Follows(maxReaders, longer, other);
    FollowsPrefix(maxReaders, longer, other, n);
    assert longer[..n] == trace;
    FollowsIsUnique(maxReaders, trace, run, other[..n + 1], n);
    assert Observes(maxReaders, longer, other, n);
  }

  lemma {:induction false} AcceptedStreamsAreOpened(maxReaders: nat, trace: seq<Action>, run: seq<Observer>, i: nat)
    requires Follows(maxReaders, trace, run) && i < |trace|
    ensures !trace[i].StreamNotOpened?
  {
    assert Observes(maxReaders, trace, run, i);
  }

  lemma {:induction false} FailedStreamIsRejected(maxReaders: nat, trace: seq<Action>, i: nat)
    requires i < |trace| && trace[i].StreamNotOpened?
    ensures !IsAccepted(maxReaders, trace)
  {
    if IsAccepted(maxReaders, trace) {
      var run :| Follows(maxReaders, trace, run);
      AcceptedStreamsAreOpened(maxReaders, trace, run, i);
    }
  }

  // nothing takes back what has been done

  predicate Extends(s: State, t: State) {
    s.trace <= t.trace && t.conf.fixed == s.conf.fixed
  }

  lemma {:induction false} ExtendsTransitive(s: State, t: State, u: State)
    requires Extends(s, t) && Extends(t, u)
    ensures Extends(s, u)
  {
  }

  lemma {:induction false} EmitExtends(s: State, t: State, a: Action)
    requires Extends(s, t)
    ensures Extends(s, Emit(t, a))
  {
  }

  lemma {:induction false} ReplyAllExtends(s: State, qs: seq<Request>, reply: Reply)
    ensures Extends(s, ReplyAll(s, qs, reply))
    decreases |qs|
  {
    if qs != [] {
      ReplyAllExtends(Emit(s, Replied(qs[0], reply)), qs[1..], reply);
    }
  }

  lemma {:induction false} AddReadersPostExtends(s: State, qs: seq<ReaderRequest>)
    ensures Extends(s, AddReadersPost(s, qs))
    decreases |qs|
  {
    if qs != [] {
      AddReadersPostExtends(AddReaderPost(s, qs[0]), qs[1..]);
    }
  }

  lemma {:induction false} ConsumeOnHoldExtends(s: State)
    ensures Extends(s, ConsumeOnHold(s))
  {
    ReplyAllExtends(s, s.describesOnHold, StreamReply(s));
    AddReadersPostExtends(ReplyAll(s, s.describesOnHold, StreamReply(s)).(describesOnHold := []), s.readersOnHold);
  }

  lemma {:induction false} FlushOnHoldExtends(s: State, reply: Reply)
    ensures Extends(s, FlushOnHold(s, reply))
  {
    ReplyAllExtends(s, s.describesOnHold, reply);
    ReplyAllExtends(ReplyAll(s, s.describesOnHold, reply).(describesOnHold := []), s.readersOnHold, reply);
  }

  lemma {:induction false} SetNotReadyExtends(s: State)
    ensures Extends(s, SetNotReady(s))
  {
  }

  lemma {:induction false} SetReadyExtends(s: State, initializes: bool)
    ensures Extends(Emit(s, if initializes then StreamOpened(s.nextStream) else StreamNotOpened(s.nextStream)),
                    SetReady(s, initializes))
  {
  }

  lemma {:induction false} ReleaseSourceExtends(s: State)
    ensures Extends(s, ReleaseSource(s))
  {
  }

  lemma {:induction false} UndoExtends(s: State)
    ensures Extends(s, Undo(s))
  {
    var y := if s.stream.Some? then SetNotReady(s) else s;
    SetNotReadyExtends(s);
    var t := ReleaseSource(y);
    ReleaseSourceExtends(y);
    ExtendsTransitive(s, y, t);
    var u := if t.unDemandHook then Emit(t, OnUnDemandHook) else t;
    EmitExtends(s, t, OnUnDemandHook);
    EmitExtends(s, u.(finished := true), Destroyed);
  }

  lemma {:induction false} LeaveExtends(s: State)
    ensures Extends(s, Leave(s))
  {
    var t := Emit(s, NotifiedClosed);
    var u := t.(sourceDemand := t.sourceDemand.(readyTimer := false, closeTimer := false),
                publisherDemand := t.publisherDemand.(readyTimer := false, closeTimer := false));
    var v := ReplyAll(u, u.describesOnHold, Refused(Terminated));
    ReplyAllExtends(u, u.describesOnHold, Refused(Terminated));
    ReplyAllExtends(v, v.readersOnHold, Refused(Terminated));
    UndoExtends(ReplyAll(v, v.readersOnHold, Refused(Terminated)));
  }

  lemma {:induction false} LeaveIfUnusedExtends(s: State)
    ensures Extends(s, LeaveIfUnused(s))
  {
    LeaveExtends(s);
  }

  lemma {:induction false} SourceSetReadyExtends(s: State, initializes: bool)
    ensures Extends(Emit(s, if initializes then StreamOpened(s.nextStream) else StreamNotOpened(s.nextStream)),
                    DoSourceSetReady(s, initializes))
  {
    SetReadyExtends(s, initializes);
    var t := SetReady(s, initializes);
    ConsumeOnHoldExtends(if t.conf.HasOnDemandStaticSource()
                         then StaticScheduleClose(t.(sourceDemand := t.sourceDemand.(readyTimer := false)))
                         else t);
  }

  lemma {:induction false} AcceptPublisherExtends(s: State, request: Request, initializes: bool)
    requires request.AddPublisher?
    ensures Extends(s, AcceptPublisher(s, request, initializes))
  {
    var r := s.(source := Publisher(request.publisher));
    var t := SetReady(r, initializes);
    SetReadyExtends(r, initializes);
    if initializes {
      var u := if t.conf.HasOnDemandPublisher() && t.publisherDemand.state != Initial
               then PublisherScheduleClose(t.(publisherDemand := t.publisherDemand.(readyTimer := false)))
               else t;
      assert Extends(s, u);
      ConsumeOnHoldExtends(u);
      ExtendsTransitive(s, u, ConsumeOnHold(u));
      EmitExtends(s, ConsumeOnHold(u), Replied(request, StreamReply(ConsumeOnHold(u))));
    } else {
      EmitExtends(s, t.(source := NoSource), Replied(request, Refused(InitializeFailed)));
    }
  }

  lemma {:induction false} OverridePublisherExtends(s: State)
    ensures Extends(s, OverridePublisher(s))
  {
    if s.source.Publisher? {
      SetNotReadyExtends(Emit(s, PublisherClosed(s.source.id)));
    }
  }

  lemma {:induction false} AddPublisherExtends(s: State, id: nat, author: nat, initializes: bool)
    ensures Extends(s, DoAddPublisher(s, id, author, initializes))
  {
    var t, q := OverridePublisher(s), AddPublisher(id, author);
    OverridePublisherExtends(s);
    AcceptPublisherExtends(t, q, initializes);
    ExtendsTransitive(s, t, AcceptPublisher(t, q, initializes));
  }

  lemma {:induction false} TimerExtends(s: State, e: Event)
    requires e.StaticReadyTimer? || e.StaticCloseTimer? || e.PublisherReadyTimer? || e.PublisherCloseTimer?
    ensures Extends(s, Step(s, e))
  {
    var t := Fire(s, e);
    FlushOnHoldExtends(t, Refused(TimedOut));
    SetNotReadyExtends(t);
    match e
    case StaticReadyTimer => LeaveIfUnusedExtends(DoStaticReadyTimer(t));
    case StaticCloseTimer => LeaveIfUnusedExtends(DoStaticCloseTimer(t));
    case PublisherReadyTimer => LeaveIfUnusedExtends(DoPublisherReadyTimer(t));
    case PublisherCloseTimer =>
  }

  lemma {:induction false} DemandExtends(s: State)
    ensures Extends(s, DemandStatic(s)) && Extends(s, DemandPublisher(s))
  {
  }

  lemma {:induction false} DoDescribeExtends(s: State, id: nat)
    ensures Extends(s, DoDescribe(s, id))
  {
    var q := Describe(id);
    if !s.source.Redirect? && s.stream.None? && (s.conf.HasOnDemandStaticSource() || s.conf.HasOnDemandPublisher()) {
      DemandExtends(s);
    } else if s.source.Redirect? {
      EmitExtends(s, s, Replied(q, Redirected(s.conf.fixed.sourceRedirect)));
    } else if s.stream.Some? {
      EmitExtends(s, s, Replied(q, StreamReply(s)));
    } else if s.conf.fixed.fallback != "" {
      EmitExtends(s, s, Replied(q, Redirected(s.conf.fixed.fallback)));
    } else {
      EmitExtends(s, s, Replied(q, Refused(NoStreamAvailable)));
    }
  }

  lemma {:induction false} DoAddReaderExtends(s: State, id: nat, reader: nat)
    ensures Extends(s, DoAddReader(s, id, reader))
  {
    DemandExtends(s);
    AddReadersPostExtends(s, [AddReader(id, reader)]);
    assert AddReadersPost(s, [AddReader(id, reader)]) == AddReaderPost(s, AddReader(id, reader));
  }

  lemma {:induction false} UnlessUnusedExtends(s: State, t: State)
    requires Extends(s, t)
    ensures Extends(s, LeaveIfUnused(t))
  {
    LeaveIfUnusedExtends(t);
    ExtendsTransitive(s, t, LeaveIfUnused(t));
  }

  lemma {:induction false} ReceivedExtends(s: State, q: Request, t: State)
    requires Extends(Emit(s, Received(q)), t)
    ensures Extends(s, t)
  {
    ExtendsTransitive(s, Emit(s, Received(q)), t);
  }

  lemma {:induction false} RemovalExtends(s: State, e: Event)
    requires e.SourceSetNotReady? || e.RemovePublisher? || e.RemoveReader?
    ensures Extends(s, Step(s, e))
  {
    match e
    case SourceSetNotReady =>
      SetNotReadyExtends(s);
      LeaveIfUnusedExtends(DoSourceSetNotReady(s));
    case RemovePublisher(p) =>
      SetNotReadyExtends(Emit(s, PublisherLeft(p)));
      LeaveIfUnusedExtends(DoRemovePublisher(s, p));
    case RemoveReader(_) =>
  }

  /** From any state whatever, a step only adds actions and keeps the fixed configuration. */
  lemma {:induction false} StepExtends(s: State, e: Event)
    requires Enabled(s, e)
    ensures Extends(s, Step(s, e))
  {
    match e
    case ReloadConf(newConf) => assert newConf.fixed == s.conf.fixed;
    case SourceSetReady(initializes) => SourceSetReadyExtends(s, initializes);
    case Terminate => LeaveExtends(s);
    case DescribeRequest(id) =>
      var t := Emit(s, Received(Describe(id)));
      DoDescribeExtends(t, id);
      ReceivedExtends(s, Describe(id), DoDescribe(t, id));
      UnlessUnusedExtends(s, DoDescribe(t, id));
    case AddReaderRequest(id, r) =>
      var t := Emit(s, Received(AddReader(id, r)));
      DoAddReaderExtends(t, id, r);
      ReceivedExtends(s, AddReader(id, r), DoAddReader(t, id, r));
      UnlessUnusedExtends(s, DoAddReader(t, id, r));
    case AddPublisherRequest(id, p, initializes) =>
      var t := Emit(s, Received(AddPublisher(id, p)));
      AddPublisherExtends(t, id, p, initializes);
      ReceivedExtends(s, AddPublisher(id, p), DoAddPublisher(t, id, p, initializes));
    case SourceSetNotReady => RemovalExtends(s, e);
    case RemovePublisher(_) => RemovalExtends(s, e);
    case RemoveReader(_) => RemovalExtends(s, e);
    case _ => TimerExtends(s, e);
  }

  lemma {:induction false} RejectedStaysRejected(s: State, events: seq<Event>)
    requires Possible(s, events) && !IsAccepted(s.conf.fixed.maxReaders, s.trace)
    ensures !Safe(Run(s, events))
    decreases |events|
  {
    if events == [] {
      if Safe(s) {
        SafeIsAccepted(s);
      }
    } else {
      var t := Step(s, events[0]);
      StepExtends(s, events[0]);
      if IsAccepted(t.conf.fixed.maxReaders, t.trace) {
        PrefixIsAccepted(t.conf.fixed.maxReaders, s.trace, t.trace);
      }
      RejectedStaysRejected(t, events[1..]);
    }
  }

  // the exact condition

  lemma {:induction false} FailureIsRejected(s: State, e: Event)
    requires Enabled(s, e) && FailsToInitialize(s, e)
    ensures !IsAccepted(s.conf.fixed.maxReaders, Step(s, e).trace)
  {
    if e.SourceSetReady? {
      FailedStreamIsRejected(s.conf.fixed.maxReaders, Step(s, e).trace, |s.trace|);
    } else {
      var t := OverridePublisher(Emit(s, Received(AddPublisher(e.id, e.publisher))));
      FailedStreamIsRejected(s.conf.fixed.maxReaders, Step(s, e).trace, |t.trace|);
    }
  }

  lemma {:induction false} SecondStreamIsRejected(s: State, e: Event)
    requires Good(s) && Enabled(s, e) && OpensSecondStream(s, e)
    ensures !IsAccepted(s.conf.fixed.maxReaders, Step(s, e).trace)
  {
    var maxReaders, t := s.conf.fixed.maxReaders, Step(s, e);
    SourceSetReadyExtends(s, e.initializes);
    if IsAccepted(maxReaders, t.trace) {
      var run :| Follows(maxReaders, s.trace, run) && run[|s.trace|] == View(s);
      NextIsAllowed(maxReaders, s.trace, run, t.trace);
    }
  }

  /** One iteration keeps the path safe if and only if it neither opens a stream that fails to
      initialize, which the path stores first and leaves in place, nor a stream on top of another. */
  lemma {:induction false} StepIsSafeIff(s: State, e: Event)
    requires Good(s) && Enabled(s, e)
    ensures Safe(Step(s, e)) <==> !FailsToInitialize(s, e) && !OpensSecondStream(s, e)
  {
    StepExtends(s, e);
    if FailsToInitialize(s, e) {
      FailureIsRejected(s, e);
    } else if OpensSecondStream(s, e) {
      SecondStreamIsRejected(s, e);
    } else {
      StepSeen(s, e);
    }
    if Safe(Step(s, e)) {
      SafeIsAccepted(Step(s, e));
    }
  }

  lemma {:induction false} RunFromIsSafeIff(s: State, events: seq<Event>)
    requires Safe(s) && Possible(s, events)
    ensures Safe(Run(s, events)) <==> Clean(s, events)
    decreases |events|
  {
    if events != [] {
      var e, t := events[0], Step(s, events[0]);
      StepExtends(s, e);
      if FailsToInitialize(s, e) {
        FailureIsRejected(s, e);
        RejectedStaysRejected(t, events[1..]);
      } else if OpensSecondStream(s, e) {
        SecondStreamIsRejected(s, e);
        RejectedStaysRejected(t, events[1..]);
      } else {
        StepSeen(s, e);
        RunFromIsSafeIff(t, events[1..]);
      }
    }
  }

  /** A run is safe if and only if every stream that is opened can be initialized and meets a path
      without stream. */
  lemma {:induction false} RunIsSafeIff(conf: Conf, events: seq<Event>)
    requires conf.Valid() && Possible(Create(conf), events)
    ensures Safe(Run(Create(conf), events)) <==> Clean(Create(conf), events)
  {
    CreateSeen(conf);
    RunFromIsSafeIff(Create(conf), events);
  }

  /** A path that pulls from a static source all the time and records what it gets. */
  predicate IsPullConf(conf: Conf) {
    conf.Valid() && conf.regexp.None? && conf.fixed.source == FromStatic && !conf.fixed.sourceOnDemand &&
      conf.hot.record
  }

  /** Such a path, without readers, after the source has brought so many streams. */
  function Pulling(conf: Conf, streams: nat, trace: seq<Action>): State {
    State(conf, Static, if streams == 0 then None else Some(streams - 1), streams,
          if streams == 0 then None else Some(conf.hot.settings),
          false, {}, [], [], IDLE, IDLE, true, false, trace)
  }

  lemma {:induction false} PulledStep(s: State, streams: nat)
    requires IsPullConf(s.conf) && s == Pulling(s.conf, streams, s.trace)
    ensures Step(s, SourceSetReady(true)) ==
            Pulling(s.conf, streams + 1,
                    s.trace + [StreamOpened(streams), RecorderStarted(s.conf.hot.settings), OnReadyHook, NotifiedReady])
  {
    assert ReplyAll(s, [], StreamReply(s)) == s && AddReadersPost(s, []) == s;
  }

  lemma {:induction false} PulledUndo(s: State)
    requires IsPullConf(s.conf) && s == Pulling(s.conf, 2, s.trace)
    ensures Step(s, Terminate).trace ==
            s.trace + [NotifiedClosed, NotifiedNotReady, ReadersClosed({}), OnNotReadyHook, RecorderClosed,
                       StreamClosed(1), SourceStopped, Destroyed]
  {
    var u := Emit(s, NotifiedClosed);
    assert ReplyAll(u, [], Refused(Terminated)) == u;
  }

  /** A source that brings a second stream makes the path forget the first one with its recorder and
      hook: stream 0 is never closed, and two recorders, two hooks and two announcements of the path get
      one end between them. */
  lemma {:induction false} SecondStreamExample(conf: Conf)
    requires IsPullConf(conf)
    ensures var events := [SourceSetReady(true), SourceSetReady(true), Terminate];
            && Possible(Create(conf), events)
            && Run(Create(conf), events).trace ==
               [SourceStarted, StreamOpened(0), RecorderStarted(conf.hot.settings), OnReadyHook, NotifiedReady,
                StreamOpened(1), RecorderStarted(conf.hot.settings), OnReadyHook, NotifiedReady,
                NotifiedClosed, NotifiedNotReady, ReadersClosed({}), OnNotReadyHook, RecorderClosed,
                StreamClosed(1), SourceStopped, Destroyed]
  {
    var s := Create(conf);
    assert s == Pulling(conf, 0, [SourceStarted]);
    var t := Step(s, SourceSetReady(true));
    PulledStep(s, 0);
    var u := Step(t, SourceSetReady(true));
    PulledStep(t, 1);
    PulledUndo(u);
    ThreeSteps(s, SourceSetReady(true), SourceSetReady(true), Terminate);
  }

  /** A path on which anybody can publish, with or without an on-demand command. */
  predicate IsPublisherConf(conf: Conf, runOnDemand: bool) {
    conf.Valid() && conf.regexp.None? && conf.fixed.source == FromPublisher && conf.fixed.runOnDemand == runOnDemand
  }

  /** A path without source and readers, in which only these fields differ from example to example. */
  function Plain(
    conf: Conf, stream: Option<nat>, nextStream: nat, held: seq<Request>, d: Demand, hook: bool,
    trace: seq<Action>): State
  {
    State(conf, NoSource, stream, nextStream, None, hook, {}, held, [], IDLE, d, false, false, trace)
  }

  lemma {:induction false} StaleStreamIsStored(conf: Conf, id: nat, p: nat)
    requires IsPublisherConf(conf, false)
    ensures var q := AddPublisher(id, p);
            Step(Create(conf), AddPublisherRequest(id, p, false)) ==
            Plain(conf, Some(0), 1, [], IDLE, false,
                  [Received(q), StreamNotOpened(0), Replied(q, Refused(InitializeFailed))])
  {
  }

  lemma {:induction false} StaleStreamIsHandedOut(s: State, id: nat)
    requires IsPublisherConf(s.conf, false) && s == Plain(s.conf, Some(0), 1, [], IDLE, false, s.trace)
    ensures Step(s, DescribeRequest(id)) ==
            s.(trace := s.trace + [Received(Describe(id)), Replied(Describe(id), GotStream(0))])
  {
  }

  lemma {:induction false} StaleStreamIsUndone(s: State)
    requires IsPublisherConf(s.conf, false) && s == Plain(s.conf, Some(0), 1, [], IDLE, false, s.trace)
    ensures Step(s, Terminate).trace ==
            s.trace + [NotifiedClosed, NotifiedNotReady, ReadersClosed({}), OnNotReadyHook, StreamClosed(0), Destroyed]
  {
  }

  lemma {:induction false} ThreeSteps(s: State, a: Event, b: Event, c: Event)
    ensures Run(s, [a, b, c]) == Step(Step(Step(s, a), b), c)
    ensures Possible(s, [a, b, c]) <==>
            Enabled(s, a) && Enabled(Step(s, a), b) && Enabled(Step(Step(s, a), b), c)
  {
    assert [a, b, c][1..] == [b, c] && [b, c][1..] == [c] && [c][1..] == [];
    var t := Step(s, a);
    var u := Step(t, b);
    assert Run(s, [a, b, c]) == Run(t, [b, c]) == Run(u, [c]) == Run(Step(u, c), []);
    assert Possible(u, [c]) == Enabled(u, c);
    assert Possible(t, [b, c]) == (Enabled(t, b) && Possible(u, [c]));
  }

  lemma {:induction false} StaleStreamTrace(conf: Conf, id: nat, p: nat, later: nat)
    requires IsPublisherConf(conf, false)
    ensures var events := [AddPublisherRequest(id, p, false), DescribeRequest(later), Terminate];
            && Possible(Create(conf), events)
            && Run(Create(conf), events).trace ==
               [Received(AddPublisher(id, p)), StreamNotOpened(0),
                Replied(AddPublisher(id, p), Refused(InitializeFailed)),
                Received(Describe(later)), Replied(Describe(later), GotStream(0)),
                NotifiedClosed, NotifiedNotReady, ReadersClosed({}), OnNotReadyHook, StreamClosed(0), Destroyed]
  {
    var s := Create(conf);
    var t := Step(s, AddPublisherRequest(id, p, false));
    var u := Step(t, DescribeRequest(later));
    StaleStreamIsStored(conf, id, p);
    StaleStreamIsHandedOut(t, later);
    StaleStreamIsUndone(u);
    ThreeSteps(s, AddPublisherRequest(id, p, false), DescribeRequest(later), Terminate);
  }

  /** A publisher whose stream cannot be initialized leaves behind a stream that was never opened. A
      later request is answered with it and, when the path is destroyed, the not-ready hook is called
      although the ready hook, which would have created it, has not been run. */
  lemma {:induction false} StaleStreamExample(conf: Conf, id: nat, p: nat, later: nat)
    requires IsPublisherConf(conf, false)
    ensures var events := [AddPublisherRequest(id, p, false), DescribeRequest(later), Terminate];
            var trace := Run(Create(conf), events).trace;
            && Possible(Create(conf), events)
            && Replied(Describe(later), GotStream(0)) in trace && StreamOpened(0) !in trace
            && OnNotReadyHook in trace && OnReadyHook !in trace
  {
    StaleStreamTrace(conf, id, p, later);
  }

  /** Every request on hold can still time out. */
  predicate OnHoldIsTimed(s: State) {
    !NothingOnHold(s) ==> s.sourceDemand.readyTimer || s.publisherDemand.readyTimer
  }

  /** A request that finds no stream on a path whose publisher was demanded, came and left again. */
  predicate FindsPublisherGone(s: State, e: Event) {
    && (e.DescribeRequest? || e.AddReaderRequest?)
    && s.conf.HasOnDemandPublisher() && s.stream.None?
    && (s.publisherDemand.state == Ready || s.publisherDemand.state == Closing)
  }

  /** Requests on hold stay timed, except when a request finds that the demanded publisher is gone. */
  lemma {:induction false} OnHoldIsTimedIff(s: State, e: Event)
    requires Invariant(s) && OnHoldIsTimed(s) && Enabled(s, e)
    ensures Step(s, e).finished || (OnHoldIsTimed(Step(s, e)) <==> !FindsPublisherGone(s, e))
  {
    match e
    case StaticReadyTimer => FlushOnHoldFrame(Fire(s, e), Refused(TimedOut));
    case PublisherReadyTimer => FlushOnHoldFrame(Fire(s, e), Refused(TimedOut));
    case StaticCloseTimer => SetNotReadyFrame(Fire(s, e));
    case PublisherCloseTimer =>
    case ReloadConf(newConf) => ReloadConfFrame(s, newConf);
    case SourceSetReady(initializes) => SourceSetReadyEmptiesQueues(s, initializes);
    case SourceSetNotReady => SetNotReadyFrame(s);
    case DescribeRequest(id) =>
    case AddPublisherRequest(id, p, _) => AddPublisherEmptiesQueues(s, e);
    case RemovePublisher(p) => SetNotReadyFrame(Emit(s, PublisherLeft(p)));
    case AddReaderRequest(id, r) => AddReaderPostFrame(Emit(s, Received(AddReader(id, r))), AddReader(id, r));
    case RemoveReader(r) =>
    case Terminate =>
  }

  lemma {:induction false} SourceSetReadyEmptiesQueues(s: State, initializes: bool)
    requires Invariant(s) && s.running
    ensures var t := DoSourceSetReady(s, initializes);
            if initializes then NothingOnHold(t) else SameQueues(s, t) && SameDemands(s, t)
  {
    if initializes && s.stream.None? {
      SourceSetReadyKeeps(s);
    }
  }

  lemma {:induction false} AddPublisherEmptiesQueues(s: State, e: Event)
    requires Invariant(s) && e.AddPublisherRequest?
    ensures if CanPublish(s) && e.initializes then NothingOnHold(Step(s, e))
            else SameQueues(s, Step(s, e)) && SameDemands(s, Step(s, e))
  {
    var t := Emit(s, Received(AddPublisher(e.id, e.publisher)));
    if CanPublish(s) {
      if t.source.Publisher? {
        ExecuteRemovePublisherKeeps(Emit(t, PublisherClosed(t.source.id)));
        SetNotReadyFrame(Emit(t, PublisherClosed(t.source.id)));
      }
      var r := OverridePublisher(t);
      assert Invariant(r) && SameQueues(s, r) && SameDemands(s, r);
      AcceptEmptiesQueues(r, e);
    }
  }

  lemma {:induction false} AcceptEmptiesQueues(r: State, e: Event)
    requires Invariant(r) && r.source == NoSource && r.conf.fixed.source == FromPublisher && e.AddPublisherRequest?
    ensures var t := AcceptPublisher(r, AddPublisher(e.id, e.publisher), e.initializes);
            if e.initializes then NothingOnHold(t) else SameQueues(r, t) && SameDemands(r, t)
  {
    if e.initializes {
      PublishingFrame(r, e.publisher);
      ConsumeOnHoldKeeps(Publishing(r, e.publisher));
    }
  }

  /** A demanded publisher has come and gone, and the close timer is still armed. */
  predicate IsAbandoned(s: State) {
    IsPublisherConf(s.conf, true) &&
      s == Plain(s.conf, None, s.nextStream, [], Demand(Closing, false, true), true, s.trace)
  }

  lemma {:induction false} DemandedStep(conf: Conf, id: nat)
    requires IsPublisherConf(conf, true)
    ensures var t := Step(Create(conf), DescribeRequest(id));
            t == Plain(conf, None, 0, [Describe(id)], Demand(WaitingReady, true, false), true, t.trace)
  {
  }

  lemma {:induction false} PublishedStep(s: State, id: nat, held: nat, p: nat)
    requires IsPublisherConf(s.conf, true)
    requires s == Plain(s.conf, None, 0, [Describe(held)], Demand(WaitingReady, true, false), true, s.trace)
    ensures var t := Step(s, AddPublisherRequest(id, p, true));
            t == Plain(s.conf, Some(0), 1, [], Demand(Closing, false, true), true, t.trace).(source := Publisher(p),
                recorder := t.recorder)
  {
    var u := Publishing(Emit(s, Received(AddPublisher(id, p))), p);
    assert u.describesOnHold == [Describe(held)] && u.readersOnHold == [];
    ReplyAllFrame(u, u.describesOnHold, StreamReply(u));
  }

  lemma {:induction false} UnpublishedStep(s: State, p: nat)
    requires IsPublisherConf(s.conf, true)
    requires s == Plain(s.conf, Some(0), 1, [], Demand(Closing, false, true), true, s.trace).(source := Publisher(p),
        recorder := s.recorder)
    ensures IsAbandoned(Step(s, RemovePublisher(p)))
  {
  }

  /** Any on-demand publisher path can be abandoned. */
  lemma {:induction false} AbandonedIsReachable(conf: Conf, first: nat, id: nat, p: nat)
    requires IsPublisherConf(conf, true)
    ensures var events := [DescribeRequest(first), AddPublisherRequest(id, p, true), RemovePublisher(p)];
            Possible(Create(conf), events) && IsAbandoned(Run(Create(conf), events))
  {
    var s := Create(conf);
    var t := Step(s, DescribeRequest(first));
    DemandedStep(conf, first);
    PublishedStep(t, id, first, p);
    UnpublishedStep(Step(t, AddPublisherRequest(id, p, true)), p);
    ThreeSteps(s, DescribeRequest(first), AddPublisherRequest(id, p, true), RemovePublisher(p));
  }

  /** On an abandoned path a request can stay on hold although no timer is armed any more and no
      on-demand command is running. */
  lemma {:induction false} HeldForeverExample(s: State, id: nat)
    requires IsAbandoned(s)
    ensures var t := Step(s, DescribeRequest(id));
            var u := Step(t, PublisherCloseTimer);
            && Enabled(s, DescribeRequest(id)) && Enabled(t, PublisherCloseTimer)
            && u.describesOnHold == [Describe(id)] && !u.finished
            && u.sourceDemand == IDLE && u.publisherDemand == IDLE && !u.unDemandHook
  {
    var t := Step(s, DescribeRequest(id));
    assert t == Plain(s.conf, None, s.nextStream, [Describe(id)], Demand(Closing, false, true), true, t.trace);
  }
}
