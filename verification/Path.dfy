/** The path as an object whose event handlers update its fields. Every method is proved to do what
    the corresponding function of PathModel does to the whole state, and every event handler to keep the
    path good: the state invariants hold and the observer of PathSafety has accepted everything. The
    event loop keeps the path safe if and only if its events are clean. */
module PathObject {
  import opened Options
  import opened Config
  import M = PathModel
  import S = PathSafety
  import R = PathRuns
  import F = PathFailures

  /** A path that is good but for a request that it has received and not yet dealt with. */
  ghost predicate Asked(s: M.State, q: M.Request) {
    S.Invariant(s) && S.Seen(s, S.WithPending(S.View(s), q))
  }

  class Path {
    var conf: Conf
    var source: M.Source
    var stream: Option<nat>
    var nextStream: nat
    var recorder: Option<RecordSettings>
    var unDemandHook: bool
    var readers: set<nat>
    var describesOnHold: seq<M.Request>
    var readersOnHold: seq<M.ReaderRequest>
    var sourceDemand: M.Demand
    var publisherDemand: M.Demand
    var running: bool
    var finished: bool
    var trace: seq<M.Action>

    function View(): M.State
      reads this
    {
      M.State(conf, source, stream, nextStream, recorder, unDemandHook, readers, describesOnHold, readersOnHold,
              sourceDemand, publisherDemand, running, finished, trace)
    }

    constructor (conf: Conf)
      ensures View() == M.Create(conf)
      ensures conf.Valid() ==> S.Good(View())
    {
      this.conf := conf;
      source, stream, nextStream, recorder := M.NoSource, None, 0, None;
      unDemandHook, readers, describesOnHold, readersOnHold := false, {}, [], [];
      sourceDemand, publisherDemand := M.IDLE, M.IDLE;
      running, finished, trace := false, false, [];
      new;
      if conf.fixed.source == FromRedirect {
        source := M.Redirect;
      } else if conf.HasStaticSource() {
        source := M.Static;
        if !conf.fixed.sourceOnDemand {
          StartSource();
        }
      }
      if conf.Valid() {
        R.CreateSeen(conf);
      }
    }

    method Emit(a: M.Action)
      modifies this`trace
      ensures View() == M.Emit(old(View()), a)
    {
      trace := trace + [a];
    }

    method StartSource()
      modifies this`running, this`trace
      ensures View() == M.StartSource(old(View()))
    {
      running := true;
      Emit(M.SourceStarted);
    }

    method StopSource()
      modifies this`running, this`trace
      ensures View() == M.StopSource(old(View()))
    {
      running := false;
      Emit(M.SourceStopped);
    }

    method StaticStart()
      modifies this
      ensures View() == M.StaticStart(old(View()))
    {
      StartSource();
      sourceDemand := sourceDemand.(readyTimer := true);
      sourceDemand := sourceDemand.(state := M.WaitingReady);
    }

    method StaticScheduleClose()
      modifies this`sourceDemand
      ensures View() == M.StaticScheduleClose(old(View()))
    {
      sourceDemand := sourceDemand.(closeTimer := true);
      sourceDemand := sourceDemand.(state := M.Closing);
    }

    method StaticStop()
      modifies this
      ensures View() == M.StaticStop(old(View()))
    {
      if sourceDemand.state == M.Closing {
        sourceDemand := sourceDemand.(closeTimer := false);
      }
      sourceDemand := sourceDemand.(state := M.Initial);
      StopSource();
    }

    method PublisherStart()
      modifies this
      ensures View() == M.PublisherStart(old(View()))
    {
      unDemandHook := true;
      Emit(M.OnDemandHook);
      publisherDemand := publisherDemand.(readyTimer := true);
      publisherDemand := publisherDemand.(state := M.WaitingReady);
    }

    method PublisherScheduleClose()
      modifies this`publisherDemand
      ensures View() == M.PublisherScheduleClose(old(View()))
    {
      publisherDemand := publisherDemand.(closeTimer := true);
      publisherDemand := publisherDemand.(state := M.Closing);
    }

    method PublisherStop()
      modifies this
      ensures View() == M.PublisherStop(old(View()))
    {
      if publisherDemand.state == M.Closing {
        publisherDemand := publisherDemand.(closeTimer := false);
      }
      Emit(M.OnUnDemandHook);
      unDemandHook := false;
      publisherDemand := publisherDemand.(state := M.Initial);
    }

    method StartRecording()
      modifies this`recorder, this`trace
      ensures View() == M.StartRecording(old(View()))
    {
      recorder := Some(conf.hot.settings);
      Emit(M.RecorderStarted(conf.hot.settings));
    }

    method CloseRecorder()
      modifies this`recorder, this`trace
      ensures View() == M.CloseRecorder(old(View()))
    {
      if recorder.Some? {
        Emit(M.RecorderClosed);
        recorder := None;
      }
    }

    method SetReady(initializes: bool) returns (ok: bool)
      modifies this
      ensures ok == initializes
      ensures View() == M.SetReady(old(View()), initializes)
    {
      var k := nextStream;
      stream, nextStream := Some(k), k + 1;
      if !initializes {
        Emit(M.StreamNotOpened(k));
        return false;
      }
      Emit(M.StreamOpened(k));
      if conf.hot.record {
        StartRecording();
      }
      Emit(M.OnReadyHook);
      Emit(M.NotifiedReady);
      return true;
    }

    /** Removes the readers one by one, in any order. */
    method CloseReaders()
      modifies this`readers, this`trace
      ensures View() == M.Emit(old(View()).(readers := {}), M.ReadersClosed(old(readers)))
    {
      var closed := {};
      while readers != {}
        invariant closed + readers == old(readers)
        invariant trace == old(trace)
        decreases readers
      {
        var r :| r in readers;
        readers := readers - {r};
        closed := closed + {r};
      }
      Emit(M.ReadersClosed(closed));
    }

    method SetNotReady()
      modifies this
      ensures View() == M.SetNotReady(old(View()))
    {
      Emit(M.NotifiedNotReady);
      CloseReaders();
      Emit(M.OnNotReadyHook);
      CloseRecorder();
      if stream.Some? {
        var k := stream.value;
        stream := None;
        Emit(M.StreamClosed(k));
      }
    }

    method ReplyAll(requests: seq<M.Request>, reply: M.Reply)
      modifies this`trace
      ensures View() == M.ReplyAll(old(View()), requests, reply)
    {
      for i := 0 to |requests|
        invariant M.ReplyAll(View(), requests[i..], reply) == M.ReplyAll(old(View()), requests, reply)
      {
        assert requests[i..] != [] && requests[i..][1..] == requests[i + 1..];
        Emit(M.Replied(requests[i], reply));
      }
    }

    method FlushOnHold(reply: M.Reply)
      modifies this
      ensures View() == M.FlushOnHold(old(View()), reply)
      ensures readers == old(readers) && S.NothingOnHold(View())
    {
      S.FlushOnHoldFrame(View(), reply);
      ReplyAll(describesOnHold, reply);
      describesOnHold := [];
      ReplyAll(readersOnHold, reply);
      readersOnHold := [];
    }

    method AddReaderPost(request: M.ReaderRequest)
      modifies this
      ensures View() == M.AddReaderPost(old(View()), request)
    {
      if request.reader in readers {
        Emit(M.Replied(request, M.StreamReply(View())));
        return;
      }
      if conf.fixed.maxReaders != 0 && |readers| >= conf.fixed.maxReaders {
        Emit(M.Replied(request, M.Refused(M.MaxReadersReached)));
        return;
      }
      readers := readers + {request.reader};
      if conf.HasOnDemandStaticSource() {
        if sourceDemand.state == M.Closing {
          sourceDemand := sourceDemand.(state := M.Ready, closeTimer := false);
        }
      } else if conf.HasOnDemandPublisher() {
        if publisherDemand.state == M.Closing {
          publisherDemand := publisherDemand.(state := M.Ready, closeTimer := false);
        }
      }
      Emit(M.Replied(request, M.StreamReply(View())));
    }

    method ConsumeOnHold()
      modifies this
      ensures View() == M.ConsumeOnHold(old(View()))
      ensures S.CoreInvariant(old(View())) && old(stream).Some? ==> S.Invariant(View()) && S.NothingOnHold(View())
    {
      if S.CoreInvariant(View()) && stream.Some? {
        S.ConsumeOnHoldKeeps(View());
      }
      ReplyAll(describesOnHold, M.StreamReply(View()));
      describesOnHold := [];
      AddReadersPost();
      readersOnHold := [];
    }

    method AddReadersPost()
      modifies this
      ensures View() == M.AddReadersPost(old(View()), old(readersOnHold))
    {
      var requests := readersOnHold;
      for i := 0 to |requests|
        invariant M.AddReadersPost(View(), requests[i..]) == M.AddReadersPost(old(View()), requests)
      {
        assert requests[i..] != [] && requests[i..][1..] == requests[i + 1..];
        AddReaderPost(requests[i]);
      }
    }

    method ExecuteRemovePublisher()
      modifies this
      ensures View() == M.ExecuteRemovePublisher(old(View()))
    {
      if stream.Some? {
        SetNotReady();
      }
      source := M.NoSource;
    }

    method DoReloadConf(newConf: Conf)
      modifies this
      ensures View() == M.DoReloadConf(old(View()), newConf)
      ensures S.Good(old(View())) && newConf.Valid() && CanBeUpdated(old(conf), newConf) ==> S.Good(View())
    {
      if S.Good(View()) && newConf.Valid() && CanBeUpdated(conf, newConf) {
        S.ReloadConfSeen(View(), newConf);
      }
      var oldConf := conf;
      conf := newConf;
      if newConf.hot.record != oldConf.hot.record || newConf.hot.settings != oldConf.hot.settings {
        CloseRecorder();
      }
      if newConf.hot.record && stream.Some? && recorder.None? {
        StartRecording();
      }
    }

    method DoSourceSetReady(initializes: bool)
      modifies this
      ensures View() == M.DoSourceSetReady(old(View()), initializes)
      ensures S.Good(old(View())) && old(running) && old(stream).None? && initializes ==>
                S.Good(View()) && S.NothingOnHold(View())
    {
      if S.Good(View()) && running && stream.None? {
        S.SourceSetReadySeen(View());
        S.SourceSetReadyKeeps(View());
      }
      var ok := SetReady(initializes);
      if !ok {
        return;
      }
      if conf.HasOnDemandStaticSource() {
        sourceDemand := sourceDemand.(readyTimer := false);
        StaticScheduleClose();
      }
      ConsumeOnHold();
    }

    method DoSourceSetNotReady()
      modifies this
      ensures View() == M.DoSourceSetNotReady(old(View()))
      ensures S.Good(old(View())) && S.Enabled(old(View()), M.SourceSetNotReady) ==> S.Good(View())
    {
      if S.Good(View()) && S.Enabled(View(), M.SourceSetNotReady) {
        S.SourceSetNotReadySeen(View());
      }
      SetNotReady();
      if conf.HasOnDemandStaticSource() && sourceDemand.state != M.Initial {
        StaticStop();
      }
    }

    method DoDescribe(id: nat)
      modifies this
      ensures View() == M.DoDescribe(old(View()), id)
      ensures Asked(old(View()), M.Describe(id)) ==> S.Good(View())
    {
      if Asked(View(), M.Describe(id)) {
        S.DescribeSeen(View(), id);
      }
      var request := M.Describe(id);
      if source.Redirect? {
        Emit(M.Replied(request, M.Redirected(conf.fixed.sourceRedirect)));
      } else if stream.Some? {
        Emit(M.Replied(request, M.StreamReply(View())));
      } else if conf.HasOnDemandStaticSource() {
        if sourceDemand.state == M.Initial {
          StaticStart();
        }
        describesOnHold := describesOnHold + [request];
      } else if conf.HasOnDemandPublisher() {
        if publisherDemand.state == M.Initial {
          PublisherStart();
        }
        describesOnHold := describesOnHold + [request];
      } else if conf.fixed.fallback != "" {
        Emit(M.Replied(request, M.Redirected(conf.fixed.fallback)));
      } else {
        Emit(M.Replied(request, M.Refused(M.NoStreamAvailable)));
      }
    }

    method DoRemovePublisher(author: nat)
      modifies this
      ensures View() == M.DoRemovePublisher(old(View()), author)
      ensures S.Good(old(View())) ==> S.Good(View())
    {
      if S.Good(View()) {
        S.RemovePublisherSeen(View(), author);
      }
      if source == M.Publisher(author) {
        Emit(M.PublisherLeft(author));
        ExecuteRemovePublisher();
      }
    }

    method AcceptPublisher(request: M.Request, initializes: bool)
      requires request.AddPublisher?
      modifies this
      ensures View() == M.AcceptPublisher(old(View()), request, initializes)
    {
      source := M.Publisher(request.publisher);
      ghost var s := View();
      var ok := SetReady(initializes);
      if !ok {
        source := M.NoSource;
        Emit(M.Replied(request, M.Refused(M.InitializeFailed)));
        return;
      }
      ghost var t := View();
      assert t == M.SetReady(s, true);
      if conf.HasOnDemandPublisher() && publisherDemand.state != M.Initial {
        publisherDemand := publisherDemand.(readyTimer := false);
        PublisherScheduleClose();
      }
      ConsumeOnHold();
      Emit(M.Replied(request, M.StreamReply(View())));
    }

    method DoAddPublisher(id: nat, author: nat, initializes: bool)
      modifies this
      ensures View() == M.DoAddPublisher(old(View()), id, author, initializes)
      ensures Asked(old(View()), M.AddPublisher(id, author)) && initializes ==> S.Good(View())
    {
      if Asked(View(), M.AddPublisher(id, author)) {
        S.AddPublisherSeen(View(), id, author);
      }
      var request := M.AddPublisher(id, author);
      if conf.fixed.source != FromPublisher {
        Emit(M.Replied(request, M.Refused(M.NotAPublisherPath)));
        return;
      }
      if source != M.NoSource {
        if !conf.fixed.overridePublisher {
          Emit(M.Replied(request, M.Refused(M.AlreadyPublishing)));
          return;
        }
        if source.Publisher? {
          Emit(M.PublisherClosed(source.id));
          ExecuteRemovePublisher();
        }
      }
      AcceptPublisher(request, initializes);
    }

    method DoAddReader(id: nat, reader: nat)
      modifies this
      ensures View() == M.DoAddReader(old(View()), id, reader)
      ensures Asked(old(View()), M.AddReader(id, reader)) ==> S.Good(View())
    {
      if Asked(View(), M.AddReader(id, reader)) {
        S.AddReaderSeen(View(), id, reader);
      }
      var request: M.ReaderRequest := M.AddReader(id, reader);
      if stream.Some? {
        AddReaderPost(request);
      } else if conf.HasOnDemandStaticSource() {
        if sourceDemand.state == M.Initial {
          StaticStart();
        }
        readersOnHold := readersOnHold + [request];
      } else if conf.HasOnDemandPublisher() {
        if publisherDemand.state == M.Initial {
          PublisherStart();
        }
        readersOnHold := readersOnHold + [request];
      } else {
        Emit(M.Replied(request, M.Refused(M.NoStreamAvailable)));
      }
    }

    method DoRemoveReader(reader: nat)
      modifies this
      ensures View() == M.DoRemoveReader(old(View()), reader)
      ensures S.Good(old(View())) ==> S.Good(View())
    {
      if S.Good(View()) {
        S.RemoveReaderSeen(View(), reader);
      }
      if reader in readers {
        readers := readers - {reader};
        Emit(M.ReaderLeft(reader));
      }
      if readers == {} {
        if conf.HasOnDemandStaticSource() {
          if sourceDemand.state == M.Ready {
            StaticScheduleClose();
          }
        } else if conf.HasOnDemandPublisher() {
          if publisherDemand.state == M.Ready {
            PublisherScheduleClose();
          }
        }
      }
    }

    method ReleaseSource()
      modifies this
      ensures View() == M.ReleaseSource(old(View()))
    {
      if source.Static? {
        if !conf.fixed.sourceOnDemand || sourceDemand.state != M.Initial {
          StopSource();
        }
      } else if source.Publisher? {
        Emit(M.PublisherClosed(source.id));
      }
    }

    method AnswerOnHold()
      modifies this`trace
      ensures View() == M.ReplyAll(M.ReplyAll(old(View()), describesOnHold, M.Refused(M.Terminated)),
                                   readersOnHold, M.Refused(M.Terminated))
    {
      ReplyAll(describesOnHold, M.Refused(M.Terminated));
      ReplyAll(readersOnHold, M.Refused(M.Terminated));
    }

    method Undo()
      modifies this
      ensures View() == M.Undo(old(View()))
    {
      if stream.Some? {
        SetNotReady();
      }
      ReleaseSource();
      if unDemandHook {
        Emit(M.OnUnDemandHook);
      }
      finished := true;
      Emit(M.Destroyed);
    }

    /** The tail of the goroutine, after the event loop has returned. */
    method Leave()
      modifies this
      ensures View() == M.Leave(old(View()))
      ensures S.Good(old(View())) ==> S.Gone(View())
    {
      if S.Good(View()) {
        S.LeaveSeen(View());
      }
      Emit(M.NotifiedClosed);
      sourceDemand := sourceDemand.(readyTimer := false, closeTimer := false);
      publisherDemand := publisherDemand.(readyTimer := false, closeTimer := false);
      S.ReplyAllFrame(View(), describesOnHold, M.Refused(M.Terminated));
      AnswerOnHold();
      Undo();
    }

    method LeaveIfUnused()
      modifies this
      ensures View() == M.LeaveIfUnused(old(View()))
      ensures S.Good(old(View())) ==> S.Safe(View())
    {
      if conf.regexp.Some? && source == M.NoSource && readers == {} && describesOnHold == [] && readersOnHold == [] {
        Leave();
      }
    }

    method OnStaticTimer(e: M.Event)
      requires e.StaticReadyTimer? || e.StaticCloseTimer?
      modifies this
      ensures View() == M.Step(old(View()), e)
      ensures S.Good(old(View())) && S.Enabled(old(View()), e) ==> S.Safe(View())
    {
      if S.Good(View()) && S.Enabled(View(), e) {
        S.StepSeen(View(), e);
      }
      if e.StaticReadyTimer? {
        sourceDemand := sourceDemand.(readyTimer := false);
        FlushOnHold(M.Refused(M.TimedOut));
      } else {
        sourceDemand := sourceDemand.(closeTimer := false);
        SetNotReady();
      }
      StaticStop();
      LeaveIfUnused();
    }

    method OnPublisherTimer(e: M.Event)
      requires e.PublisherReadyTimer? || e.PublisherCloseTimer?
      modifies this
      ensures View() == M.Step(old(View()), e)
      ensures S.Good(old(View())) && S.Enabled(old(View()), e) ==> S.Safe(View())
    {
      if S.Good(View()) && S.Enabled(View(), e) {
        S.StepSeen(View(), e);
      }
      if e.PublisherReadyTimer? {
        publisherDemand := publisherDemand.(readyTimer := false);
        FlushOnHold(M.Refused(M.TimedOut));
        PublisherStop();
        LeaveIfUnused();
      } else {
        publisherDemand := publisherDemand.(closeTimer := false);
        PublisherStop();
      }
    }

    /** One iteration of the event loop. */
    method Handle(e: M.Event)
      modifies this
      ensures View() == M.Step(old(View()), e)
      ensures S.Good(old(View())) && S.Enabled(old(View()), e) ==>
                (S.Safe(View()) <==> !S.FailsToInitialize(old(View()), e) && !S.OpensSecondStream(old(View()), e))
    {
      if S.Good(View()) && S.Enabled(View(), e) {
        F.StepIsSafeIff(View(), e);
      }
      match e
      case StaticReadyTimer => OnStaticTimer(e);
      case StaticCloseTimer => OnStaticTimer(e);
      case PublisherReadyTimer => OnPublisherTimer(e);
      case PublisherCloseTimer => OnPublisherTimer(e);
      case ReloadConf(newConf) => DoReloadConf(newConf);
      case SourceSetReady(initializes) => DoSourceSetReady(initializes);
      case SourceSetNotReady => DoSourceSetNotReady(); LeaveIfUnused();
      case DescribeRequest(id) => Emit(M.Received(M.Describe(id))); DoDescribe(id); LeaveIfUnused();
      case AddPublisherRequest(id, p, initializes) =>
        Emit(M.Received(M.AddPublisher(id, p)));
        DoAddPublisher(id, p, initializes);
      case RemovePublisher(p) => DoRemovePublisher(p); LeaveIfUnused();
      case AddReaderRequest(id, r) => Emit(M.Received(M.AddReader(id, r))); DoAddReader(id, r); LeaveIfUnused();
      case RemoveReader(r) => DoRemoveReader(r);
      case Terminate => Leave();
    }

    /** The event loop, fed with what the channels and timers deliver. */
    method RunInner(events: seq<M.Event>)
      requires R.Possible(View(), events)
      modifies this
      ensures View() == R.Run(old(View()), events)
      ensures S.Safe(old(View())) ==> (S.Safe(View()) <==> R.Clean(old(View()), events))
    {
      if S.Safe(View()) {
        F.RunFromIsSafeIff(View(), events);
      }
      for i := 0 to |events|
        invariant R.Possible(View(), events[i..])
        invariant R.Run(View(), events[i..]) == R.Run(old(View()), events)
      {
        assert events[i..] != [] && events[i..][1..] == events[i + 1..];
        Handle(events[i]);
      }
    }
  }

  /** A path object that is created, fed with events and destroyed. */
  method Live(conf: Conf, events: seq<M.Event>) returns (path: Path)
    requires conf.Valid() && R.Possible(M.Create(conf), events)
    ensures path.View() == R.Run(M.Create(conf), events)
    ensures R.Clean(M.Create(conf), events) <==>
            if path.finished then S.Seen(path.View(), S.GONE)
            else S.Invariant(path.View()) && S.Seen(path.View(), S.View(path.View()))
  {
    path := new Path(conf);
    path.RunInner(events);
  }
}
