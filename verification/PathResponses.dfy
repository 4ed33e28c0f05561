/** What a path does in response to each event, as the rest of the system sees it: every answer, notification, hook,
    recorder and source action, in order. */
module PathResponses {
  import opened Options
  import opened Sequences
  import opened Config
  import opened PathModel
  import opened PathSafety
  import opened PathRuns
  import opened PathAnswers

  function Replies(qs: seq<Request>, reply: Reply): (r: seq<Action>)
    ensures |r| == |qs| && forall i :: 0 <= i < |r| ==> r[i] == Replied(qs[i], reply)
  {
    seq(|qs|, i requires 0 <= i < |qs| => Replied(qs[i], reply))
  }

  /** Who is let in when these readers come to a path, one after the other. */
  function Joined(inside: set<nat>, qs: seq<ReaderRequest>, maxReaders: nat): set<nat>
    decreases |qs|
  {
    if qs == [] then inside
    else if maxReaders != 0 && |inside| >= maxReaders then inside
    else Joined(inside + {qs[0].reader}, qs[1..], maxReaders)
  }

  function ReaderReply(inside: set<nat>, reader: nat, k: nat): Reply {
    if reader in inside then GotStream(k) else Refused(MaxReadersReached)
  }

  function ReaderReplies(qs: seq<ReaderRequest>, inside: set<nat>, k: nat): (r: seq<Action>)
    ensures |r| == |qs|
    ensures forall i :: 0 <= i < |r| ==> r[i] == Replied(qs[i], ReaderReply(inside, qs[i].reader, k))
  {
    seq(|qs|, i requires 0 <= i < |qs| => Replied(qs[i], ReaderReply(inside, qs[i].reader, k)))
  }

  function If(b: bool, a: Action): seq<Action> {
    if b then [a] else []
  }

  // what is done together

  /** A stream begins. */
  function Up(s: State, k: nat): seq<Action> {
    [StreamOpened(k)] + If(s.conf.hot.record, RecorderStarted(s.conf.hot.settings)) + [OnReadyHook, NotifiedReady]
  }

  /** Everybody on hold is served with it. */
  function Served(s: State, k: nat): seq<Action> {
    Replies(s.describesOnHold, GotStream(k)) +
    ReaderReplies(s.readersOnHold, Joined({}, s.readersOnHold, s.conf.fixed.maxReaders), k)
  }

  /** The stream ends. */
  function Down(s: State): seq<Action> {
    if s.stream.None? then []
    else
      [NotifiedNotReady, ReadersClosed(s.readers), OnNotReadyHook] + If(s.conf.hot.record, RecorderClosed) +
      [StreamClosed(s.stream.value)]
  }

  function Unanswered(s: State, why: Refusal): seq<Action> {
    Replies(s.describesOnHold, Refused(why)) + Replies(s.readersOnHold, Refused(why))
  }

  /** A path that was made for one name and has no publisher is gone once nobody uses it. */
  function Disappears(s: State, hook: bool): seq<Action> {
    if s.conf.regexp.Some? then [NotifiedClosed] + If(hook, OnUnDemandHook) + [Destroyed] else []
  }

  /** The answer to a request for a stream that is not there and will not come. */
  function Otherwise(s: State, q: Request): Reply {
    if q.Describe? && s.conf.fixed.source == FromRedirect then Redirected(s.conf.fixed.sourceRedirect)
    else if q.Describe? && s.conf.fixed.fallback != "" then Redirected(s.conf.fixed.fallback)
    else Refused(NoStreamAvailable)
  }

  /** What is done at once on a request for a stream, from somebody who wants to read or to know about it: it is
      answered with the stream, or makes somebody bring one, or is refused. */
  function AtOnce(s: State, q: Request): seq<Action>
    requires q.Describe? || q.AddReader?
  {
    if s.stream.Some? then
      var k, limit := s.stream.value, s.conf.fixed.maxReaders;
      if q.Describe? || q.reader in s.readers || limit == 0 || |s.readers| < limit then [Replied(q, GotStream(k))]
      else [Replied(q, Refused(MaxReadersReached))]
    else if s.conf.HasOnDemandStaticSource() then If(!s.running, SourceStarted)
    else if s.conf.HasOnDemandPublisher() then If(!s.unDemandHook, OnDemandHook)
    else [Replied(q, Otherwise(s, q))]
  }

  function Requested(s: State, q: Request): seq<Action>
    requires q.Describe? || q.AddReader?
  {
    [Received(q)] + AtOnce(s, q) +
    if s.source == NoSource && !s.conf.HasOnDemandPublisher() then Disappears(s, false) else []
  }

  function Publishes(s: State, q: Request): seq<Action>
    requires q.AddPublisher?
  {
    [Received(q)] +
    if s.conf.fixed.source != FromPublisher then [Replied(q, Refused(NotAPublisherPath))]
    else if s.source != NoSource && !s.conf.fixed.overridePublisher then [Replied(q, Refused(AlreadyPublishing))]
    else
      Overridden(s) + (Up(s, s.nextStream) + Served(s, s.nextStream) + [Replied(q, GotStream(s.nextStream))])
  }

  /** The publisher that is there has to go. */
  function Overridden(s: State): seq<Action> {
    if s.source.Publisher? then [PublisherClosed(s.source.id)] + Down(s) else []
  }

  function Reloads(s: State, newConf: Conf): seq<Action> {
    var changed := newConf.hot.record != s.conf.hot.record || newConf.hot.settings != s.conf.hot.settings;
    if s.stream.None? || !changed then []
    else If(s.conf.hot.record, RecorderClosed) + If(newConf.hot.record, RecorderStarted(newConf.hot.settings))
  }

  function Leaves(s: State): seq<Action> {
    [NotifiedClosed] + Unanswered(s, Terminated) + Undone(s)
  }

  /** What is undone in the end. */
  function Undone(s: State): seq<Action> {
    Down(s) + Released(s) + (If(s.unDemandHook, OnUnDemandHook) + [Destroyed])
  }

  function Released(s: State): seq<Action> {
    If(s.running, SourceStopped) + if s.source.Publisher? then [PublisherClosed(s.source.id)] else []
  }

  /** A publisher leaves, or somebody who is not publishing says so. */
  function PublisherLeaves(s: State, author: nat): seq<Action> {
    if s.source == Publisher(author) then [PublisherLeft(author)] + Down(s) + Disappears(s, s.unDemandHook)
    else if ShouldClose(s) then Disappears(s, s.unDemandHook)
    else []
  }

  /** All that a path does in response to an event. */
  function Visible(s: State, e: Event): seq<Action> {
    match e
    case StaticReadyTimer => Unanswered(s, TimedOut) + [SourceStopped]
    case StaticCloseTimer => Down(s) + [SourceStopped]
    case PublisherReadyTimer =>
      Unanswered(s, TimedOut) + [OnUnDemandHook] + if s.source == NoSource then Disappears(s, false) else []
    case PublisherCloseTimer => [OnUnDemandHook]
    case ReloadConf(newConf) => Reloads(s, newConf)
    case SourceSetReady(_) => Up(s, s.nextStream) + Served(s, s.nextStream)
    case SourceSetNotReady => Down(s) + If(s.conf.HasOnDemandStaticSource(), SourceStopped)
    case DescribeRequest(id) => Requested(s, Describe(id))
    case AddPublisherRequest(id, publisher, _) => Publishes(s, AddPublisher(id, publisher))
    case RemovePublisher(author) => PublisherLeaves(s, author)
    case AddReaderRequest(id, reader) => Requested(s, AddReader(id, reader))
    case RemoveReader(reader) => If(reader in s.readers, ReaderLeft(reader))
    case Terminate => Leaves(s)
  }

  // operations

  lemma {:induction false} ReplyAllDoes(s: State, qs: seq<Request>, reply: Reply)
    ensures ReplyAll(s, qs, reply) == s.(trace := s.trace + Replies(qs, reply))
    decreases |qs|
  {
    if qs != [] {
      ReplyAllDoes(Emit(s, Replied(qs[0], reply)), qs[1..], reply);
      assert [Replied(qs[0], reply)] + Replies(qs[1..], reply) == Replies(qs, reply);
      Regroup(s.trace, [Replied(qs[0], reply)], Replies(qs[1..], reply));
    } else {
      assert s.trace + Replies(qs, reply) == s.trace;
    }
  }

  lemma {:induction false} FlushDoes(s: State, why: Refusal)
    ensures FlushOnHold(s, Refused(why)) ==
            s.(trace := s.trace + Unanswered(s, why), describesOnHold := [], readersOnHold := [])
  {
    ReplyAllDoes(s, s.describesOnHold, Refused(why));
    var t := ReplyAll(s, s.describesOnHold, Refused(why)).(describesOnHold := []);
    ReplyAllDoes(t, s.readersOnHold, Refused(why));
    Regroup(s.trace, Replies(s.describesOnHold, Refused(why)), Replies(s.readersOnHold, Refused(why)));
  }

  lemma {:induction false} JoinedGrows(inside: set<nat>, qs: seq<ReaderRequest>, maxReaders: nat)
    ensures inside <= Joined(inside, qs, maxReaders)
    ensures maxReaders != 0 && |inside| <= maxReaders ==> |Joined(inside, qs, maxReaders)| <= maxReaders
    decreases |qs|
  {
    if qs != [] && !(maxReaders != 0 && |inside| >= maxReaders) {
      JoinedGrows(inside + {qs[0].reader}, qs[1..], maxReaders);
    }
  }

  /** Those who come later do not change who was let in, and once the path is full nobody is. */
  lemma {:induction false} JoinedFirst(inside: set<nat>, qs: seq<ReaderRequest>, maxReaders: nat)
    requires qs != [] && (maxReaders != 0 ==> |inside| <= maxReaders)
    ensures var first, all := qs[0].reader, Joined(inside, qs, maxReaders);
            if first in inside || maxReaders == 0 || |inside| < maxReaders
            then first in all && all == Joined(inside + {first}, qs[1..], maxReaders)
            else first !in all && all == Joined(inside, qs[1..], maxReaders)
  {
    var first := qs[0].reader;
    JoinedGrows(inside + {first}, qs[1..], maxReaders);
    if first in inside {
      assert inside + {first} == inside;
    }
    if maxReaders != 0 && |inside| >= maxReaders {
      assert Joined(inside, qs[1..], maxReaders) == inside;
    }
  }

  lemma {:induction false} ReadersDo(s: State, qs: seq<ReaderRequest>)
    requires CoreInvariant(s) && s.stream.Some?
    ensures var t, inside := AddReadersPost(s, qs), Joined(s.readers, qs, s.conf.fixed.maxReaders);
            && t.trace == s.trace + ReaderReplies(qs, inside, s.stream.value)
            && t.readers == inside && t.stream == s.stream && t.conf == s.conf
    decreases |qs|
  {
    var k, inside := s.stream.value, Joined(s.readers, qs, s.conf.fixed.maxReaders);
    if qs == [] {
      assert s.trace + ReaderReplies(qs, inside, k) == s.trace;
    } else {
      var t := AddReaderPost(s, qs[0]);
      AddReaderPostKeeps(s, qs[0]);
      AddReaderPostFrame(s, qs[0]);
      ReaderDoes(s, qs[0]);
      JoinedFirst(s.readers, qs, s.conf.fixed.maxReaders);
      ReadersDo(t, qs[1..]);
      var first := [Replied(qs[0], ReaderReply(inside, qs[0].reader, k))];
      assert first + ReaderReplies(qs[1..], inside, k) == ReaderReplies(qs, inside, k);
      Regroup(s.trace, first, ReaderReplies(qs[1..], inside, k));
    }
  }

  lemma {:induction false} ReaderDoes(s: State, q: ReaderRequest)
    requires s.stream.Some?
    ensures var t, limit := AddReaderPost(s, q), s.conf.fixed.maxReaders;
            var ok := q.reader in s.readers || limit == 0 || |s.readers| < limit;
            && t.trace == s.trace +
                          [Replied(q, if ok then GotStream(s.stream.value) else Refused(MaxReadersReached))]
            && t.readers == if ok then s.readers + {q.reader} else s.readers
  {
    KeepAliveFrame(s.(readers := s.readers + {q.reader}));
    assert q.reader in s.readers ==> s.readers + {q.reader} == s.readers;
  }

  lemma {:induction false} ConsumeDoes(s: State)
    requires CoreInvariant(s) && s.stream.Some? && s.readers == {}
    ensures ConsumeOnHold(s).trace == s.trace + Served(s, s.stream.value)
    ensures ConsumeOnHold(s).stream == s.stream
  {
    var k := s.stream.value;
    ReplyAllDoes(s, s.describesOnHold, GotStream(k));
    var t := ReplyAll(s, s.describesOnHold, GotStream(k)).(describesOnHold := []);
    ReadersDo(t, s.readersOnHold);
    Regroup(s.trace, Replies(s.describesOnHold, GotStream(k)),
            ReaderReplies(s.readersOnHold, Joined({}, s.readersOnHold, s.conf.fixed.maxReaders), k));
  }

  lemma {:induction false} SetReadyDoes(s: State)
    ensures SetReady(s, true).trace == s.trace + Up(s, s.nextStream)
  {
  }

  lemma {:induction false} SetNotReadyDoes(s: State)
    requires s.stream.Some? && (s.recorder.Some? <==> s.conf.hot.record)
    ensures SetNotReady(s).trace == s.trace + Down(s)
  {
  }

  /** Leaving, up to where everything has been answered. */
  function AllAnswered(s: State): State {
    s.(trace := s.trace + ([NotifiedClosed] + Unanswered(s, Terminated)),
       sourceDemand := s.sourceDemand.(readyTimer := false, closeTimer := false),
       publisherDemand := s.publisherDemand.(readyTimer := false, closeTimer := false))
  }

  lemma {:induction false} LeaveAnswers(s: State)
    ensures Leave(s) == Undo(AllAnswered(s))
  {
    var t := Emit(s, NotifiedClosed);
    var u := t.(sourceDemand := t.sourceDemand.(readyTimer := false, closeTimer := false),
                publisherDemand := t.publisherDemand.(readyTimer := false, closeTimer := false));
    var a, b := Replies(u.describesOnHold, Refused(Terminated)), Replies(u.readersOnHold, Refused(Terminated));
    ReplyAllDoes(u, u.describesOnHold, Refused(Terminated));
    var v := ReplyAll(u, u.describesOnHold, Refused(Terminated));
    ReplyAllDoes(v, v.readersOnHold, Refused(Terminated));
    Regroup(u.trace, a, b);
    Regroup(s.trace, [NotifiedClosed], a + b);
  }

  lemma {:induction false} LeaveDoes(s: State)
    requires Invariant(s)
    ensures Leave(s).trace == s.trace + Leaves(s)
  {
    LeaveAnswers(s);
    UndoDoes(s, AllAnswered(s));
    Regroup(s.trace, [NotifiedClosed] + Unanswered(s, Terminated), Undone(s));
  }

  lemma {:induction false} ReleaseDoes(s: State, w: State)
    requires Invariant(s) && w.conf == s.conf && w.source == s.source && w.sourceDemand.state == s.sourceDemand.state
    ensures ReleaseSource(w).trace == w.trace + Released(s) && ReleaseSource(w).unDemandHook == w.unDemandHook
  {
  }

  lemma {:induction false} UndoDoes(s: State, w: State)
    requires Invariant(s) && w.sourceDemand.state == s.sourceDemand.state
    requires w == s.(trace := w.trace, sourceDemand := w.sourceDemand, publisherDemand := w.publisherDemand)
    ensures Undo(w).trace == w.trace + Undone(s)
  {
    var t := if s.stream.Some? then SetNotReady(w) else w;
    if s.stream.Some? {
      SetNotReadyDoes(w);
    }
    assert t.trace == w.trace + Down(s);
    SetNotReadyFrame(w);
    ReleaseDoes(s, t);
    var end := If(s.unDemandHook, OnUnDemandHook) + [Destroyed];
    assert Undo(w).trace == ReleaseSource(t).trace + end;
    Regroup(w.trace, Down(s), Released(s));
    Regroup(w.trace, Down(s) + Released(s), end);
  }

  /** A path that should close has nothing to undo but its hook. */
  lemma {:induction false} UnusedDoes(t: State)
    requires Invariant(t)
    ensures LeaveIfUnused(t).trace == t.trace + if ShouldClose(t) then Disappears(t, t.unDemandHook) else []
  {
    if ShouldClose(t) {
      LeaveDoes(t);
      assert Unanswered(t, Terminated) == [];
      assert Leaves(t) == Disappears(t, t.unDemandHook);
    }
  }

  // one event

  lemma {:induction false} ReadyTimersDo(s: State, e: Event)
    requires Invariant(s) && Enabled(s, e) && (e.StaticReadyTimer? || e.PublisherReadyTimer?)
    ensures Step(s, e).trace == s.trace + Visible(s, e)
  {
    var t, a := Fire(s, e), Unanswered(s, TimedOut);
    FlushDoes(t, TimedOut);
    if e.StaticReadyTimer? {
      StaticReadyTimerKeeps(s);
      UnusedDoes(DoStaticReadyTimer(t));
      Regroup(s.trace, a, [SourceStopped]);
    } else {
      PublisherReadyTimerKeeps(s);
      UnusedDoes(DoPublisherReadyTimer(t));
      Regroup(s.trace, a, [OnUnDemandHook]);
      Regroup(s.trace, a + [OnUnDemandHook], if s.source == NoSource then Disappears(s, false) else []);
    }
  }

  lemma {:induction false} CloseTimersDo(s: State, e: Event)
    requires Invariant(s) && Enabled(s, e) && (e.StaticCloseTimer? || e.PublisherCloseTimer?)
    ensures Step(s, e).trace == s.trace + Visible(s, e)
  {
    if e.StaticCloseTimer? {
      var t := Fire(s, e);
      SetNotReadyDoes(t);
      StaticCloseTimerKeeps(s);
      UnusedDoes(DoStaticCloseTimer(t));
      Regroup(s.trace, Down(s), [SourceStopped]);
    }
  }

  lemma {:induction false} ReloadDoes(s: State, newConf: Conf)
    requires Invariant(s) && newConf.Valid() && CanBeUpdated(s.conf, newConf)
    ensures DoReloadConf(s, newConf).trace == s.trace + Reloads(s, newConf)
  {
  }

  lemma {:induction false} SourceDoes(s: State, e: Event)
    requires Invariant(s) && Enabled(s, e) && !FailsToInitialize(s, e) && !OpensSecondStream(s, e)
    requires e.SourceSetReady? || e.SourceSetNotReady?
    ensures Step(s, e).trace == s.trace + Visible(s, e)
  {
    if e.SourceSetReady? {
      var t, k := SetReady(s, true), s.nextStream;
      SetReadyDoes(s);
      SetReadyFrame(s);
      var u := if t.conf.HasOnDemandStaticSource()
               then StaticScheduleClose(t.(sourceDemand := t.sourceDemand.(readyTimer := false)))
               else t;
      ConsumeDoes(u);
      Regroup(s.trace, Up(s, k), Served(s, k));
    } else {
      SetNotReadyDoes(s);
      SourceSetNotReadyKeeps(s);
      UnusedDoes(DoSourceSetNotReady(s));
      Regroup(s.trace, Down(s), If(s.conf.HasOnDemandStaticSource(), SourceStopped));
    }
  }

  lemma {:induction false} RequestDoes(s: State, q: Request, t: State)
    requires q.Describe? || q.AddReader?
    requires Invariant(s) && Invariant(t) && t.trace == s.trace + [Received(q)] + AtOnce(s, q)
    requires t.conf == s.conf && t.source == s.source
    requires ShouldClose(t) <==> s.conf.regexp.Some? && s.source == NoSource && !s.conf.HasOnDemandPublisher()
    ensures LeaveIfUnused(t).trace == s.trace + Requested(s, q)
  {
    UnusedDoes(t);
    Regroup(s.trace, [Received(q)], AtOnce(s, q));
    Regroup(s.trace, [Received(q)] + AtOnce(s, q), if ShouldClose(t) then Disappears(s, false) else []);
  }

  lemma {:induction false} DescribeDoes(s: State, id: nat)
    requires Invariant(s)
    ensures Step(s, DescribeRequest(id)).trace == s.trace + Requested(s, Describe(id))
  {
    var t := Emit(s, Received(Describe(id)));
    DescribeKeeps(t, id);
    RequestDoes(s, Describe(id), DoDescribe(t, id));
  }

  lemma {:induction false} AddReaderDoes(s: State, id: nat, reader: nat)
    requires Invariant(s)
    ensures Step(s, AddReaderRequest(id, reader)).trace == s.trace + Requested(s, AddReader(id, reader))
  {
    var t := Emit(s, Received(AddReader(id, reader)));
    AddReaderKeeps(t, id, reader);
    if s.stream.Some? {
      ReaderDoes(t, AddReader(id, reader));
      AddReaderPostFrame(t, AddReader(id, reader));
    }
    RequestDoes(s, AddReader(id, reader), DoAddReader(t, id, reader));
  }

  lemma {:induction false} PublisherLeavesDoes(s: State, author: nat)
    requires Invariant(s)
    ensures Step(s, RemovePublisher(author)).trace == s.trace + PublisherLeaves(s, author)
  {
    var t := DoRemovePublisher(s, author);
    if s.source == Publisher(author) {
      SetNotReadyDoes(Emit(s, PublisherLeft(author)));
      SetNotReadyFrame(Emit(s, PublisherLeft(author)));
      ExecuteRemovePublisherKeeps(Emit(s, PublisherLeft(author)));
      UnusedDoes(t);
      Regroup(s.trace, [PublisherLeft(author)], Down(s));
      Regroup(s.trace, [PublisherLeft(author)] + Down(s), Disappears(s, s.unDemandHook));
    } else {
      UnusedDoes(s);
    }
  }

  /** A publisher is accepted by a path that has none. */
  lemma {:induction false} AcceptDoes(s: State, q: Request)
    requires Invariant(s) && s.conf.fixed.source == FromPublisher && s.source == NoSource && q.AddPublisher?
    ensures AcceptPublisher(s, q, true).trace ==
            s.trace + (Up(s, s.nextStream) + Served(s, s.nextStream) + [Replied(q, GotStream(s.nextStream))])
  {
    var r, u, k := s.(source := Publisher(q.publisher)), Publishing(s, q.publisher), s.nextStream;
    PublishingFrame(s, q.publisher);
    SetReadyDoes(r);
    SetReadyFrame(r);
    ConsumeDoes(u);
    assert AcceptPublisher(s, q, true) == Emit(ConsumeOnHold(u), Replied(q, StreamReply(ConsumeOnHold(u))));
    Regroup(s.trace, Up(s, k), Served(s, k));
    Regroup(s.trace, Up(s, k) + Served(s, k), [Replied(q, GotStream(k))]);
  }

  lemma {:induction false} OverrideDoes(s: State, q: Request)
    requires Invariant(s) && s.conf.fixed.source == FromPublisher && q.AddPublisher?
    ensures var t := OverridePublisher(Emit(s, Received(q)));
            && Invariant(t) && t.source == NoSource && t.conf == s.conf && t.nextStream == s.nextStream
            && SameQueues(s, t)
            && t.trace == s.trace + ([Received(q)] + Overridden(s))
  {
    var r := Emit(s, Received(q));
    if s.source.Publisher? {
      var t := Emit(r, PublisherClosed(s.source.id));
      SetNotReadyDoes(t);
      SetNotReadyFrame(t);
      ExecuteRemovePublisherKeeps(t);
      Regroup(r.trace, [PublisherClosed(s.source.id)], Down(s));
    }
    Regroup(s.trace, [Received(q)], Overridden(s));
  }

  lemma {:induction false} RefusalDoes(s: State, q: Request)
    requires q.AddPublisher? && !CanPublish(s)
    ensures DoAddPublisher(Emit(s, Received(q)), q.id, q.publisher, true).trace == s.trace + Publishes(s, q)
  {
  }

  lemma {:induction false} AcceptanceDoes(s: State, q: Request)
    requires Invariant(s) && q.AddPublisher? && CanPublish(s)
    ensures DoAddPublisher(Emit(s, Received(q)), q.id, q.publisher, true).trace == s.trace + Publishes(s, q)
  {
    var t, k := OverridePublisher(Emit(s, Received(q))), s.nextStream;
    OverrideDoes(s, q);
    AcceptDoes(t, q);
    assert Up(t, k) == Up(s, k) && Served(t, k) == Served(s, k);
    var end := Up(s, k) + Served(s, k) + [Replied(q, GotStream(k))];
    Regroup(s.trace, [Received(q)] + Overridden(s), end);
    Regroup([Received(q)], Overridden(s), end);
  }

  lemma {:induction false} PublishDoes(s: State, e: Event)
    requires Invariant(s) && e.AddPublisherRequest? && !FailsToInitialize(s, e)
    ensures Step(s, e).trace == s.trace + Publishes(s, AddPublisher(e.id, e.publisher))
  {
    var q := AddPublisher(e.id, e.publisher);
    if CanPublish(s) {
      AcceptanceDoes(s, q);
    } else {
      RefusalDoes(s, q);
    }
  }

  /** In response to any event a path does exactly what is listed for it. */
  lemma {:induction false} StepDoes(s: State, e: Event)
    requires Invariant(s) && Enabled(s, e) && !FailsToInitialize(s, e) && !OpensSecondStream(s, e)
    ensures Step(s, e).trace == s.trace + Visible(s, e)
  {
    match e
    case DescribeRequest(id) => DescribeDoes(s, id);
    case AddReaderRequest(id, reader) => AddReaderDoes(s, id, reader);
    case AddPublisherRequest(_, _, _) => PublishDoes(s, e);
    case SourceSetReady(_) => SourceDoes(s, e);
    case SourceSetNotReady => SourceDoes(s, e);
    case RemovePublisher(author) => PublisherLeavesDoes(s, author);
    case RemoveReader(_) =>
    case ReloadConf(newConf) => ReloadDoes(s, newConf);
    case Terminate => LeaveDoes(s);
    case StaticReadyTimer => ReadyTimersDo(s, e);
    case PublisherReadyTimer => ReadyTimersDo(s, e);
    case _ => CloseTimersDo(s, e);
  }

  // streams that fail, or come on top of another one

  /** A stream that cannot be initialized stays nevertheless; a publisher is told, but one that it was to replace is
      gone. */
  lemma {:induction false} FailureDoes(s: State, e: Event)
    requires Invariant(s) && Enabled(s, e) && FailsToInitialize(s, e)
    ensures Step(s, e).stream == Some(s.nextStream) && !Step(s, e).finished
    ensures e.SourceSetReady? ==> Step(s, e).trace == s.trace + [StreamNotOpened(s.nextStream)]
    ensures e.AddPublisherRequest? ==>
              var q := AddPublisher(e.id, e.publisher);
              && Step(s, e).source == NoSource
              && Step(s, e).trace ==
                 s.trace + ([Received(q)] + Overridden(s) +
                            [StreamNotOpened(s.nextStream), Replied(q, Refused(InitializeFailed))])
  {
    if e.AddPublisherRequest? {
      var q := AddPublisher(e.id, e.publisher);
      OverrideDoes(s, q);
      Regroup(s.trace, [Received(q)] + Overridden(s),
              [StreamNotOpened(s.nextStream), Replied(q, Refused(InitializeFailed))]);
    }
  }

  /** A stream on top of another one is opened like any other, and the first one is forgotten. */
  lemma {:induction false} SecondStreamDoes(s: State, e: Event)
    requires Invariant(s) && Enabled(s, e) && !FailsToInitialize(s, e) && OpensSecondStream(s, e)
    ensures Step(s, e).trace == s.trace + Up(s, s.nextStream) && Step(s, e).stream == Some(s.nextStream)
  {
    SetReadyDoes(s);
    SetReadyFrame(s);
    assert NothingOnHold(s);
  }

  // whole runs

  lemma {:induction false} RunDoes(s: State, events: seq<Event>)
    requires Safe(s) && Possible(s, events) && Clean(s, events)
    ensures Run(s, events).trace == s.trace + AllVisible(s, events)
    decreases |events|
  {
    if events != [] {
      var t := Step(s, events[0]);
      StepDoes(s, events[0]);
      StepSeen(s, events[0]);
      RunDoes(t, events[1..]);
      Regroup(s.trace, Visible(s, events[0]), AllVisible(t, events[1..]));
    }
  }

  /** What is listed for the events of a run, one after the other. */
  function AllVisible(s: State, events: seq<Event>): seq<Action>
    decreases |events|
  {
    if events == [] then [] else Visible(s, events[0]) + AllVisible(Step(s, events[0]), events[1..])
  }

  /** Over every run the path does exactly what is listed for each event, after starting a source that is not on
      demand. */
  lemma {:induction false} EveryRunDoes(conf: Conf, events: seq<Event>)
    requires conf.Valid() && Possible(Create(conf), events) && Clean(Create(conf), events)
    ensures Run(Create(conf), events).trace ==
            If(conf.HasStaticSource() && !conf.fixed.sourceOnDemand, SourceStarted) + AllVisible(Create(conf), events)
  {
    CreateSeen(conf);
    RunDoes(Create(conf), events);
  }

  // requests

  /** The reader is known, or there is room for another one. */
  predicate HasRoom(s: State, reader: nat) {
    reader in s.readers || s.conf.fixed.maxReaders == 0 || |s.readers| < s.conf.fixed.maxReaders
  }

  /** What a request for a stream leads to. A path with a stream keeps it and answers, and a reader that is let in stays
      in; a path that can get one on demand has somebody bring it, keeps the request on hold behind all others, and
      waits for a limited time; any other path answers, and keeps nothing. */
  predicate IsServed(s: State, q: Request, t: State)
    requires q.Describe? || q.AddReader?
  {
    && t.trace == s.trace + Requested(s, q) && t.stream == s.stream
    && if s.stream.Some? then
         && !t.finished && SameQueues(s, t)
         && t.readers == if q.AddReader? && HasRoom(s, q.reader) then s.readers + {q.reader} else s.readers
       else if IsOnDemand(s.conf) then
         && !t.finished && t.readers == s.readers && IsAwaited(s, t)
         && t.describesOnHold == s.describesOnHold + (if q.Describe? then [q] else [])
         && t.readersOnHold == s.readersOnHold + (if q.AddReader? then [q] else [])
       else NothingOnHold(t) && t.readers == {}
  }

  /** Somebody has been asked to bring a stream, and it is awaited from then on. */
  predicate IsAwaited(s: State, t: State) {
    if s.conf.HasOnDemandStaticSource() then t.running && t.sourceDemand.readyTimer
    else t.unDemandHook && (!s.unDemandHook ==> t.publisherDemand.readyTimer)
  }

  lemma {:induction false} DescribeIsServed(s: State, id: nat)
    requires Invariant(s)
    ensures IsServed(s, Describe(id), Step(s, DescribeRequest(id)))
  {
    DescribeDoes(s, id);
    if s.stream.None? && !IsOnDemand(s.conf) {
      UnusedKeepsNothing(DoDescribe(Emit(s, Received(Describe(id))), id));
    }
  }

  lemma {:induction false} ReaderIsServed(s: State, id: nat, reader: nat)
    requires Invariant(s)
    ensures IsServed(s, AddReader(id, reader), Step(s, AddReaderRequest(id, reader)))
  {
    AddReaderDoes(s, id, reader);
    var t := Emit(s, Received(AddReader(id, reader)));
    if s.stream.Some? {
      ReaderDoes(t, AddReader(id, reader));
      AddReaderPostFrame(t, AddReader(id, reader));
    } else if !IsOnDemand(s.conf) {
      UnusedKeepsNothing(DoAddReader(t, id, reader));
    }
  }

  lemma {:induction false} UnusedKeepsNothing(t: State)
    requires NothingOnHold(t) && t.stream.None? && t.readers == {}
    ensures var u := LeaveIfUnused(t);
            NothingOnHold(u) && u.stream.None? && u.readers == {}
  {
    ReplyAllFrame(t, [], Refused(Terminated));
  }

  /** Over every run: a request for a stream is served. */
  lemma {:induction false} EveryRequestIsServed(conf: Conf, events: seq<Event>, e: Event)
    requires conf.Valid() && Possible(Create(conf), events) && Clean(Create(conf), events)
    requires !Run(Create(conf), events).finished && (e.DescribeRequest? || e.AddReaderRequest?)
    ensures var s := Run(Create(conf), events);
            IsServed(s, if e.DescribeRequest? then Describe(e.id) else AddReader(e.id, e.reader), Step(s, e))
  {
    EveryRunIsSafe(conf, events);
    var s := Run(Create(conf), events);
    if e.DescribeRequest? {
      DescribeIsServed(s, e.id);
    } else {
      ReaderIsServed(s, e.id, e.reader);
    }
  }

  /** Nothing stays on hold when a stream comes, when the time to wait for one is over, or when the path is
      terminated. */
  lemma {:induction false} HoldEnds(s: State, e: Event)
    requires Invariant(s) && Enabled(s, e) && !FailsToInitialize(s, e) && !OpensSecondStream(s, e)
    requires OpensStream(s, e) || e.StaticReadyTimer? || e.PublisherReadyTimer? || e.Terminate?
    ensures Step(s, e).finished || NothingOnHold(Step(s, e))
  {
    if e.SourceSetReady? {
      SourceSetReadyKeeps(s);
    } else if e.AddPublisherRequest? {
      AddPublisherKeeps(Emit(s, Received(AddPublisher(e.id, e.publisher))), e.id, e.publisher);
      PublishDoes(s, e);
      PublishOpens(s, e);
    } else if e.StaticReadyTimer? {
      FlushDoes(Fire(s, e), TimedOut);
    } else if e.PublisherReadyTimer? {
      FlushDoes(Fire(s, e), TimedOut);
    }
  }

  lemma {:induction false} PublishOpens(s: State, e: Event)
    requires Invariant(s) && e.AddPublisherRequest? && OpensStream(s, e) && !FailsToInitialize(s, e)
    ensures Step(s, e).stream == Some(s.nextStream)
  {
    var q := AddPublisher(e.id, e.publisher);
    var t := OverridePublisher(Emit(s, Received(q)));
    OverrideDoes(s, q);
    var u := Publishing(t, e.publisher);
    PublishingFrame(t, e.publisher);
    SetReadyFrame(t.(source := Publisher(e.publisher)));
    ConsumeDoes(u);
    assert AcceptPublisher(t, q, true) == Emit(ConsumeOnHold(u), Replied(q, StreamReply(ConsumeOnHold(u))));
  }

  // when requests on hold are refused

  lemma {:induction false} RunIsPrefix(s: State, events: seq<Event>, n: nat)
    requires Safe(s) && Possible(s, events) && Clean(s, events) && n <= |events|
    ensures Safe(Run(s, events[..n])) && Run(s, events[..n]).trace <= Run(s, events).trace
    decreases |events|
  {
    if n == 0 {
      assert events[..0] == [];
      RunKeepsTrace(s, events);
    } else {
      StepSeen(s, events[0]);
      RunIsPrefix(Step(s, events[0]), events[1..], n - 1);
      RunOfFirst(s, events, n - 1);
    }
  }

  lemma {:induction false} NextStep(s: State, events: seq<Event>, n: nat)
    requires Safe(s) && Possible(s, events) && Clean(s, events) && n < |events|
    ensures Enabled(Run(s, events[..n]), events[n])
    ensures Run(s, events[..n + 1]) == Step(Run(s, events[..n]), events[n])
    decreases |events|
  {
    if n == 0 {
      FirstStep(s, events);
    } else {
      StepSeen(s, events[0]);
      NextStep(Step(s, events[0]), events[1..], n - 1);
      RunOfFirst(s, events, n - 1);
      RunOfFirst(s, events, n);
    }
  }

  lemma {:induction false} FirstStep(s: State, events: seq<Event>)
    requires events != []
    ensures Run(s, events[..0]) == s && Run(s, events[..1]) == Step(s, events[0])
  {
    RunOfFirst(s, events, 0);
    assert events[..0] == [] && events[1..][..0] == [];
  }

  /** What a path does when it is terminated begins with telling so. */
  lemma {:induction false} ClosedIsToldFirst(s: State, trace: seq<Action>, i: nat)
    requires Invariant(s) && Leave(s).trace <= trace && |s.trace| <= i < |Leave(s).trace| && trace[i] != NotifiedClosed
    ensures NotifiedClosed in trace[..i]
  {
    LeaveDoes(s);
    var j := |s.trace|;
    assert Leave(s).trace[j] == NotifiedClosed;
    assert trace[j] == NotifiedClosed;
    assert trace[..i][j] == NotifiedClosed;
  }

  /** An action that belongs to the n-th event is done in the n-th step. */
  lemma {:induction false} DoneInStep(s: State, events: seq<Event>, n: nat, i: nat, t: State)
    requires Safe(s) && Possible(s, events) && Clean(s, events) && n < |events| && t == Run(s, events[..n])
    requires BelongsTo(s, events, n, i)
    ensures Safe(t) && Enabled(t, events[n]) && |t.trace| <= i < |Step(t, events[n]).trace|
    ensures Step(t, events[n]).trace <= Run(s, events).trace
  {
    RunIsPrefix(s, events, n);
    RunIsPrefix(s, events, n + 1);
    NextStep(s, events, n);
  }

  lemma {:induction false} ToldBefore(s: State, events: seq<Event>, n: nat, i: nat)
    requires Safe(s) && Possible(s, events) && Clean(s, events) && n < |events| && i < |Run(s, events).trace|
    requires BelongsTo(s, events, n, i) && events[n] == Terminate && Run(s, events).trace[i] != NotifiedClosed
    ensures NotifiedClosed in Run(s, events).trace[..i]
  {
    var t := Run(s, events[..n]);
    DoneInStep(s, events, n, i, t);
    ClosedIsToldFirst(t, Run(s, events).trace, i);
  }

  /** Over every run, nobody is told that the path has been terminated before the rest of the system is. */
  lemma {:induction false} TerminatedComesLast(conf: Conf, events: seq<Event>, i: nat)
    requires conf.Valid() && Possible(Create(conf), events) && Clean(Create(conf), events)
    requires i < |Run(Create(conf), events).trace|
    ensures var trace := Run(Create(conf), events).trace;
            trace[i].Replied? && trace[i].reply == Refused(Terminated) ==> NotifiedClosed in trace[..i]
  {
    var a := Run(Create(conf), events).trace[i];
    if a.Replied? && a.reply == Refused(Terminated) {
      CreateSeen(conf);
      EveryAnswerFits(conf, events, i);
      var n: nat :| n < |events| && AnswerFits(Create(conf), events, n, i);
      ToldBefore(Create(conf), events, n, i);
    }
  }
}
