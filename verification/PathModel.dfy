/** The path event loop as a function from state and event to state. Everything a path does that
    another component can see is appended to `trace`, in order. */
module PathModel {
  import opened Options
  import opened Config

  datatype DemandState = Initial | WaitingReady | Ready | Closing

  /** An on-demand state machine with its two timers; a timer is armed or not. */
  datatype Demand = Demand(state: DemandState, readyTimer: bool, closeTimer: bool)

  const IDLE := Demand(Initial, false, false)

  datatype Source = NoSource | Redirect | Static | Publisher(id: nat)

  datatype Request =
    | Describe(id: nat)
    | AddReader(id: nat, reader: nat)
    | AddPublisher(id: nat, publisher: nat)

  type ReaderRequest = r: Request | r.AddReader? witness AddReader(0, 0)

  datatype Refusal =
    | TimedOut | Terminated | NoStreamAvailable | MaxReadersReached
    | NotAPublisherPath | AlreadyPublishing | InitializeFailed

  datatype Reply = GotStream(stream: nat) | Redirected(to: string) | Refused(why: Refusal)

  datatype Action =
    | Received(request: Request)
    | Replied(request: Request, reply: Reply)
    | StreamOpened(stream: nat) | StreamNotOpened(stream: nat) | StreamClosed(stream: nat)
    | OnReadyHook | OnNotReadyHook
    | NotifiedReady | NotifiedNotReady
    | ReaderLeft(reader: nat) | ReadersClosed(readers: set<nat>)
    | PublisherLeft(publisher: nat) | PublisherClosed(publisher: nat)
    | RecorderStarted(settings: RecordSettings) | RecorderClosed
    | SourceStarted | SourceStopped
    | OnDemandHook | OnUnDemandHook
    | NotifiedClosed
    | Destroyed

  datatype State = State(
    conf: Conf,
    source: Source,
    stream: Option<nat>,
    nextStream: nat,
    recorder: Option<RecordSettings>,
    unDemandHook: bool,
    readers: set<nat>,
    describesOnHold: seq<Request>,
    readersOnHold: seq<ReaderRequest>,
    sourceDemand: Demand,
    publisherDemand: Demand,
    running: bool,
    finished: bool,
    trace: seq<Action>)

  datatype Event =
    | StaticReadyTimer | StaticCloseTimer | PublisherReadyTimer | PublisherCloseTimer
    | ReloadConf(conf: Conf)
    | SourceSetReady(initializes: bool)
    | SourceSetNotReady
    | DescribeRequest(id: nat)
    | AddPublisherRequest(id: nat, publisher: nat, initializes: bool)
    | RemovePublisher(publisher: nat)
    | AddReaderRequest(id: nat, reader: nat)
    | RemoveReader(reader: nat)
    | Terminate

  function Emit(s: State, a: Action): State {
    s.(trace := s.trace + [a])
  }

  /** The path as it enters its event loop. */
  function Create(conf: Conf): State {
    var s := State(conf, NoSource, None, 0, None, false, {}, [], [], IDLE, IDLE, false, false, []);
    if conf.fixed.source == FromRedirect then s.(source := Redirect)
    else if conf.HasStaticSource() then
      var t := s.(source := Static);
      if conf.fixed.sourceOnDemand then t else StartSource(t)
    else s
  }

  // the static source handler, seen from the path

  function StartSource(s: State): State {
    Emit(s.(running := true), SourceStarted)
  }

  function StopSource(s: State): State {
    Emit(s.(running := false), SourceStopped)
  }

  // on-demand state machines

  function StaticStart(s: State): State {
    StartSource(s).(sourceDemand := s.sourceDemand.(readyTimer := true, state := WaitingReady))
  }

  function StaticScheduleClose(s: State): State {
    s.(sourceDemand := s.sourceDemand.(closeTimer := true, state := Closing))
  }

  function StaticStop(s: State): State {
    var d := if s.sourceDemand.state == Closing then s.sourceDemand.(closeTimer := false) else s.sourceDemand;
    StopSource(s.(sourceDemand := d.(state := Initial)))
  }

  function PublisherStart(s: State): State {
    Emit(s.(unDemandHook := true),
         OnDemandHook).(publisherDemand := s.publisherDemand.(readyTimer := true, state := WaitingReady))
  }

  function PublisherScheduleClose(s: State): State {
    s.(publisherDemand := s.publisherDemand.(closeTimer := true, state := Closing))
  }

  function PublisherStop(s: State): State {
    var d := if s.publisherDemand.state == Closing then s.publisherDemand.(closeTimer := false) else s.publisherDemand;
    Emit(s.(unDemandHook := false), OnUnDemandHook).(publisherDemand := d.(state := Initial))
  }

  // readiness

  function StartRecording(s: State): State {
    Emit(s.(recorder := Some(s.conf.hot.settings)), RecorderStarted(s.conf.hot.settings))
  }

  function CloseRecorder(s: State): State {
    if s.recorder.Some? then Emit(s.(recorder := None), RecorderClosed) else s
  }

  /** The stream is stored before it is initialized, and stays there when that fails. */
  function SetReady(s: State, initializes: bool): State {
    var k := s.nextStream;
    var t := s.(stream := Some(k), nextStream := k + 1);
    if !initializes then
      Emit(t, StreamNotOpened(k))
    else
      var u := Emit(t, StreamOpened(k));
      var v := if u.conf.hot.record then StartRecording(u) else u;
      Emit(Emit(v, OnReadyHook), NotifiedReady)
  }

  function CloseStream(s: State): State {
    match s.stream
    case Some(k) => Emit(s.(stream := None), StreamClosed(k))
    case None => s
  }

  function SetNotReady(s: State): State {
    var t := Emit(s, NotifiedNotReady);
    var u := Emit(t.(readers := {}), ReadersClosed(t.readers));
    CloseStream(CloseRecorder(Emit(u, OnNotReadyHook)))
  }

  // requests

  function ReplyAll(s: State, requests: seq<Request>, reply: Reply): State
    decreases |requests|
  {
    if requests == [] then s
    else ReplyAll(Emit(s, Replied(requests[0], reply)), requests[1..], reply)
  }

  /** Answers everything on hold in the same way. */
  function FlushOnHold(s: State, reply: Reply): State {
    var t := ReplyAll(s, s.describesOnHold, reply);
    var u := ReplyAll(t.(describesOnHold := []), s.readersOnHold, reply);
    u.(readersOnHold := [])
  }

  function StreamReply(s: State): Reply {
    match s.stream
    case Some(k) => GotStream(k)
    case None => Refused(NoStreamAvailable)
  }

  /** A closing on-demand source goes back to ready when somebody reads. */
  function KeepAlive(s: State): State {
    if s.conf.HasOnDemandStaticSource() then
      if s.sourceDemand.state == Closing then s.(sourceDemand := s.sourceDemand.(state := Ready, closeTimer := false))
        else s
    else if s.conf.HasOnDemandPublisher() then
      if s.publisherDemand.state == Closing
        then s.(publisherDemand := s.publisherDemand.(state := Ready, closeTimer := false)) else s
    else s
  }

  function AddReaderPost(s: State, request: ReaderRequest): State
  {
    if request.reader in s.readers then
      Emit(s, Replied(request, StreamReply(s)))
    else if s.conf.fixed.maxReaders != 0 && |s.readers| >= s.conf.fixed.maxReaders then
      Emit(s, Replied(request, Refused(MaxReadersReached)))
    else
      var t := KeepAlive(s.(readers := s.readers + {request.reader}));
      Emit(t, Replied(request, StreamReply(t)))
  }

  function AddReadersPost(s: State, requests: seq<ReaderRequest>): State
    decreases |requests|
  {
    if requests == [] then s
    else AddReadersPost(AddReaderPost(s, requests[0]), requests[1..])
  }

  function ConsumeOnHold(s: State): State
  {
    var t := ReplyAll(s, s.describesOnHold, StreamReply(s)).(describesOnHold := []);
    AddReadersPost(t, s.readersOnHold).(readersOnHold := [])
  }

  /** Starts the on-demand source if nobody did before. */
  function DemandStatic(s: State): State {
    if s.sourceDemand.state == Initial then StaticStart(s) else s
  }

  function DemandPublisher(s: State): State {
    if s.publisherDemand.state == Initial then PublisherStart(s) else s
  }

  function ExecuteRemovePublisher(s: State): State {
    (if s.stream.Some? then SetNotReady(s) else s).(source := NoSource)
  }

  // event handlers

  function DoStaticReadyTimer(s: State): State {
    StaticStop(FlushOnHold(s, Refused(TimedOut)))
  }

  function DoStaticCloseTimer(s: State): State {
    StaticStop(SetNotReady(s))
  }

  function DoPublisherReadyTimer(s: State): State {
    PublisherStop(FlushOnHold(s, Refused(TimedOut)))
  }

  function DoPublisherCloseTimer(s: State): State {
    PublisherStop(s)
  }

  function DoReloadConf(s: State, newConf: Conf): State {
    var t := s.(conf := newConf);
    var changed := newConf.hot.record != s.conf.hot.record || newConf.hot.settings != s.conf.hot.settings;
    var u := if changed then CloseRecorder(t) else t;
    if newConf.hot.record && u.stream.Some? && u.recorder.None? then StartRecording(u) else u
  }

  function DoSourceSetReady(s: State, initializes: bool): State
  {
    var t := SetReady(s, initializes);
    if !initializes then t
    else
      var u := if t.conf.HasOnDemandStaticSource()
               then StaticScheduleClose(t.(sourceDemand := t.sourceDemand.(readyTimer := false)))
               else t;
      ConsumeOnHold(u)
  }

  function DoSourceSetNotReady(s: State): State {
    var t := SetNotReady(s);
    if t.conf.HasOnDemandStaticSource() && t.sourceDemand.state != Initial then StaticStop(t) else t
  }

  function DoDescribe(s: State, id: nat): State {
    var request := Describe(id);
    if s.source.Redirect? then Emit(s, Replied(request, Redirected(s.conf.fixed.sourceRedirect)))
    else if s.stream.Some? then Emit(s, Replied(request, StreamReply(s)))
    else if s.conf.HasOnDemandStaticSource() then
      var t := DemandStatic(s);
      t.(describesOnHold := t.describesOnHold + [request])
    else if s.conf.HasOnDemandPublisher() then
      var t := DemandPublisher(s);
      t.(describesOnHold := t.describesOnHold + [request])
    else if s.conf.fixed.fallback != "" then Emit(s, Replied(request, Redirected(s.conf.fixed.fallback)))
    else Emit(s, Replied(request, Refused(NoStreamAvailable)))
  }

  function DoRemovePublisher(s: State, author: nat): State {
    if s.source == Publisher(author) then ExecuteRemovePublisher(Emit(s, PublisherLeft(author))) else s
  }

  function OverridePublisher(s: State): State {
    match s.source
    case Publisher(p) => ExecuteRemovePublisher(Emit(s, PublisherClosed(p)))
    case _ => s
  }

  /** Makes the author the source of a path that has none. */
  function AcceptPublisher(s: State, request: Request, initializes: bool): State
    requires request.AddPublisher?
  {
    var t := SetReady(s.(source := Publisher(request.publisher)), initializes);
    if !initializes then
      Emit(t.(source := NoSource), Replied(request, Refused(InitializeFailed)))
    else
      var u := if t.conf.HasOnDemandPublisher() && t.publisherDemand.state != Initial
               then PublisherScheduleClose(t.(publisherDemand := t.publisherDemand.(readyTimer := false)))
               else t;
      var v := ConsumeOnHold(u);
      Emit(v, Replied(request, StreamReply(v)))
  }

  function DoAddPublisher(s: State, id: nat, author: nat, initializes: bool): State {
    var request := AddPublisher(id, author);
    if s.conf.fixed.source != FromPublisher then
      Emit(s, Replied(request, Refused(NotAPublisherPath)))
    else if s.source != NoSource && !s.conf.fixed.overridePublisher then
      Emit(s, Replied(request, Refused(AlreadyPublishing)))
    else
      AcceptPublisher(OverridePublisher(s), request, initializes)
  }

  function DoAddReader(s: State, id: nat, reader: nat): State {
    var request: ReaderRequest := AddReader(id, reader);
    if s.stream.Some? then AddReaderPost(s, request)
    else if s.conf.HasOnDemandStaticSource() then
      var t := DemandStatic(s);
      t.(readersOnHold := t.readersOnHold + [request])
    else if s.conf.HasOnDemandPublisher() then
      var t := DemandPublisher(s);
      t.(readersOnHold := t.readersOnHold + [request])
    else Emit(s, Replied(request, Refused(NoStreamAvailable)))
  }

  function DoRemoveReader(s: State, reader: nat): State {
    var t := if reader in s.readers then Emit(s.(readers := s.readers - {reader}), ReaderLeft(reader)) else s;
    if t.readers != {} then t
    else if t.conf.HasOnDemandStaticSource() then
      if t.sourceDemand.state == Ready then StaticScheduleClose(t) else t
    else if t.conf.HasOnDemandPublisher() then
      if t.publisherDemand.state == Ready then PublisherScheduleClose(t) else t
    else t
  }

  predicate ShouldClose(s: State) {
    && s.conf.regexp.Some?
    && s.source == NoSource
    && s.readers == {}
    && s.describesOnHold == []
    && s.readersOnHold == []
  }

  /** Stops the static source or closes the publisher of a path that is being destroyed. */
  function ReleaseSource(s: State): State {
    match s.source
    case Static => if !s.conf.fixed.sourceOnDemand || s.sourceDemand.state != Initial then StopSource(s) else s
    case Publisher(p) => Emit(s, PublisherClosed(p))
    case _ => s
  }

  /** Undoes whatever is still in place once the requests on hold have been answered. */
  function Undo(s: State): State {
    var t := ReleaseSource(if s.stream.Some? then SetNotReady(s) else s);
    var u := if t.unDemandHook then Emit(t, OnUnDemandHook) else t;
    Emit(u.(finished := true), Destroyed)
  }

  /** What happens once the event loop has returned. Requests on hold are answered but the queues are kept. */
  function Leave(s: State): State {
    var t := Emit(s, NotifiedClosed);
    var u := t.(sourceDemand := t.sourceDemand.(readyTimer := false, closeTimer := false),
                publisherDemand := t.publisherDemand.(readyTimer := false, closeTimer := false));
    var v := ReplyAll(u, u.describesOnHold, Refused(Terminated));
    Undo(ReplyAll(v, v.readersOnHold, Refused(Terminated)))
  }

  function LeaveIfUnused(s: State): State {
    if ShouldClose(s) then Leave(s) else s
  }

  /** A firing timer is no longer armed. */
  function Fire(s: State, e: Event): State {
    match e
    case StaticReadyTimer => s.(sourceDemand := s.sourceDemand.(readyTimer := false))
    case StaticCloseTimer => s.(sourceDemand := s.sourceDemand.(closeTimer := false))
    case PublisherReadyTimer => s.(publisherDemand := s.publisherDemand.(readyTimer := false))
    case PublisherCloseTimer => s.(publisherDemand := s.publisherDemand.(closeTimer := false))
    case _ => s
  }

  /** One iteration of the event loop. */
  function Step(s: State, e: Event): State
  {
    match e
    case StaticReadyTimer => LeaveIfUnused(DoStaticReadyTimer(Fire(s, e)))
    case StaticCloseTimer => LeaveIfUnused(DoStaticCloseTimer(Fire(s, e)))
    case PublisherReadyTimer => LeaveIfUnused(DoPublisherReadyTimer(Fire(s, e)))
    case PublisherCloseTimer => DoPublisherCloseTimer(Fire(s, e))
    case ReloadConf(newConf) => DoReloadConf(s, newConf)
    case SourceSetReady(initializes) => DoSourceSetReady(s, initializes)
    case SourceSetNotReady => LeaveIfUnused(DoSourceSetNotReady(s))
    case DescribeRequest(id) => LeaveIfUnused(DoDescribe(Emit(s, Received(Describe(id))), id))
    case AddPublisherRequest(id, p, initializes) =>
      DoAddPublisher(Emit(s, Received(AddPublisher(id, p))), id, p, initializes)
    case RemovePublisher(p) => LeaveIfUnused(DoRemovePublisher(s, p))
    case AddReaderRequest(id, r) => LeaveIfUnused(DoAddReader(Emit(s, Received(AddReader(id, r))), id, r))
    case RemoveReader(r) => DoRemoveReader(s, r)
    case Terminate => Leave(s)
  }
}
