/** A path together with its static source: the events of PathModel, each handled while the three
    processes of SourceProtocol take their steps. What the protocol lets the path receive is exactly
    what the path model calls a possible event, and streams overlap only on a path that had been cancelled. */
module PathAndSource {
  import opened Options
  import opened Config
  import opened PathModel
  import opened PathSafety
  import opened PathRuns
  import opened PathFailures
  import P = SourceProtocol

  predicate IsPathStep(a: P.Step) {
    match a
    case StartSource => true
    case StopSource => true
    case ReceiveReady => true
    case RefuseReady => true
    case AcceptReady => true
    case ReceiveNotReady => true
    case AnswerNotReady => true
    case KeepRunning => true
    case StopAfterNotReady => true
    case SeeDone => true
    case _ => false
  }

  /** The steps that the path itself takes among these. */
  function PathSteps(steps: seq<P.Step>): seq<P.Step> {
    if steps == [] then []
    else (if IsPathStep(steps[0]) then [steps[0]] else []) + PathSteps(steps[1..])
  }

  /** The steps that handling an event consists of, as far as the source is concerned. */
  function StepsOf(s: State, e: Event): seq<P.Step> {
    var t := Step(s, e);
    StepsFor(e, !s.running && t.running, s.running && !t.running)
  }

  function StepsFor(e: Event, starts: bool, stops: bool): seq<P.Step> {
    match e
    case SourceSetReady(initializes) => [P.ReceiveReady, if initializes then P.AcceptReady else P.RefuseReady]
    case SourceSetNotReady =>
      [P.ReceiveNotReady, P.AnswerNotReady] + (if stops then [P.StopAfterNotReady, P.SeeDone] else [P.KeepRunning])
    case _ => if starts then [P.StartSource] else if stops then [P.StopSource, P.SeeDone] else []
  }

  /** The path handles an event, while the others go on; or the others go on alone. */
  datatype Item = Handles(event: Event, steps: seq<P.Step>) | Others(steps: seq<P.Step>)

  predicate IsSourceEvent(e: Event) {
    e.SourceSetReady? || e.SourceSetNotReady?
  }

  /** Nothing is required of source events but that the protocol delivers them. */
  predicate CanHappen(s: State, p: P.State, i: Item) {
    && P.Possible(p, i.steps)
    && match i
       case Handles(e, steps) =>
         !s.finished && PathSteps(steps) == StepsOf(s, e) && (IsSourceEvent(e) || Enabled(s, e))
       case Others(steps) => PathSteps(steps) == []
  }

  function After(s: State, i: Item): State {
    if i.Handles? then Step(s, i.event) else s
  }

  predicate IsJointRun(s: State, p: P.State, items: seq<Item>)
    decreases |items|
  {
    items == [] || (CanHappen(s, p, items[0]) && IsJointRun(After(s, items[0]), P.Run(p, items[0].steps), items[1..]))
  }

  function Events(items: seq<Item>): seq<Event> {
    if items == [] then []
    else (if items[0].Handles? then [items[0].event] else []) + Events(items[1..])
  }

  /** The protocol as it is when the path enters its event loop. */
  function Begin(conf: Conf): P.State {
    if conf.fixed.sourceOnDemand then P.START else P.Apply(P.START, P.StartSource)
  }

  /** Whether the path had been cancelled when it received a set-ready request. */
  predicate ReceivesLate(p: P.State, steps: seq<P.Step>)
    requires P.Possible(p, steps)
    decreases |steps|
  {
    steps != [] &&
    (if steps[0] == P.ReceiveReady then p.pathCancelled else ReceivesLate(P.Apply(p, steps[0]), steps[1..]))
  }

  predicate NothingIsLate(s: State, p: P.State, items: seq<Item>)
    requires IsJointRun(s, p, items)
    decreases |items|
  {
    items == [] ||
    (!ReceivesLate(p, items[0].steps) && NothingIsLate(After(s, items[0]), P.Run(p, items[0].steps), items[1..]))
  }

  // the part of the protocol that only the path changes

  datatype Part = Part(path: P.PathAt, running: bool, stream: bool)

  function PartOf(p: P.State): Part {
    Part(p.path, p.running, p.stream)
  }

  function ApplyPart(c: Part, a: P.Step): Part {
    match a
    case StartSource => c.(running := true)
    case StopSource => Part(P.Stopping, false, false)
    case ReceiveReady => c.(path := P.Opening)
    case RefuseReady => c.(path := P.Waiting)
    case AcceptReady => c.(path := P.Waiting, stream := true)
    case ReceiveNotReady => c.(path := P.Closing)
    case AnswerNotReady => c.(path := P.Deciding, stream := false)
    case KeepRunning => c.(path := P.Waiting)
    case StopAfterNotReady => Part(P.Stopping, false, false)
    case SeeDone => c.(path := P.Waiting)
    case _ => c
  }

  function RunPart(c: Part, steps: seq<P.Step>): Part
    decreases |steps|
  {
    if steps == [] then c else RunPart(ApplyPart(c, steps[0]), steps[1..])
  }

  lemma {:induction false} PartStep(p: P.State, a: P.Step)
    requires P.Enabled(p, a)
    ensures PartOf(P.Apply(p, a)) == ApplyPart(PartOf(p), a)
    ensures !IsPathStep(a) ==> PartOf(P.Apply(p, a)) == PartOf(p)
  {
  }

  lemma {:induction false} PathStepsOf(a: P.Step, rest: seq<P.Step>, c: Part)
    ensures PathSteps([a] + rest) == (if IsPathStep(a) then [a] else []) + PathSteps(rest)
    ensures IsPathStep(a) ==> RunPart(c, PathSteps([a] + rest)) == RunPart(ApplyPart(c, a), PathSteps(rest))
    ensures !IsPathStep(a) ==> PathSteps([a] + rest) == PathSteps(rest)
  {
    assert ([a] + rest)[1..] == rest && ([a] + PathSteps(rest))[1..] == PathSteps(rest);
    assert [] + PathSteps(rest) == PathSteps(rest);
  }

  lemma {:induction false} PartIsThePaths(p: P.State, steps: seq<P.Step>)
    requires P.Invariant(p) && P.Possible(p, steps)
    ensures PartOf(P.Run(p, steps)) == RunPart(PartOf(p), PathSteps(steps)) && P.Invariant(P.Run(p, steps))
    decreases |steps|
  {
    if steps != [] {
      PartStep(p, steps[0]);
      P.StepKeeps(p, steps[0]);
      PartIsThePaths(P.Apply(p, steps[0]), steps[1..]);
      assert steps == [steps[0]] + steps[1..];
      PathStepsOf(steps[0], steps[1..], PartOf(p));
    }
  }

  lemma {:induction false} FitsNow(p: P.State)
    requires P.Invariant(p)
    ensures P.Enabled(p, P.ReceiveReady) ==> p.running && (p.stream ==> p.pathCancelled)
    ensures P.Enabled(p, P.ReceiveNotReady) ==> p.running && p.stream
  {
  }

  /** What the path finds when it receives a source event: SourceProtocol.SourceEventsFitThePath. */
  lemma {:induction false} ReceivedInTime(p: P.State, steps: seq<P.Step>)
    requires P.Invariant(p) && P.Possible(p, steps) && PathSteps(steps) != []
    ensures PathSteps(steps)[0] == P.ReceiveReady ==> p.running && (p.stream ==> ReceivesLate(p, steps))
    ensures PathSteps(steps)[0] == P.ReceiveNotReady ==> p.running && p.stream
    decreases |steps|
  {
    var a, rest := steps[0], steps[1..];
    assert steps == [a] + rest;
    PathStepsOf(a, rest, PartOf(p));
    if IsPathStep(a) {
      FitsNow(p);
    } else {
      PartStep(p, a);
      P.StepKeeps(p, a);
      ReceivedInTime(P.Apply(p, a), rest);
      assert ReceivesLate(p, steps) == ReceivesLate(P.Apply(p, a), rest);
    }
  }

  lemma {:induction false} RunPartOfTwo(c: Part, a: P.Step, b: P.Step)
    ensures RunPart(c, []) == c && RunPart(c, [a]) == ApplyPart(c, a)
    ensures RunPart(c, [a, b]) == ApplyPart(ApplyPart(c, a), b)
  {
    assert [a, b][1..] == [b] && [a][1..] == [] && [b][1..] == [];
    assert RunPart(ApplyPart(c, a), [b]) == ApplyPart(ApplyPart(c, a), b);
  }

  lemma {:induction false} RunPartOfMore(c: Part, a: P.Step, b: P.Step, rest: seq<P.Step>)
    ensures RunPart(c, [a, b] + rest) == RunPart(ApplyPart(ApplyPart(c, a), b), rest)
  {
    var all := [a, b] + rest;
    assert all[1..] == [b] + rest && ([b] + rest)[1..] == rest;
    assert RunPart(c, all) == RunPart(ApplyPart(c, a), [b] + rest);
  }

  /** Where the steps of an event leave the path's part of the protocol, if that is where it waits. */
  lemma {:induction false} PartAfter(e: Event, starts: bool, stops: bool, c: Part)
    requires c.path == P.Waiting && (!c.running ==> !c.stream) && (starts ==> !c.running) && (stops ==> c.running)
    requires IsSourceEvent(e) ==> c.running
    ensures var d := RunPart(c, StepsFor(e, starts, stops));
            && d.path == P.Waiting
            && d.running == (if e.SourceSetReady? then true else (c.running || starts) && !stops)
            && d.stream == (if e.SourceSetReady? then c.stream || e.initializes
                            else c.stream && !stops && !e.SourceSetNotReady?)
  {
    match e
    case SourceSetReady(initializes) => RunPartOfTwo(c, P.ReceiveReady,
                                                     if initializes then P.AcceptReady else P.RefuseReady);
    case SourceSetNotReady =>
      var d := ApplyPart(ApplyPart(c, P.ReceiveNotReady), P.AnswerNotReady);
      RunPartOfMore(c, P.ReceiveNotReady, P.AnswerNotReady,
                    if stops then [P.StopAfterNotReady, P.SeeDone] else [P.KeepRunning]);
      RunPartOfTwo(d, P.KeepRunning, P.KeepRunning);
      RunPartOfTwo(d, P.StopAfterNotReady, P.SeeDone);
    case _ =>
      RunPartOfTwo(c, P.StartSource, P.StartSource);
      RunPartOfTwo(c, P.StopSource, P.SeeDone);
  }

  // the part of the path that the source depends on, whether or not the path is safe

  predicate DemandFits(s: State) {
    var d := s.sourceDemand;
    if s.conf.fixed.sourceOnDemand then
      && (d.readyTimer <==> d.state == WaitingReady)
      && (d.closeTimer <==> d.state == Closing)
      && (s.running <==> d.state != Initial)
    else
      d == IDLE && s.running
  }

  /** The path can have a stream of its source. */
  predicate CanHaveStream(s: State) {
    s.conf.fixed.sourceOnDemand ==> s.sourceDemand.state == Ready || s.sourceDemand.state == Closing
  }

  predicate IsPulling(s: State) {
    && s.conf.Valid() && s.conf.HasStaticSource()
    && (!s.finished ==> s.source == Static && DemandFits(s))
  }

  /** The two models agree on whether the source is running and on a stream that it has. */
  predicate Agree(s: State, p: P.State) {
    && IsPulling(s) && P.Invariant(p)
    && (!s.finished ==>
          && p.path == P.Waiting && p.running == s.running
          && (p.stream ==> s.stream.Some? && CanHaveStream(s)))
  }

  /** They even agree on whether there is a stream. */
  predicate AgreeExactly(s: State, p: P.State) {
    Agree(s, p) && (!s.finished ==> (s.stream.Some? <==> p.stream))
  }

  lemma {:induction false} AddReadersPostPulling(s: State, qs: seq<ReaderRequest>)
    requires IsPulling(s) && !s.finished
    ensures var t := AddReadersPost(s, qs);
            && IsPulling(t) && !t.finished && t.stream == s.stream && t.running == s.running
            && (CanHaveStream(t) <==> CanHaveStream(s))
    decreases |qs|
  {
    if qs != [] {
      AddReaderPostPulling(s, qs[0]);
      AddReadersPostPulling(AddReaderPost(s, qs[0]), qs[1..]);
    }
  }

  lemma {:induction false} AddReaderPostPulling(s: State, q: ReaderRequest)
    requires IsPulling(s) && !s.finished
    ensures var t := AddReaderPost(s, q);
            && IsPulling(t) && !t.finished && t.stream == s.stream && t.running == s.running
            && (CanHaveStream(t) <==> CanHaveStream(s))
  {
  }

  lemma {:induction false} SetReadyPulling(s: State, initializes: bool)
    requires IsPulling(s) && !s.finished && s.running
    ensures var t := DoSourceSetReady(s, initializes);
            && IsPulling(t) && !t.finished && t.stream.Some? && t.running
            && (initializes || CanHaveStream(s) ==> CanHaveStream(t))
  {
    if initializes {
      var t := SetReady(s, true);
      SetReadyFrame(s);
      var u := if t.conf.HasOnDemandStaticSource()
               then StaticScheduleClose(t.(sourceDemand := t.sourceDemand.(readyTimer := false)))
               else t;
      ReplyAllFrame(u, u.describesOnHold, StreamReply(u));
      AddReadersPostPulling(ReplyAll(u, u.describesOnHold, StreamReply(u)).(describesOnHold := []), u.readersOnHold);
    }
  }

  /** What an event that does not come from the source does to all this. */
  predicate GoesOn(s: State, t: State) {
    && IsPulling(t)
    && (!t.finished ==>
          || (t.running == s.running && t.stream == s.stream && (CanHaveStream(s) ==> CanHaveStream(t)))
          || (t.running && !s.running && t.stream == s.stream)
          || (!t.running && s.running && (t.stream.None? || (t.stream == s.stream && !CanHaveStream(s)))))
  }

  lemma {:induction false} TimerPulling(s: State, e: Event)
    requires IsPulling(s) && Enabled(s, e)
    requires e.StaticReadyTimer? || e.StaticCloseTimer? || e.PublisherReadyTimer? || e.PublisherCloseTimer?
    ensures GoesOn(s, Step(s, e))
  {
    FlushOnHoldFrame(Fire(s, e), Refused(TimedOut));
    SetNotReadyFrame(Fire(s, e));
  }

  lemma {:induction false} DescribePulling(s: State, id: nat)
    requires IsPulling(s) && !s.finished
    ensures GoesOn(s, Step(s, DescribeRequest(id)))
  {
    assert DoDescribe(s, id).source == Static;
  }

  lemma {:induction false} AddReaderPulling(s: State, id: nat, reader: nat)
    requires IsPulling(s) && !s.finished
    ensures GoesOn(s, Step(s, AddReaderRequest(id, reader)))
  {
    AddReaderPostPulling(Emit(s, Received(AddReader(id, reader))), AddReader(id, reader));
  }

  lemma {:induction false} PublisherPulling(s: State, e: Event)
    requires IsPulling(s) && !s.finished && (e.AddPublisherRequest? || e.RemovePublisher?)
    ensures GoesOn(s, Step(s, e))
  {
  }

  lemma {:induction false} RemoveReaderPulling(s: State, reader: nat)
    requires IsPulling(s) && !s.finished
    ensures GoesOn(s, Step(s, RemoveReader(reader)))
  {
  }

  lemma {:induction false} ReloadPulling(s: State, newConf: Conf)
    requires IsPulling(s) && Enabled(s, ReloadConf(newConf))
    ensures GoesOn(s, Step(s, ReloadConf(newConf)))
  {
    assert newConf.fixed == s.conf.fixed;
  }

  lemma {:induction false} TerminatePulling(s: State)
    requires IsPulling(s)
    ensures GoesOn(s, Step(s, Terminate))
  {
    LeaveFinishes(s);
  }

  lemma {:induction false} OtherPulling(s: State, e: Event)
    requires IsPulling(s) && Enabled(s, e) && !IsSourceEvent(e)
    ensures GoesOn(s, Step(s, e))
  {
    match e
    case ReloadConf(newConf) => ReloadPulling(s, newConf);
    case DescribeRequest(id) => DescribePulling(s, id);
    case AddReaderRequest(id, r) => AddReaderPulling(s, id, r);
    case AddPublisherRequest(_, _, _) => PublisherPulling(s, e);
    case RemovePublisher(_) => PublisherPulling(s, e);
    case RemoveReader(r) => RemoveReaderPulling(s, r);
    case Terminate => TerminatePulling(s);
    case _ => TimerPulling(s, e);
  }

  lemma {:induction false} LeaveFinishes(s: State)
    ensures Leave(s).finished && Leave(s).conf == s.conf
  {
    var t := Emit(s, NotifiedClosed);
    var u := t.(sourceDemand := t.sourceDemand.(readyTimer := false, closeTimer := false),
                publisherDemand := t.publisherDemand.(readyTimer := false, closeTimer := false));
    ReplyAllFrame(u, u.describesOnHold, Refused(Terminated));
    var v := ReplyAll(u, u.describesOnHold, Refused(Terminated));
    ReplyAllFrame(v, v.readersOnHold, Refused(Terminated));
    UndoFinishes(ReplyAll(v, v.readersOnHold, Refused(Terminated)));
  }

  lemma {:induction false} UndoFinishes(s: State)
    ensures Undo(s).finished && Undo(s).conf == s.conf
  {
    SetNotReadyFrame(s);
  }

  lemma {:induction false} SetNotReadyPulling(s: State)
    requires IsPulling(s) && Enabled(s, SourceSetNotReady) && CanHaveStream(s)
    ensures var t := Step(s, SourceSetNotReady);
            IsPulling(t) && !t.finished && t.stream.None?
  {
    SetNotReadyFrame(s);
  }

  // joint runs

  lemma {:induction false} EventCanHappen(s: State, p: P.State, i: Item)
    requires Agree(s, p) && CanHappen(s, p, i) && i.Handles?
    ensures Enabled(s, i.event)
    ensures i.event.SourceSetReady? && p.stream ==> ReceivesLate(p, i.steps)
    ensures i.event.SourceSetNotReady? ==> CanHaveStream(s)
  {
    if IsSourceEvent(i.event) {
      ReceivedInTime(p, i.steps);
    }
  }

  /** What one event does to both models, the new states given by what matters of them. */
  lemma {:induction false} EventKeepsAgreement(s: State, p: P.State, e: Event, t: State, q: P.State)
    requires Agree(s, p) && !s.finished && P.Invariant(q) && (IsSourceEvent(e) ==> s.running)
    requires PartOf(q) == RunPart(PartOf(p), StepsFor(e, !s.running && t.running, s.running && !t.running))
    requires match e
             case SourceSetReady(initializes) =>
               IsPulling(t) && !t.finished && t.stream.Some? && t.running &&
                 (initializes || CanHaveStream(s) ==> CanHaveStream(t))
             case SourceSetNotReady => IsPulling(t) && !t.finished && t.stream.None?
             case _ => GoesOn(s, t)
    ensures Agree(t, q)
    ensures AgreeExactly(s, p) && (e.SourceSetReady? ==> e.initializes) ==> AgreeExactly(t, q)
  {
    PartAfter(e, !s.running && t.running, s.running && !t.running, PartOf(p));
  }

  lemma {:induction false} ItemKeepsAgreement(s: State, p: P.State, i: Item)
    requires Agree(s, p) && CanHappen(s, p, i)
    ensures Agree(After(s, i), P.Run(p, i.steps))
    ensures AgreeExactly(s, p) && (i.Handles? ==> !FailsToInitialize(s, i.event)) ==>
              AgreeExactly(After(s, i), P.Run(p, i.steps))
  {
    PartIsThePaths(p, i.steps);
    if i.Handles? {
      var e := i.event;
      EventCanHappen(s, p, i);
      EventStep(s, e, Step(s, e));
      EventKeepsAgreement(s, p, e, Step(s, e), P.Run(p, i.steps));
    }
  }

  lemma {:induction false} EventStep(s: State, e: Event, t: State)
    requires IsPulling(s) && Enabled(s, e) && t == Step(s, e) && (e.SourceSetNotReady? ==> CanHaveStream(s))
    ensures match e
             case SourceSetReady(initializes) =>
               IsPulling(t) && !t.finished && t.stream.Some? && t.running &&
                 (initializes || CanHaveStream(s) ==> CanHaveStream(t))
             case SourceSetNotReady => IsPulling(t) && !t.finished && t.stream.None?
             case _ => GoesOn(s, t)
  {
    match e
    case SourceSetReady(initializes) => SetReadyPulling(s, initializes);
    case SourceSetNotReady => SetNotReadyPulling(s);
    case _ => OtherPulling(s, e);
  }

  /** What the protocol delivers, the path model calls possible. */
  lemma {:induction false} JointRunIsPossible(s: State, p: P.State, items: seq<Item>)
    requires Agree(s, p) && IsJointRun(s, p, items)
    ensures Possible(s, Events(items))
    decreases |items|
  {
    if items != [] {
      var i, t := items[0], After(s, items[0]);
      ItemKeepsAgreement(s, p, i);
      JointRunIsPossible(t, P.Run(p, i.steps), items[1..]);
      if i.Handles? {
        EventCanHappen(s, p, i);
        assert ([i.event] + Events(items[1..]))[1..] == Events(items[1..]);
      } else {
        assert [] + Events(items[1..]) == Events(items[1..]);
      }
    }
  }

  lemma {:induction false} EventsOf(i: Item, rest: seq<Item>)
    ensures Events([i] + rest) == (if i.Handles? then [i.event] else []) + Events(rest)
    ensures i.Handles? ==> Events([i] + rest)[0] == i.event && Events([i] + rest)[1..] == Events(rest)
    ensures i.Others? ==> Events([i] + rest) == Events(rest)
  {
    assert ([i] + rest)[1..] == rest;
    assert [] + Events(rest) == Events(rest);
  }

  /** The source brings a stream on top of the one that it has brought before. */
  predicate BringsOnTop(p: P.State, i: Item) {
    i.Handles? && i.event.SourceSetReady? && p.stream
  }

  predicate NothingIsOnTop(s: State, p: P.State, items: seq<Item>)
    requires IsJointRun(s, p, items)
    decreases |items|
  {
    items == [] ||
    (!BringsOnTop(p, items[0]) && NothingIsOnTop(After(s, items[0]), P.Run(p, items[0].steps), items[1..]))
  }

  /** What overlaps for the path is what the source brings on top. */
  lemma {:induction false} OverlapIff(s: State, p: P.State, items: seq<Item>)
    requires AgreeExactly(s, p) && IsJointRun(s, p, items) && StreamsInitialize(s, Events(items))
    ensures StreamsDoNotOverlap(s, Events(items)) <==> NothingIsOnTop(s, p, items)
    decreases |items|
  {
    if items != [] {
      var i, t := items[0], After(s, items[0]);
      assert items == [i] + items[1..];
      EventsOf(i, items[1..]);
      ItemKeepsAgreement(s, p, i);
      OverlapIff(t, P.Run(p, i.steps), items[1..]);
    }
  }

  /** A source brings a stream on top of another one only to a path that has been cancelled before. */
  lemma {:induction false} InTimeMeansNoOverlap(s: State, p: P.State, items: seq<Item>)
    requires Agree(s, p) && IsJointRun(s, p, items) && NothingIsLate(s, p, items)
    ensures NothingIsOnTop(s, p, items)
    decreases |items|
  {
    if items != [] {
      var i := items[0];
      if i.Handles? {
        EventCanHappen(s, p, i);
      }
      ItemKeepsAgreement(s, p, i);
      InTimeMeansNoOverlap(After(s, i), P.Run(p, i.steps), items[1..]);
    }
  }

  lemma {:induction false} BeginAgrees(conf: Conf)
    requires conf.Valid() && conf.HasStaticSource()
    ensures AgreeExactly(Create(conf), Begin(conf))
  {
  }

  /** A path and its source together: every run delivers only events that are possible, and it is safe if and only
      if every stream can be initialized and none is brought on top of another one, which the source does only to
      a path that has been cancelled. */
  lemma {:induction false} SourceKeepsThePathSafe(conf: Conf, items: seq<Item>)
    requires conf.Valid() && conf.HasStaticSource() && IsJointRun(Create(conf), Begin(conf), items)
    ensures Possible(Create(conf), Events(items))
    ensures Safe(Run(Create(conf), Events(items))) <==>
            StreamsInitialize(Create(conf), Events(items)) && NothingIsOnTop(Create(conf), Begin(conf), items)
    ensures NothingIsLate(Create(conf), Begin(conf), items) ==> NothingIsOnTop(Create(conf), Begin(conf), items)
  {
    BeginAgrees(conf);
    JointRunIsPossible(Create(conf), Begin(conf), items);
    RunIsSafeIff(conf, Events(items));
    if StreamsInitialize(Create(conf), Events(items)) {
      OverlapIff(Create(conf), Begin(conf), items);
    }
    if NothingIsLate(Create(conf), Begin(conf), items) {
      InTimeMeansNoOverlap(Create(conf), Begin(conf), items);
    }
  }

  // the condition is needed

  lemma {:induction false} OneMoreStep(p: P.State, a: P.Step, rest: seq<P.Step>)
    requires P.Enabled(p, a) && P.Possible(P.Apply(p, a), rest)
    ensures P.Possible(p, [a] + rest) && P.Run(p, [a] + rest) == P.Run(P.Apply(p, a), rest)
    ensures PathSteps([a] + rest) == (if IsPathStep(a) then [a] else []) + PathSteps(rest)
  {
    assert ([a] + rest)[1..] == rest;
  }

  /** A working instance, its handler at the head of its loop, and a path that waits. */
  function Pumping(ready: bool, stream: bool, pathCancelled: bool): P.State {
    P.State(P.Waiting, P.Selecting, P.Working(ready), true, stream, false, false, false, pathCancelled, false)
  }

  /** The handler holds the request of an instance to which the path has not listened yet. */
  function Offering(stream: bool, pathCancelled: bool): P.State {
    P.State(P.Waiting, P.ForwardingReady, P.AwaitingReady, true, stream, false, false, false, pathCancelled, false)
  }

  lemma {:induction false} AcceptedStream(stream: bool, pathCancelled: bool, steps: seq<P.Step>)
    requires steps == [P.ReceiveReady, P.AcceptReady]
    ensures var p := Offering(stream, pathCancelled);
            && P.Possible(p, steps) && P.Run(p, steps) == Pumping(true, true, pathCancelled) &&
               PathSteps(steps) == steps
  {
    var p := Offering(stream, pathCancelled);
    OneMoreStep(P.Apply(p, P.ReceiveReady), P.AcceptReady, []);
    OneMoreStep(p, P.ReceiveReady, [P.AcceptReady]);
  }

  lemma {:induction false} OfferedStream(stream: bool, pathCancelled: bool, accept: seq<P.Step>)
    requires accept == [P.ReceiveReady, P.AcceptReady]
    ensures var p, steps := Pumping(false, stream, pathCancelled), [P.Offer, P.TakeReady] + accept;
            && P.Possible(p, steps) && P.Run(p, steps) == Pumping(true, true, pathCancelled) &&
               PathSteps(steps) == accept
  {
    var p := Pumping(false, stream, pathCancelled);
    AcceptedStream(stream, pathCancelled, accept);
    OneMoreStep(P.Apply(p, P.Offer), P.TakeReady, accept);
    OneMoreStep(p, P.Offer, [P.TakeReady] + accept);
    assert [P.Offer] + ([P.TakeReady] + accept) == [P.Offer, P.TakeReady] + accept;
  }

  /** An instance that closes its stream while the path, which is cancelled, does not answer. */
  function ClosingUnheard(): P.State {
    P.State(P.Waiting, P.ForwardingNotReady, P.AwaitingNotReady, true, true, false, false, false, true, false)
  }

  lemma {:induction false} UnheardRestart(steps: seq<P.Step>)
    requires steps == [P.DropNotReadyPath, P.TakeError, P.Recreate]
    ensures var p := ClosingUnheard();
            && P.Possible(p, steps) && P.Run(p, steps) == Pumping(false, true, true) && PathSteps(steps) == []
  {
    var p := ClosingUnheard();
    var q := P.Apply(p, P.DropNotReadyPath);
    var r := P.Apply(q, P.TakeError);
    OneMoreStep(r, P.Recreate, []);
    OneMoreStep(q, P.TakeError, [P.Recreate]);
    OneMoreStep(p, P.DropNotReadyPath, [P.TakeError, P.Recreate]);
  }

  lemma {:induction false} RestartedInstance(restart: seq<P.Step>)
    requires restart == [P.DropNotReadyPath, P.TakeError, P.Recreate]
    ensures var p, steps := Pumping(true, true, false), [P.CancelPath, P.CloseStream, P.TakeNotReady] + restart;
            && P.Possible(p, steps) && P.Run(p, steps) == Pumping(false, true, true) && PathSteps(steps) == []
  {
    var p := Pumping(true, true, false);
    var q := P.Apply(p, P.CancelPath);
    var r := P.Apply(q, P.CloseStream);
    UnheardRestart(restart);
    OneMoreStep(r, P.TakeNotReady, restart);
    OneMoreStep(q, P.CloseStream, [P.TakeNotReady] + restart);
    OneMoreStep(p, P.CancelPath, [P.CloseStream] + ([P.TakeNotReady] + restart));
    assert [P.CancelPath] + ([P.CloseStream] + ([P.TakeNotReady] + restart)) ==
           [P.CancelPath, P.CloseStream, P.TakeNotReady] + restart;
  }

  lemma {:induction false} OneMoreItem(s: State, p: P.State, i: Item, rest: seq<Item>)
    requires CanHappen(s, p, i) && IsJointRun(After(s, i), P.Run(p, i.steps), rest)
    ensures IsJointRun(s, p, [i] + rest)
    ensures Events([i] + rest) == (if i.Handles? then [i.event] else []) + Events(rest)
  {
    assert ([i] + rest)[1..] == rest;
  }

  lemma {:induction false} LateItem(s: State, cancelled: bool, offer: seq<P.Step>)
    requires IsPullConf(s.conf) && s == Pulling(s.conf, if cancelled then 1 else 0, s.trace)
    requires offer == [P.Offer, P.TakeReady] + [P.ReceiveReady, P.AcceptReady]
    ensures var p, i := Pumping(false, cancelled, cancelled), Handles(SourceSetReady(true), offer);
            && CanHappen(s, p, i) && P.Run(p, i.steps) == Pumping(true, true, cancelled)
            && After(s, i) == Pulling(s.conf, if cancelled then 2 else 1, After(s, i).trace)
  {
    OfferedStream(cancelled, cancelled, [P.ReceiveReady, P.AcceptReady]);
    PulledStep(s, if cancelled then 1 else 0);
  }

  lemma {:induction false} OnTopIsUnsafe(conf: Conf, items: seq<Item>, i: Item, o: Item)
    requires conf.Valid() && conf.HasStaticSource() && IsJointRun(Create(conf), Begin(conf), items) &&
             items == [i, o, i]
    requires i.Handles? && i.event.SourceSetReady? && o.Others?
    requires P.Possible(Begin(conf), i.steps) && P.Possible(P.Run(Begin(conf), i.steps), o.steps)
    requires P.Run(P.Run(Begin(conf), i.steps), o.steps).stream
    ensures !Safe(Run(Create(conf), Events(items)))
  {
    SourceKeepsThePathSafe(conf, items);
    assert items[1..] == [o, i] && [o, i][1..] == [i];
    var s, p := After(Create(conf), i), P.Run(Begin(conf), i.steps);
    assert IsJointRun(s, p, [o, i]) && IsJointRun(After(s, o), P.Run(p, o.steps), [i]);
    assert BringsOnTop(P.Run(p, o.steps), i);
    assert !NothingIsOnTop(After(s, o), P.Run(p, o.steps), [i]);
    assert !NothingIsOnTop(s, p, [o, i]);
  }

  /** A joint run in which a cancelled path receives a second stream and which is not safe;
      PathFailures.SecondStreamExample shows what becomes of the first stream. */
  lemma {:induction false} LateStreamExample(conf: Conf, offer: seq<P.Step>, restart: seq<P.Step>)
    requires IsPullConf(conf)
    requires offer == [P.Offer, P.TakeReady] + [P.ReceiveReady, P.AcceptReady]
    requires restart == [P.DropNotReadyPath, P.TakeError, P.Recreate]
    ensures var i, o := Handles(SourceSetReady(true), offer),
            Others([P.CancelPath, P.CloseStream, P.TakeNotReady] + restart);
            && IsJointRun(Create(conf), Begin(conf), [i, o, i])
            && Events([i, o, i]) == [SourceSetReady(true), SourceSetReady(true)]
            && !Safe(Run(Create(conf), Events([i, o, i])))
  {
    var i, o := Handles(SourceSetReady(true), offer), Others([P.CancelPath, P.CloseStream, P.TakeNotReady] + restart);
    var s := Create(conf);
    var t := After(s, i);
    LateItem(s, false, offer);
    RestartedInstance(restart);
    LateItem(t, true, offer);
    OneMoreItem(t, Pumping(false, true, true), i, []);
    OneMoreItem(t, Pumping(true, true, false), o, [i]);
    OneMoreItem(s, Begin(conf), i, [o, i]);
    assert [i] + [o, i] == [i, o, i] && [o] + [i] == [o, i] && [i] + [] == [i];
    OnTopIsUnsafe(conf, [i, o, i], i, o);
  }
}
