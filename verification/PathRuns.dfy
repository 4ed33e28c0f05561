/** Whole runs of a path, from its creation to its destruction. */
module PathRuns {
  import opened Options
  import opened Config
  import opened PathModel
  import opened PathSafety

  function Run(s: State, events: seq<Event>): State
    decreases |events|
  {
    if events == [] then s else Run(Step(s, events[0]), events[1..])
  }

  /** The rest of the system can deliver these events, one after the other. */
  predicate Possible(s: State, events: seq<Event>)
    decreases |events|
  {
    events == [] || (Enabled(s, events[0]) && Possible(Step(s, events[0]), events[1..]))
  }

  predicate StreamsInitialize(s: State, events: seq<Event>)
    decreases |events|
  {
    events == [] || (!FailsToInitialize(s, events[0]) && StreamsInitialize(Step(s, events[0]), events[1..]))
  }

  predicate StreamsDoNotOverlap(s: State, events: seq<Event>)
    decreases |events|
  {
    events == [] || (!OpensSecondStream(s, events[0]) && StreamsDoNotOverlap(Step(s, events[0]), events[1..]))
  }

  /** Every stream that is opened can be initialized and meets a path without stream. */
  predicate Clean(s: State, events: seq<Event>) {
    StreamsInitialize(s, events) && StreamsDoNotOverlap(s, events)
  }

  lemma {:induction false} CreateSeen(conf: Conf)
    requires conf.Valid()
    ensures Good(Create(conf))
  {
    var s := State(conf, NoSource, None, 0, None, false, {}, [], [], IDLE, IDLE, false, false, []);
    assert Follows(conf.fixed.maxReaders, [], [START]);
    assert Bag([]) + Bag([]) == multiset{};
    assert Seen(s, START);
    if conf.HasStaticSource() && !conf.fixed.sourceOnDemand {
      Emitted(s.(source := Static, running := true), START, SourceStarted, START.(running := true));
    }
  }

  lemma {:induction false} RunIsSafe(s: State, events: seq<Event>)
    requires Safe(s) && Possible(s, events) && Clean(s, events)
    ensures Safe(Run(s, events))
    decreases |events|
  {
    if events != [] {
      StepSeen(s, events[0]);
      RunIsSafe(Step(s, events[0]), events[1..]);
    }
  }

  /** Over every run in which streams initialize and do not overlap the observer accepts everything the
      path does, and the state invariants hold for as long as the path is alive. No other run is safe
      (PathFailures.RunIsSafeIff). */
  lemma {:induction false} EveryRunIsSafe(conf: Conf, events: seq<Event>)
    requires conf.Valid() && Possible(Create(conf), events) && Clean(Create(conf), events)
    ensures var s := Run(Create(conf), events);
            if s.finished then Seen(s, GONE) else Invariant(s) && Seen(s, View(s))
  {
    CreateSeen(conf);
    RunIsSafe(Create(conf), events);
  }

  // what an accepted trace looks like, without mentioning the observer

  function Asked(trace: seq<Action>): multiset<Request> {
    if trace == [] then multiset{}
    else
      var last := |trace| - 1;
      Asked(trace[..last]) + (if trace[last].Received? then multiset{trace[last].request} else multiset{})
  }

  function Answered(trace: seq<Action>): multiset<Request> {
    if trace == [] then multiset{}
    else
      var last := |trace| - 1;
      Answered(trace[..last]) + (if trace[last].Replied? then multiset{trace[last].request} else multiset{})
  }

  lemma {:induction false} FollowsPrefix(maxReaders: nat, trace: seq<Action>, run: seq<Observer>, n: nat)
    requires Follows(maxReaders, trace, run) && n <= |trace|
    ensures Follows(maxReaders, trace[..n], run[..n + 1])
  {
    var shortTrace, shortRun := trace[..n], run[..n + 1];
    forall i | 0 <= i < n ensures Observes(maxReaders, shortTrace, shortRun, i) {
      assert Observes(maxReaders, trace, run, i);
    }
  }

  lemma {:induction false} PendingStep(maxReaders: nat, trace: seq<Action>, run: seq<Observer>, i: nat)
    requires Follows(maxReaders, trace, run) && i < |trace|
    ensures var a, p, q := trace[i], run[i].pending, run[i + 1].pending;
            if a.Received? then q == p + multiset{a.request}
            else if a.Replied? then a.request in p && q == p - multiset{a.request}
            else q == p
  {
    assert Observes(maxReaders, trace, run, i);
  }

  lemma {:induction false} AskedIsAnsweredOrPending(maxReaders: nat, trace: seq<Action>, run: seq<Observer>)
    requires Follows(maxReaders, trace, run)
    ensures Asked(trace) == Answered(trace) + run[|trace|].pending
    decreases |trace|
  {
    if trace != [] {
      var last := |trace| - 1;
      FollowsPrefix(maxReaders, trace, run, last);
      AskedIsAnsweredOrPending(maxReaders, trace[..last], run[..last + 1]);
      PendingStep(maxReaders, trace, run, last);
    }
  }

  /** Exactly-once answers: at any time the requests received split into those answered and those on
      hold, counting repetitions; once the path is gone every one has been answered. */
  lemma {:induction false} EveryRequestIsAnsweredOnce(conf: Conf, events: seq<Event>)
    requires conf.Valid() && Possible(Create(conf), events) && Clean(Create(conf), events)
    ensures var s := Run(Create(conf), events);
            if s.finished then Asked(s.trace) == Answered(s.trace)
            else Asked(s.trace) == Answered(s.trace) + Bag(s.describesOnHold) + Bag(s.readersOnHold)
  {
    EveryRunIsSafe(conf, events);
    var s := Run(Create(conf), events);
    var o := if s.finished then GONE else View(s);
    var run :| Follows(s.conf.fixed.maxReaders, s.trace, run) && run[|s.trace|] == o;
    AskedIsAnsweredOrPending(s.conf.fixed.maxReaders, s.trace, run);
  }

  /** The things a path turns on and off. */
  datatype Switch = Announcement | ReadyHook | SourceRun | DemandHook | Recording

  predicate TurnsOn(w: Switch, a: Action) {
    match w
    case Announcement => a == NotifiedReady
    case ReadyHook => a == OnReadyHook
    case SourceRun => a == SourceStarted
    case DemandHook => a == OnDemandHook
    case Recording => a.RecorderStarted?
  }

  predicate TurnsOff(w: Switch, a: Action) {
    match w
    case Announcement => a == NotifiedNotReady
    case ReadyHook => a == OnNotReadyHook
    case SourceRun => a == SourceStopped
    case DemandHook => a == OnUnDemandHook
    case Recording => a == RecorderClosed
  }

  predicate IsOn(w: Switch, o: Observer) {
    match w
    case Announcement => o.announced
    case ReadyHook => o.hooked
    case SourceRun => o.running
    case DemandHook => o.demanded
    case Recording => o.recording.Some?
  }

  /** On and off strictly alternate, beginning with on. */
  ghost predicate Alternates(w: Switch, trace: seq<Action>) {
    && (forall i, j :: 0 <= i < j < |trace| && TurnsOn(w, trace[i]) && TurnsOn(w, trace[j]) ==>
          exists k :: i < k < j && TurnsOff(w, trace[k]))
    && (forall i, j :: 0 <= i < j < |trace| && TurnsOff(w, trace[i]) && TurnsOff(w, trace[j]) ==>
          exists k :: i < k < j && TurnsOn(w, trace[k]))
    && (forall j :: 0 <= j < |trace| && TurnsOff(w, trace[j]) ==> exists k :: 0 <= k < j && TurnsOn(w, trace[k]))
  }

  lemma {:induction false} SwitchStep(maxReaders: nat, trace: seq<Action>, run: seq<Observer>, w: Switch, i: nat)
    requires Follows(maxReaders, trace, run) && i < |trace|
    ensures TurnsOn(w, trace[i]) ==> !IsOn(w, run[i]) && IsOn(w, run[i + 1])
    ensures TurnsOff(w, trace[i]) ==> IsOn(w, run[i]) && !IsOn(w, run[i + 1])
    ensures !TurnsOn(w, trace[i]) && !TurnsOff(w, trace[i]) ==> IsOn(w, run[i + 1]) == IsOn(w, run[i])
  {
    assert Observes(maxReaders, trace, run, i);
    ActionSwitches(maxReaders, run[i], trace[i], w);
    OtherActions(run[i], trace[i], w);
  }

  lemma {:induction false} ActionSwitches(maxReaders: nat, o: Observer, a: Action, w: Switch)
    requires Allowed(o, maxReaders, a)
    ensures TurnsOn(w, a) ==> !IsOn(w, o) && IsOn(w, Observe(o, a))
    ensures TurnsOff(w, a) ==> IsOn(w, o) && !IsOn(w, Observe(o, a))
  {
  }

  lemma {:induction false} OtherActions(o: Observer, a: Action, w: Switch)
    ensures !TurnsOn(w, a) && !TurnsOff(w, a) ==> IsOn(w, Observe(o, a)) == IsOn(w, o)
  {
  }

  /** The switch changes between two points only if an action in between changes it. */
  lemma {:induction false} SwitchChanged(
    maxReaders: nat, trace: seq<Action>, run: seq<Observer>, w: Switch, i: nat, j: nat)
    requires Follows(maxReaders, trace, run) && i <= j <= |trace|
    ensures IsOn(w, run[i]) && !IsOn(w, run[j]) ==> exists k :: i <= k < j && TurnsOff(w, trace[k])
    ensures !IsOn(w, run[i]) && IsOn(w, run[j]) ==> exists k :: i <= k < j && TurnsOn(w, trace[k])
    decreases j - i
  {
    if i < j {
      SwitchStep(maxReaders, trace, run, w, i);
      SwitchChanged(maxReaders, trace, run, w, i + 1, j);
    }
  }

  lemma {:induction false} AcceptedAlternates(maxReaders: nat, trace: seq<Action>, run: seq<Observer>, w: Switch)
    requires Follows(maxReaders, trace, run)
    ensures Alternates(w, trace)
  {
    forall i, j | 0 <= i < j < |trace| && TurnsOn(w, trace[i]) && TurnsOn(w, trace[j])
      ensures exists k :: i < k < j && TurnsOff(w, trace[k])
    {
      SwitchStep(maxReaders, trace, run, w, i);
      SwitchStep(maxReaders, trace, run, w, j);
      SwitchChanged(maxReaders, trace, run, w, i + 1, j);
    }
    forall i, j | 0 <= i < j < |trace| && TurnsOff(w, trace[i]) && TurnsOff(w, trace[j])
      ensures exists k :: i < k < j && TurnsOn(w, trace[k])
    {
      SwitchStep(maxReaders, trace, run, w, i);
      SwitchStep(maxReaders, trace, run, w, j);
      SwitchChanged(maxReaders, trace, run, w, i + 1, j);
    }
    forall j | 0 <= j < |trace| && TurnsOff(w, trace[j])
      ensures exists k :: 0 <= k < j && TurnsOn(w, trace[k])
    {
      SwitchStep(maxReaders, trace, run, w, j);
      SwitchChanged(maxReaders, trace, run, w, 0, j);
    }
  }

  /** Ready and not-ready notifications, hooks, source starts and stops and recorders alternate over
      every run, so no hook is undone without having been run and no source is started twice or
      stopped while it is not running. */
  lemma {:induction false} EverySwitchAlternates(conf: Conf, events: seq<Event>, w: Switch)
    requires conf.Valid() && Possible(Create(conf), events) && Clean(Create(conf), events)
    ensures var s := Run(Create(conf), events);
            && Alternates(w, s.trace)
            && (s.finished ==>
                  forall i :: 0 <= i < |s.trace| && TurnsOn(w, s.trace[i]) ==>
                                exists k :: i < k < |s.trace| && TurnsOff(w, s.trace[k]))
  {
    EveryRunIsSafe(conf, events);
    var s := Run(Create(conf), events);
    var maxReaders, o := s.conf.fixed.maxReaders, if s.finished then GONE else View(s);
    var run :| Follows(maxReaders, s.trace, run) && run[|s.trace|] == o;
    AcceptedAlternates(maxReaders, s.trace, run, w);
    if s.finished {
      AllIsOffInTheEnd(maxReaders, s.trace, run, w);
    }
  }

  lemma {:induction false} AllIsOffInTheEnd(maxReaders: nat, trace: seq<Action>, run: seq<Observer>, w: Switch)
    requires Follows(maxReaders, trace, run) && !IsOn(w, run[|trace|])
    ensures forall i :: 0 <= i < |trace| && TurnsOn(w, trace[i]) ==> exists k ::
            i < k < |trace| && TurnsOff(w, trace[k])
  {
    forall i | 0 <= i < |trace| && TurnsOn(w, trace[i]) ensures exists k :: i < k < |trace| && TurnsOff(w, trace[k]) {
      SwitchStep(maxReaders, trace, run, w, i);
      SwitchChanged(maxReaders, trace, run, w, i + 1, |trace|);
    }
  }

  /** Whether the path can hand out stream k after these actions. */
  ghost predicate IsOpenAfter(trace: seq<Action>, k: nat) {
    exists i :: 0 <= i < |trace| && trace[i] == StreamOpened(k) && StreamClosed(k) !in trace[i..]
  }

  lemma {:induction false} OpenStreamWasOpened(maxReaders: nat, trace: seq<Action>, run: seq<Observer>, k: nat)
    requires Follows(maxReaders, trace, run) && run[|trace|].open == Some(k)
    ensures IsOpenAfter(trace, k)
    decreases |trace|
  {
    assert trace != [];
    var last := |trace| - 1;
    assert trace == trace[..last] + [trace[last]];
    OpenOrStayedOpen(maxReaders, trace, run, last, k);
    if trace[last] == StreamOpened(k) {
      OpenNow(trace[..last], k);
    } else {
      FollowsPrefix(maxReaders, trace, run, last);
      OpenStreamWasOpened(maxReaders, trace[..last], run[..last + 1], k);
      StaysOpen(trace[..last], trace[last], k);
    }
  }

  lemma {:induction false} OpenOrStayedOpen(maxReaders: nat, trace: seq<Action>, run: seq<Observer>, i: nat, k: nat)
    requires Follows(maxReaders, trace, run) && i < |trace| && run[i + 1].open == Some(k)
    ensures trace[i] == StreamOpened(k) || (run[i].open == Some(k) && trace[i] != StreamClosed(k))
  {
    assert Observes(maxReaders, trace, run, i);
  }

  lemma {:induction false} OpenNow(trace: seq<Action>, k: nat)
    ensures IsOpenAfter(trace + [StreamOpened(k)], k)
  {
    var t, i := trace + [StreamOpened(k)], |trace|;
    assert t[i] == StreamOpened(k) && t[i..] == [StreamOpened(k)];
  }

  lemma {:induction false} StaysOpen(trace: seq<Action>, a: Action, k: nat)
    requires IsOpenAfter(trace, k) && a != StreamClosed(k)
    ensures IsOpenAfter(trace + [a], k)
  {
    var i :| 0 <= i < |trace| && trace[i] == StreamOpened(k) && StreamClosed(k) !in trace[i..];
    var t := trace + [a];
    assert t[i] == StreamOpened(k) && t[i..] == trace[i..] + [a];
  }

  /** A request is never answered with a stream that is not open at that moment. */
  lemma {:induction false} OnlyOpenStreamsAreHandedOut(conf: Conf, events: seq<Event>, i: nat)
    requires conf.Valid() && Possible(Create(conf), events) && Clean(Create(conf), events)
    requires i < |Run(Create(conf), events).trace|
    ensures var a := Run(Create(conf), events).trace[i];
            a.Replied? && a.reply.GotStream? ==> IsOpenAfter(Run(Create(conf), events).trace[..i], a.reply.stream)
  {
    EveryRunIsSafe(conf, events);
    var s := Run(Create(conf), events);
    var maxReaders, o := s.conf.fixed.maxReaders, if s.finished then GONE else View(s);
    var run :| Follows(maxReaders, s.trace, run) && run[|s.trace|] == o;
    assert Observes(maxReaders, s.trace, run, i);
    var a := s.trace[i];
    if a.Replied? && a.reply.GotStream? {
      FollowsPrefix(maxReaders, s.trace, run, i);
      OpenStreamWasOpened(maxReaders, s.trace[..i], run[..i + 1], a.reply.stream);
    }
  }

  predicate Detaches(a: Action, reader: nat) {
    a == ReaderLeft(reader) || (a.ReadersClosed? && reader in a.readers)
  }

  lemma {:induction false} AttachedUntilDetached(
    maxReaders: nat, trace: seq<Action>, run: seq<Observer>, reader: nat, i: nat, j: nat)
    requires Follows(maxReaders, trace, run) && i <= j <= |trace|
    requires reader in run[i].attached && reader !in run[j].attached
    ensures exists m :: i <= m < j && Detaches(trace[m], reader)
    decreases j - i
  {
    assert Observes(maxReaders, trace, run, i);
    if reader in run[i + 1].attached {
      AttachedUntilDetached(maxReaders, trace, run, reader, i + 1, j);
    } else {
      assert Detaches(trace[i], reader);
    }
  }

  lemma {:induction false} AttachesAndDetaches(maxReaders: nat, o: Observer, a: Action)
    requires Allowed(o, maxReaders, a)
    ensures a.Replied? && a.request.AddReader? && a.reply.GotStream? ==> a.request.reader in Observe(o, a).attached
    ensures a.StreamClosed? ==> o.attached == {}
  {
  }

  lemma {:induction false} DetachedInBetween(
    maxReaders: nat, trace: seq<Action>, run: seq<Observer>, reader: nat, i: nat, j: nat)
    requires Follows(maxReaders, trace, run) && i < j < |trace| && trace[j].StreamClosed?
    requires trace[i].Replied? && trace[i].request.AddReader? && trace[i].reply.GotStream?
    requires reader == trace[i].request.reader
    ensures exists m :: i < m < j && Detaches(trace[m], reader)
  {
    assert Observes(maxReaders, trace, run, i) && Observes(maxReaders, trace, run, j);
    AttachesAndDetaches(maxReaders, run[i], trace[i]);
    AttachesAndDetaches(maxReaders, run[j], trace[j]);
    AttachedUntilDetached(maxReaders, trace, run, reader, i + 1, j);
  }

  /** A reader that was given a stream has left, or has been closed, before that stream is closed. */
  lemma {:induction false} NoReaderOutlivesItsStream(conf: Conf, events: seq<Event>, i: nat, j: nat)
    requires conf.Valid() && Possible(Create(conf), events) && Clean(Create(conf), events)
    requires i < j < |Run(Create(conf), events).trace|
    ensures var trace := Run(Create(conf), events).trace;
            var a := trace[i];
            a.Replied? && a.request.AddReader? && a.reply.GotStream? && trace[j].StreamClosed? ==>
              exists m :: i < m < j && Detaches(trace[m], a.request.reader)
  {
    EveryRunIsSafe(conf, events);
    var s := Run(Create(conf), events);
    var maxReaders, o := s.conf.fixed.maxReaders, if s.finished then GONE else View(s);
    var run :| Follows(maxReaders, s.trace, run) && run[|s.trace|] == o;
    var a := s.trace[i];
    if a.Replied? && a.request.AddReader? && a.reply.GotStream? && s.trace[j].StreamClosed? {
      DetachedInBetween(maxReaders, s.trace, run, a.request.reader, i, j);
    }
  }
}
