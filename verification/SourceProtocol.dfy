/** The hand-offs between three goroutines: the path's event loop, the loop of the static source
    handler, and the source instance that the handler runs and restarts. Channels are unbuffered, so
    a hand-off is one step of both sides. Timers may fire at any moment after they were armed. */
module SourceProtocol {

  datatype PathAt =
    | Waiting            // in its event loop
    | Opening            // has received a set-ready request, which it still has to answer
    | Closing            // has received a set-not-ready request, which it still has to answer
    | Deciding           // has answered the set-not-ready request and may stop the source
    | Stopping           // blocked in Stop until the handler is done

  datatype HandlerAt =
    | Absent             // not started, or done
    | Selecting          // at the head of its loop
    | ForwardingReady    // handing a set-ready request to the path
    | ForwardingNotReady // handing a set-not-ready request to the path
    | Draining           // stopped, waiting for the instance to return

  /** Where the instance is; `ready` tells whether the path has accepted its stream. */
  datatype InstanceAt =
    | NoInstance
    | Working(ready: bool)
    | AskingManager(ready: bool) // reading another path through the path manager
    | OfferingReady
    | AwaitingReady
    | OfferingNotReady
    | AwaitingNotReady
    | Returning

  datatype State = State(
    path: PathAt,
    handler: HandlerAt,
    instance: InstanceAt,
    running: bool,           // the handler's flag, which only the path touches
    stream: bool,            // the path has a stream from this source
    recreating: bool,        // the handler waits for its retry timer
    sourceCancelled: bool,   // the context of the handler
    instanceCancelled: bool, // the context of the instance
    pathCancelled: bool,     // the context of the path
    managerWaits: bool)      // the path manager is blocked until this path is gone

  const START := State(Waiting, Absent, NoInstance, false, false, false, false, false, false, false)

  datatype Step =
    // the path
    | StartSource | StopSource | ReceiveReady | RefuseReady | AcceptReady
    | ReceiveNotReady | AnswerNotReady | KeepRunning | StopAfterNotReady | SeeDone
    // the handler
    | TakeReady | TakeNotReady | TakeError | Recreate
    | DropReadySource | DropNotReadySource | DropReadyPath | DropNotReadyPath
    | SeeCancelled | Drain
    // the instance
    | Fail | Offer | CloseStream | AskManager | ManagerAnswers | OfferCancelled | NotReadyCancelled
    // the rest of the system
    | CancelPath | ManagerStartsWaiting

  predicate Enabled(s: State, a: Step) {
    match a
    case StartSource => s.path == Waiting && !s.running
    case StopSource => s.path == Waiting && s.running
    case ReceiveReady => s.path == Waiting && s.handler == ForwardingReady
    case RefuseReady => s.path == Opening
    case AcceptReady => s.path == Opening
    case ReceiveNotReady => s.path == Waiting && s.handler == ForwardingNotReady
    case AnswerNotReady => s.path == Closing
    case KeepRunning => s.path == Deciding
    case StopAfterNotReady => s.path == Deciding
    case SeeDone => s.path == Stopping && s.handler == Absent
    case TakeReady => s.handler == Selecting && s.instance == OfferingReady
    case TakeNotReady => s.handler == Selecting && s.instance == OfferingNotReady
    case TakeError => s.handler == Selecting && s.instance == Returning
    case Recreate => s.handler == Selecting && s.recreating
    case DropReadySource => s.handler == ForwardingReady && s.sourceCancelled
    case DropNotReadySource => s.handler == ForwardingNotReady && s.sourceCancelled
    case DropReadyPath => s.handler == ForwardingReady && s.pathCancelled
    case DropNotReadyPath => s.handler == ForwardingNotReady && s.pathCancelled
    case SeeCancelled => s.handler == Selecting && s.sourceCancelled
    case Drain => s.handler == Draining && s.instance == Returning
    case Fail => s.instance == Working(false)
    case Offer => s.instance == Working(false)
    case CloseStream => s.instance == Working(true)
    case AskManager => s.instance.Working?
    case ManagerAnswers => s.instance.AskingManager? && !s.managerWaits
    case OfferCancelled => s.instance == OfferingReady && s.sourceCancelled
    case NotReadyCancelled => s.instance == OfferingNotReady && s.sourceCancelled
    case CancelPath => true
    case ManagerStartsWaiting => s.pathCancelled
  }

  /** What Stop does before it blocks. The path has no stream from the source any more at that point. */
  function BeginStop(s: State): State {
    s.(path := Stopping, stream := false, running := false, sourceCancelled := true)
  }

  function Apply(s: State, a: Step): State
    requires Enabled(s, a)
  {
    match a
    case StartSource =>
      s.(running := true, handler := Selecting, instance := Working(false), recreating := false,
         sourceCancelled := false, instanceCancelled := false)
    case StopSource => BeginStop(s)
    case ReceiveReady => s.(path := Opening, handler := Selecting)
    case RefuseReady => s.(path := Waiting, instance := Returning)
    case AcceptReady => s.(path := Waiting, instance := Working(true), stream := true)
    case ReceiveNotReady => s.(path := Closing, handler := Selecting)
    case AnswerNotReady => s.(path := Deciding, instance := Returning, stream := false)
    case KeepRunning => s.(path := Waiting)
    case StopAfterNotReady => BeginStop(s)
    case SeeDone => s.(path := Waiting)
    case TakeReady => s.(handler := ForwardingReady, instance := AwaitingReady)
    case TakeNotReady => s.(handler := ForwardingNotReady, instance := AwaitingNotReady)
    case TakeError => s.(instance := NoInstance, recreating := true)
    case Recreate => s.(instance := Working(false), recreating := false, instanceCancelled := false)
    case DropReadySource => s.(handler := Selecting, instance := Returning)
    case DropNotReadySource => s.(handler := Selecting, instance := Returning)
    case DropReadyPath => s.(handler := Selecting, instance := Returning)
    case DropNotReadyPath => s.(handler := Selecting, instance := Returning)
    case SeeCancelled =>
      if s.recreating then s.(handler := Absent) else s.(handler := Draining, instanceCancelled := true)
    case Drain => s.(handler := Absent, instance := NoInstance)
    case Fail => s.(instance := Returning)
    case Offer => s.(instance := OfferingReady)
    case CloseStream => s.(instance := OfferingNotReady)
    case AskManager => s.(instance := AskingManager(s.instance.ready))
    case ManagerAnswers => s.(instance := Working(s.instance.ready))
    case OfferCancelled => s.(instance := Returning)
    case NotReadyCancelled => s.(instance := Returning)
    case CancelPath => s.(pathCancelled := true)
    case ManagerStartsWaiting => s.(managerWaits := true)
  }

  predicate Possible(s: State, steps: seq<Step>)
    decreases |steps|
  {
    steps == [] || (Enabled(s, steps[0]) && Possible(Apply(s, steps[0]), steps[1..]))
  }

  function Run(s: State, steps: seq<Step>): State
    requires Possible(s, steps)
    decreases |steps|
  {
    if steps == [] then s else Run(Apply(s, steps[0]), steps[1..])
  }

  /** The instance holds a stream that the path has accepted. */
  predicate HoldsStream(i: InstanceAt) {
    i == Working(true) || i == AskingManager(true) || i == OfferingNotReady || i == AwaitingNotReady
  }

  predicate Invariant(s: State) {
    && (s.running ==> s.handler != Absent && s.handler != Draining && !s.sourceCancelled && s.path != Stopping)
    && (!s.running && s.path != Stopping ==> s.handler == Absent && !s.stream)
    && (s.path == Opening || s.path == Closing || s.path == Deciding ==> s.running)
    && (s.path == Opening || s.path == Closing ==> s.handler == Selecting)
    && (s.path == Stopping ==> !s.running && s.sourceCancelled && !s.stream)
    && (s.handler == Absent ==> s.instance == NoInstance)
    && (s.handler == Selecting ==> (s.instance == NoInstance <==> s.recreating))
    && (s.handler == ForwardingReady || s.handler == ForwardingNotReady || s.handler == Draining ==> !s.recreating)
    && (s.handler == Draining ==> s.instance != NoInstance && s.instanceCancelled)
    && (s.instance == AwaitingReady <==> s.handler == ForwardingReady || s.path == Opening)
    && (s.instance == AwaitingNotReady <==> s.handler == ForwardingNotReady || s.path == Closing)
    && (s.path != Stopping && HoldsStream(s.instance) ==> s.stream)
    && (s.path != Stopping && s.stream && !s.pathCancelled ==> HoldsStream(s.instance))
  }

  lemma {:induction false} EveryStateIsInvariant(s: State, steps: seq<Step>)
    requires Invariant(s) && Possible(s, steps)
    ensures Invariant(Run(s, steps))
    decreases |steps|
  {
    if steps != [] {
      StepKeeps(s, steps[0]);
      EveryStateIsInvariant(Apply(s, steps[0]), steps[1..]);
    }
  }

  lemma {:induction false} StepKeeps(s: State, a: Step)
    requires Invariant(s) && Enabled(s, a)
    ensures Invariant(Apply(s, a))
  {
  }

  /** In every reachable state, at the head of the handler's loop exactly one instance exists unless
      the handler is waiting to create one, and none is left once the handler is done. */
  lemma {:induction false} OneInstance(steps: seq<Step>)
    requires Possible(START, steps)
    ensures var s := Run(START, steps);
            && (s.handler == Selecting ==> (s.instance != NoInstance <==> !s.recreating))
            && (s.handler == Absent ==> s.instance == NoInstance)
  {
    EveryStateIsInvariant(START, steps);
  }

  /** What the path may rely on when a source event reaches it, in every reachable state. While the
      path has not been cancelled, set-ready meets a path without stream; set-not-ready always meets a
      path with one. Both meet a path whose source is running. */
  lemma {:induction false} SourceEventsFitThePath(steps: seq<Step>)
    requires Possible(START, steps)
    ensures var s := Run(START, steps);
            && (Enabled(s, ReceiveReady) ==> s.running && (s.pathCancelled || !s.stream))
            && (Enabled(s, ReceiveNotReady) ==> s.running && s.stream)
  {
    EveryStateIsInvariant(START, steps);
  }

  /** The path has accepted the stream of a working instance. */
  predicate IsStreaming(s: State) {
    s == START.(running := true, handler := Selecting, instance := Working(true), stream := true)
  }

  lemma {:induction false} StreamingIsReachable(steps: seq<Step>)
    requires steps == [StartSource, Offer, TakeReady, ReceiveReady, AcceptReady]
    ensures Possible(START, steps) && IsStreaming(Run(START, steps))
  {
    FiveSteps(START, steps);
  }

  lemma {:induction false} InstanceIsRestarted(s: State, steps: seq<Step>)
    requires IsStreaming(s) && steps == [CancelPath, CloseStream, TakeNotReady, DropNotReadyPath, TakeError]
    ensures Possible(s, steps)
    ensures Run(s, steps) == s.(pathCancelled := true, instance := NoInstance, recreating := true)
  {
    FiveSteps(s, steps);
  }

  /** After the path has been cancelled its answer to set-not-ready may be skipped. A restarted
      instance can then offer a second stream to a path that still has the first. */
  lemma {:induction false} SecondStreamExample(s: State, toRestart: seq<Step>)
    requires IsStreaming(s) && toRestart == [CancelPath, CloseStream, TakeNotReady, DropNotReadyPath, TakeError]
    ensures Possible(s, toRestart)
    ensures var t := Run(s, toRestart);
            && Enabled(t, Recreate) && Enabled(Apply(t, Recreate), Offer)
            && Enabled(Apply(Apply(t, Recreate), Offer), TakeReady)
            && var u := Apply(Apply(Apply(t, Recreate), Offer), TakeReady);
               Enabled(u, ReceiveReady) && u.stream
  {
    InstanceIsRestarted(s, toRestart);
  }

  lemma {:induction false} FiveSteps(s: State, steps: seq<Step>)
    requires |steps| == 5 && Enabled(s, steps[0])
    requires var t := Apply(s, steps[0]); Enabled(t, steps[1])
    requires var t := Apply(Apply(s, steps[0]), steps[1]); Enabled(t, steps[2])
    requires var t := Apply(Apply(Apply(s, steps[0]), steps[1]), steps[2]); Enabled(t, steps[3])
    requires var t := Apply(Apply(Apply(Apply(s, steps[0]), steps[1]), steps[2]), steps[3]); Enabled(t, steps[4])
    ensures Possible(s, steps)
    ensures Run(s, steps) ==
            Apply(Apply(Apply(Apply(Apply(s, steps[0]), steps[1]), steps[2]), steps[3]), steps[4])
  {
    var t := Apply(s, steps[0]);
    var u := Apply(t, steps[1]);
    var v := Apply(u, steps[2]);
    var w := Apply(v, steps[3]);
    var x := Apply(w, steps[4]);
    assert steps[4..] == [steps[4]] && steps[4..][1..] == [];
    assert steps[3..][1..] == steps[4..] && steps[2..][1..] == steps[3..] && steps[1..][1..] == steps[2..];
    assert Possible(x, []) && Possible(w, steps[4..]) && Possible(v, steps[3..]) && Possible(u, steps[2..]);
    assert Run(w, steps[4..]) == x && Run(v, steps[3..]) == x && Run(u, steps[2..]) == x && Run(t, steps[1..]) == x;
  }

  // stopping

  predicate IsEnvironment(a: Step) {
    a == CancelPath || a == ManagerStartsWaiting
  }

  /** Steps that a waiting path can count on. An instance need not do anything by itself before its
      context is cancelled; then it returns. */
  predicate Obliged(s: State, a: Step) {
    match a
    case SeeDone => true
    case DropReadySource => true
    case DropNotReadySource => true
    case SeeCancelled => true
    case Drain => true
    case ManagerAnswers => true
    case OfferCancelled => true
    case NotReadyCancelled => true
    case Fail => s.instanceCancelled
    case CloseStream => s.instanceCancelled
    case _ => false
  }

  /** The instance waits for the path manager, which waits for the path, which waits for the handler,
      which waits for the instance. */
  predicate Deadlocked(s: State) {
    s.handler == Draining && s.instance.AskingManager? && s.managerWaits
  }

  /** A path that waits for its source to stop can count on a step, in every reachable state, if and
      only if the system has not run into the cycle through the path manager. */
  lemma {:induction false} StoppingGoesOnIff(steps: seq<Step>)
    requires Possible(START, steps) && Run(START, steps).path == Stopping
    ensures var s := Run(START, steps);
            (exists a :: Enabled(s, a) && Obliged(s, a)) <==> !Deadlocked(s)
  {
    EveryStateIsInvariant(START, steps);
    var s := Run(START, steps);
    if !Deadlocked(s) {
      var a := NextStep(s);
      assert Enabled(s, a) && Obliged(s, a);
    }
  }

  function NextStep(s: State): Step {
    match s.handler
    case Absent => SeeDone
    case Selecting => SeeCancelled
    case ForwardingReady => DropReadySource
    case ForwardingNotReady => DropNotReadySource
    case Draining =>
      match s.instance
      case Working(ready) => if ready then CloseStream else Fail
      case AskingManager(_) => ManagerAnswers
      case OfferingReady => OfferCancelled
      case OfferingNotReady => NotReadyCancelled
      case _ => Drain
  }

  /** The cycle is a real deadlock: nothing that happens afterwards leads out of it. */
  lemma {:induction false} DeadlockIsForever(s: State, steps: seq<Step>)
    requires Invariant(s) && s.path == Stopping && Deadlocked(s) && Possible(s, steps)
    ensures Run(s, steps).path == Stopping && Deadlocked(Run(s, steps))
    decreases |steps|
  {
    if steps != [] {
      StepKeeps(s, steps[0]);
      DeadlockIsForever(Apply(s, steps[0]), steps[1..]);
    }
  }

  lemma {:induction false} NeverAsks(s: State, steps: seq<Step>)
    requires Possible(s, steps) && AskManager !in steps && !s.instance.AskingManager?
    ensures !Run(s, steps).instance.AskingManager?
    decreases |steps|
  {
    if steps != [] {
      NeverAsks(Apply(s, steps[0]), steps[1..]);
    }
  }

  /** Sources that never read through the path manager cannot deadlock. */
  lemma {:induction false} NoDeadlockWithoutManager(steps: seq<Step>)
    requires Possible(START, steps) && AskManager !in steps && Run(START, steps).path == Stopping
    ensures exists a :: Enabled(Run(START, steps), a) && Obliged(Run(START, steps), a)
  {
    NeverAsks(START, steps);
    StoppingGoesOnIff(steps);
  }

  function InstanceRank(i: InstanceAt): nat {
    match i
    case NoInstance => 0
    case Returning => 1
    case AwaitingReady => 2
    case AwaitingNotReady => 2
    case OfferingReady => 3
    case OfferingNotReady => 3
    case Working(_) => 4
    case AskingManager(_) => 5
  }

  function HandlerRank(h: HandlerAt): nat {
    match h
    case Absent => 0
    case Draining => 1
    case Selecting => 2
    case ForwardingReady => 3
    case ForwardingNotReady => 3
  }

  function Measure(s: State): nat {
    4 * InstanceRank(s.instance) + HandlerRank(s.handler)
  }

  /** What a step can add to the measure: only a restart and a call to the path manager add anything. */
  function Credit(a: Step): nat {
    if a == Recreate then 17 else if a == AskManager then 5 else 0
  }

  function Credits(steps: seq<Step>): nat {
    if steps == [] then 0 else Credit(steps[0]) + Credits(steps[1..])
  }

  function Work(steps: seq<Step>): nat {
    if steps == [] then 0 else (if IsEnvironment(steps[0]) then 0 else 1) + Work(steps[1..])
  }

  /** The path stays blocked during all of these steps. */
  predicate StaysStopping(s: State, steps: seq<Step>)
    requires Possible(s, steps)
    decreases |steps|
  {
    s.path == Stopping && (steps == [] || StaysStopping(Apply(s, steps[0]), steps[1..]))
  }

  lemma {:induction false} StoppingStepCosts(s: State, a: Step)
    requires Invariant(s) && Enabled(s, a) && s.path == Stopping && Apply(s, a).path == Stopping
    ensures Measure(Apply(s, a)) + (if IsEnvironment(a) then 0 else 1) <= Measure(s) + Credit(a)
  {
  }

  /** However the goroutines are scheduled, the path is blocked for at most 23 steps, plus 17 for
      every time the retry timer is chosen although the source has been cancelled and 5 for every call
      to the path manager. */
  lemma {:induction false} StoppingIsBounded(s: State, steps: seq<Step>)
    requires Invariant(s) && Possible(s, steps) && StaysStopping(s, steps)
    ensures Work(steps) <= Measure(s) + Credits(steps) <= 23 + Credits(steps)
    decreases |steps|
  {
    if steps != [] {
      var t := Apply(s, steps[0]);
      StepKeeps(s, steps[0]);
      StoppingIsBounded(t, steps[1..]);
      StoppingStepCosts(s, steps[0]);
    }
  }

  /** The path manager removes the path of a source that is reading through the path manager. */
  lemma {:induction false} DeadlockExample(s: State, steps: seq<Step>)
    requires IsStreaming(s) && steps == [AskManager, CancelPath, ManagerStartsWaiting, StopSource, SeeCancelled]
    ensures Possible(s, steps) && Run(s, steps).path == Stopping && Deadlocked(Run(s, steps))
  {
    FiveSteps(s, steps);
  }
}
