/** The sync machine: event queue, passphrase gate, enumerator and thread life cycle as one step
    relation, each step an atomic operation of some thread (src/Adapter.cc, src/Adapter.hxx,
    src/callback_dispatcher.cc, src/passphrase_cache.cc). */
module SyncMachine {
  import opened Common
  import opened PassphraseList
  import opened PassphraseWalk
  import opened SyncQueue

  /** Where the sync thread is inside `_messageToSend(nullptr)`. */
  datatype Retry =
    | InEngine          // not in it
    | AtGate            // before semaphore.try_wait()
    | AtShutdownCheck   // before in_shutdown()
    | AtConfig          // before config_next_passphrase()
    | AtStop            // before semaphore.stop()

  /** Where the sync thread is in `sync_thread`. */
  datatype Thread =
    | NoThread              // never started, or joined
    | Created               // before the startup callback
    | Started               // before sync_evt_q.clear()
    | InLoop(retry: Retry)  // in do_sync_protocol()
    | LoopEnded             // before the shutdown callback
    | Finished              // returned, not joined

  /** Where the controlling thread is in `stop_sync`. */
  datatype Controller =
    | Idle
    | Clearing   // found the thread joinable; before the clear of the injection
    | Marking    // before its push_back
    | Joining
    | Notifying  // before SYNC_NOTIFY_STOP

  datatype Signal = Startup | Shutdown | StopNotified

  datatype State = State(
    q: seq<Event>,
    accepted: nat,        // how many events the enqueue callback has accepted
    freed: seq<nat>,      // those the deleter was run on
    returned: seq<nat>,   // those handed to the engine, in order
    injecting: nat,       // app threads between the clear and the push_back of an injection
    closed: bool,         // the gate
    live: seq<Entry>,     // the passphrase cache
    opening: nat,         // app threads between the list update of an add and its semaphore.go()
    statics: Enumerator,
    thread: Thread,
    controller: Controller,
    trace: seq<Signal>)

  datatype Action =
    // any thread
    | Accept
    | InjectClear
    | InjectMark
    | Add(op: Op, now: int)
    | OpenGate
    | Change(op: Op, now: int)
    // the sync thread
    | RunStartup
    | ClearQueue
    | Retrieve
    | Resend
    | PassGate
    | CheckShutdown
    | Config
    | CloseGate
    | Sent
    | EndLoop
    | RunShutdown
    // the controlling thread
    | StartSync
    | StopSync
    | StopClear
    | StopMark
    | Join
    | NotifyStop

  const INIT := State([], 0, [], [], 0, false, [], 0, FRESH, NoThread, Idle, [])

  function Cleared(s: State): State {
    s.(q := [], freed := s.freed + Serials(s.q))
  }

  /** Whether an operation on the list ends in semaphore.go(): an add that is not turned away. */
  predicate Opens(op: Op) {
    (op.Plain? || op.Account?) && op.passphrase != ""
  }

  /** The steps any thread can take. */
  function AppStep(s: State, a: Action): Option<State> {
    match a
    case Accept => Some(s.(q := [Event(s.accepted)] + s.q, accepted := s.accepted + 1))
    case InjectClear => Some(Cleared(s).(injecting := s.injecting + 1))
    case InjectMark =>
      if s.injecting > 0 then Some(s.(q := s.q + [Null], injecting := s.injecting - 1)) else None
    case Add(op, now) =>
      if Opens(op) then Some(s.(live := Apply(s.live, op, now), opening := s.opening + 1)) else None
    case OpenGate =>
      if s.opening > 0 then Some(s.(closed := false, opening := s.opening - 1)) else None
    case Change(op, now) =>
      if op.Remove? || op.ForEach? then Some(s.(live := Apply(s.live, op, now))) else None
    case _ => None
  }

  /** The steps of the sync thread, in the order of `sync_thread` and `_messageToSend`. */
  function ThreadStep(s: State, a: Action): Option<State>
    requires EnumeratorValid(s.statics)
  {
    match (a, s.thread)
    case (RunStartup, Created) => Some(s.(thread := Started, trace := s.trace + [Startup]))
    case (ClearQueue, Started) => Some(Cleared(s).(thread := InLoop(InEngine)))
    case (Retrieve, InLoop(InEngine)) =>
      if s.q == [] then Some(s)
      else if s.q[0] == Null then Some(s.(q := s.q[1..]))
      else Some(s.(q := s.q[1..], returned := s.returned + [s.q[0].serial]))
    case (Resend, InLoop(InEngine)) => Some(s.(thread := InLoop(AtGate)))
    case (PassGate, InLoop(AtGate)) => if s.closed then None else Some(s.(thread := InLoop(AtShutdownCheck)))
    case (CheckShutdown, InLoop(AtShutdownCheck)) =>
      Some(s.(thread := InLoop(if InShutdown(s.q) then InEngine else AtConfig)))
    case (Config, InLoop(AtConfig)) =>
      var (statics, status, _) := Next(s.statics, s.live);
      Some(s.(statics := statics, thread := InLoop(if status == Ok then InEngine else AtStop)))
    case (CloseGate, InLoop(AtStop)) => Some(s.(closed := true, thread := InLoop(InEngine)))
    case (Sent, InLoop(InEngine)) => Some(s.(statics := Reset(s.statics)))
    case (EndLoop, InLoop(InEngine)) => Some(s.(thread := LoopEnded))
    case (RunShutdown, LoopEnded) => Some(s.(thread := Finished, trace := s.trace + [Shutdown]))
    case _ => None
  }

  /** The steps of the thread that calls `start_sync` and `stop_sync`. */
  function ControlStep(s: State, a: Action): Option<State> {
    match (a, s.controller)
    case (StartSync, Idle) => Some(if s.thread == NoThread then s.(thread := Created) else s)
    case (StopSync, Idle) => Some(if s.thread == NoThread then s else s.(controller := Clearing))
    case (StopClear, Clearing) => Some(Cleared(s).(controller := Marking))
    case (StopMark, Marking) => Some(s.(q := s.q + [Null], controller := Joining))
    case (Join, Joining) =>
      if s.thread == Finished then Some(s.(thread := NoThread, controller := Notifying)) else None
    case (NotifyStop, Notifying) => Some(s.(controller := Idle, trace := s.trace + [StopNotified]))
    case _ => None
  }

  /** One step, or None when no thread can take it. */
  function Step(s: State, a: Action): Option<State>
    requires EnumeratorValid(s.statics)
  {
    if AppStep(s, a).Some? then AppStep(s, a)
    else if ThreadStep(s, a).Some? then ThreadStep(s, a)
    else ControlStep(s, a)
  }

  // ----- the invariant -----

  function UpTo(n: nat): (r: seq<nat>)
    ensures |r| == n
  {
    seq(n, i => i)
  }

  /** Every accepted event is pending, freed or returned, and only one of them, and only once. */
  predicate Conserved(s: State) {
    multiset(Serials(s.q)) + multiset(s.freed) + multiset(s.returned) == multiset(UpTo(s.accepted))
  }

  predicate QueueInv(s: State) {
    && Shape(s.q)
    && Decreasing(Serials(s.q))
    && (forall i :: 0 <= i < |Serials(s.q)| ==> Serials(s.q)[i] < s.accepted)
    && Conserved(s)
  }

  predicate GateInv(s: State) {
    && EnumeratorValid(s.statics)
    && WellFormed(s.live)
    && (s.closed ==> s.statics.newCopy)
    && (s.thread.InLoop? && s.thread.retry in {AtShutdownCheck, AtConfig, AtStop} ==> !s.closed)
    && (s.thread == InLoop(AtStop) ==> s.statics.newCopy)
  }

  /** The trace is a prefix of startup, shutdown, stop, startup, ... */
  predicate Alternates(trace: seq<Signal>) {
    forall i :: 0 <= i < |trace| ==> trace[i] == SignalAt(i)
  }

  function SignalAt(i: nat): Signal {
    if i % 3 == 0 then Startup else if i % 3 == 1 then Shutdown else StopNotified
  }

  predicate LifeInv(s: State) {
    && Alternates(s.trace)
    && (s.controller in {Clearing, Marking, Joining} ==> s.thread != NoThread)
    && (s.controller == Notifying ==> s.thread == NoThread)
    && |s.trace| % 3 ==
         match s.thread
         case NoThread => if s.controller == Notifying then 2 else 0
         case Created => 0
         case Finished => 2
         case _ => 1
  }

  predicate Inv(s: State) {
    QueueInv(s) && GateInv(s) && LifeInv(s)
  }

  /** A run, or None when one of its steps cannot be taken. */
  function Exec(s: State, run: seq<Action>): Option<State>
    requires Inv(s)
    decreases |run|
  {
    if run == [] then Some(s)
    else if Step(s, run[0]).None? then None
    else
      InvStep(s, run[0]);
      Exec(Step(s, run[0]).value, run[1..])
  }

  lemma InitInv()
    ensures Inv(INIT)
  {
  }

  lemma ClearedKeepsQueue(s: State)
    requires QueueInv(s)
    ensures QueueInv(Cleared(s))
  {
  }

  lemma AcceptKeepsQueue(s: State)
    requires QueueInv(s)
    ensures QueueInv(s.(q := [Event(s.accepted)] + s.q, accepted := s.accepted + 1))
  {
    hide Serials, Shape, Decreasing;
    var t := s.(q := [Event(s.accepted)] + s.q, accepted := s.accepted + 1);
    SerialsOfFront(t.q);
    assert t.q[1..] == s.q;
    ShapeOfMore(s.accepted, s.q);
    MoreDecreases(s.accepted, Serials(s.q));
    assert UpTo(t.accepted) == UpTo(s.accepted) + [s.accepted];
  }

  lemma ShapeOfMore(n: nat, q: seq<Event>)
    requires Shape(q)
    ensures Shape([Event(n)] + q)
  {
  }

  lemma MoreDecreases(n: nat, s: seq<nat>)
    requires Decreasing(s) && forall i :: 0 <= i < |s| ==> s[i] < n
    ensures Decreasing([n] + s)
  {
  }

  lemma MarkKeepsQueue(s: State)
    requires QueueInv(s)
    ensures QueueInv(s.(q := s.q + [Null]))
  {
    SerialsOfMarkers(s.q);
  }

  /** The front event moves from the queue to the engine. */
  lemma PopKeepsQueue(s: State)
    requires QueueInv(s) && s.q != [] && s.q[0] != Null
    ensures QueueInv(s.(q := s.q[1..], returned := s.returned + [s.q[0].serial]))
  {
    hide Decreasing, Shape, Serials;
    var t := s.(q := s.q[1..], returned := s.returned + [s.q[0].serial]);
    SerialsOfFront(s.q);
    ShapeOfRest(s.q);
    TailDecreases(s.q[0].serial, Serials(t.q));
    assert forall i :: 0 <= i < |Serials(t.q)| ==> Serials(t.q)[i] == Serials(s.q)[i + 1];
  }

  lemma SerialsOfFront(q: seq<Event>)
    requires q != [] && q[0] != Null
    ensures Serials(q) == [q[0].serial] + Serials(q[1..])
  {
  }

  lemma ShapeOfRest(q: seq<Event>)
    requires Shape(q) && q != []
    ensures Shape(q[1..])
  {
  }

  lemma TailDecreases(n: nat, s: seq<nat>)
    requires Decreasing([n] + s)
    ensures Decreasing(s)
  {
    assert forall i :: 0 <= i < |s| ==> s[i] == ([n] + s)[i + 1];
  }

  lemma PopMarkerKeepsQueue(s: State)
    requires QueueInv(s) && s.q != [] && s.q[0] == Null
    ensures QueueInv(s.(q := s.q[1..]))
  {
  }

  lemma RetrieveKeepsQueue(s: State)
    requires QueueInv(s) && s.thread == InLoop(InEngine) && EnumeratorValid(s.statics)
    ensures QueueInv(ThreadStep(s, Retrieve).value)
  {
    hide QueueInv, EnumeratorValid;
    if s.q != [] {
      if s.q[0] == Null { PopMarkerKeepsQueue(s); } else { PopKeepsQueue(s); }
    }
  }

  lemma AppStepKeepsInv(s: State, a: Action)
    requires Inv(s) && AppStep(s, a).Some?
    ensures Inv(AppStep(s, a).value)
  {
    match a
    case Accept => AcceptKeepsQueue(s);
    case InjectClear => ClearedKeepsQueue(s);
    case InjectMark => MarkKeepsQueue(s);
    case Add(op, now) => ApplyKeepsWellFormed(s.live, op, now);
    case OpenGate =>
    case Change(op, now) => ApplyKeepsWellFormed(s.live, op, now);
    case _ =>
  }

  lemma ThreadStepKeepsQueue(s: State, a: Action)
    requires QueueInv(s) && EnumeratorValid(s.statics) && ThreadStep(s, a).Some?
    ensures QueueInv(ThreadStep(s, a).value)
  {
    match a
    case ClearQueue => ClearedKeepsQueue(s);
    case Retrieve => RetrieveKeepsQueue(s);
    case _ =>
  }

  lemma ThreadStepKeepsGate(s: State, a: Action)
    requires GateInv(s) && ThreadStep(s, a).Some?
    ensures GateInv(ThreadStep(s, a).value)
  {
  }

  lemma ThreadStepKeepsLife(s: State, a: Action)
    requires LifeInv(s) && EnumeratorValid(s.statics) && ThreadStep(s, a).Some?
    ensures LifeInv(ThreadStep(s, a).value)
  {
  }

  lemma ControlStepKeepsQueue(s: State, a: Action)
    requires QueueInv(s) && ControlStep(s, a).Some?
    ensures QueueInv(ControlStep(s, a).value)
  {
    match a
    case StopClear => ClearedKeepsQueue(s);
    case StopMark => MarkKeepsQueue(s);
    case _ =>
  }

  lemma ControlStepKeepsInv(s: State, a: Action)
    requires Inv(s) && ControlStep(s, a).Some?
    ensures Inv(ControlStep(s, a).value)
  {
    hide QueueInv;
    ControlStepKeepsQueue(s, a);
  }

  /** Every step of every thread keeps the invariant. */
  lemma InvStep(s: State, a: Action)
    requires Inv(s) && Step(s, a).Some?
    ensures Inv(Step(s, a).value)
  {
    if AppStep(s, a).Some? { AppStepKeepsInv(s, a); }
    else if ThreadStep(s, a).Some? {
      ThreadStepKeepsQueue(s, a);
      ThreadStepKeepsGate(s, a);
      ThreadStepKeepsLife(s, a);
    }
    else { ControlStepKeepsInv(s, a); }
  }

  /** Every interleaving of every length keeps it. */
  lemma {:induction false} InvRun(s: State, run: seq<Action>)
    requires Inv(s) && Exec(s, run).Some?
    ensures Inv(Exec(s, run).value)
    decreases |run|
  {
    if run != [] {
      InvStep(s, run[0]);
      InvRun(Step(s, run[0]).value, run[1..]);
    }
  }
}
