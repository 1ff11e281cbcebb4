/** The sync machine object by object: what becomes of the queue, the gate, the passphrase cache, the
    enumerator and the callbacks is what the steps of a run that concern them make of them, in their
    order, and the sync thread follows its program (src/Adapter.cc, src/Adapter.hxx,
    src/callback_dispatcher.cc, src/passphrase_cache.cc). */
module SyncObjects {
  import opened Common
  import opened PassphraseList
  import opened PassphraseWalk
  import opened SyncQueue
  import opened SyncMachine
  import opened SyncTheorems

  // ----- the objects the threads share -----

  /** The queue with its deleter and its user, as the operations of a deque leave them. */
  datatype Ledger = Ledger(q: seq<Event>, accepted: nat, freed: seq<nat>, returned: seq<nat>)

  function LedgerOf(s: State): Ledger {
    Ledger(s.q, s.accepted, s.freed, s.returned)
  }

  /** push_front of the next event, clear, push_back of a null, and pop_front into the engine. */
  function LedgerStep(l: Ledger, a: Action): Ledger {
    match a
    case Accept => Ledger([Event(l.accepted)] + l.q, l.accepted + 1, l.freed, l.returned)
    case InjectClear => Ledger([], l.accepted, l.freed + Serials(l.q), l.returned)
    case StopClear => Ledger([], l.accepted, l.freed + Serials(l.q), l.returned)
    case ClearQueue => Ledger([], l.accepted, l.freed + Serials(l.q), l.returned)
    case InjectMark => Ledger(l.q + [Null], l.accepted, l.freed, l.returned)
    case StopMark => Ledger(l.q + [Null], l.accepted, l.freed, l.returned)
    case Retrieve =>
      if l.q == [] then l
      else Ledger(l.q[1..], l.accepted, l.freed, l.returned + if l.q[0].Event? then [l.q[0].serial] else [])
    case _ => l
  }

  function LedgerAfter(l: Ledger, run: seq<Action>): Ledger
    decreases |run|
  {
    if run == [] then l else LedgerAfter(LedgerStep(l, run[0]), run[1..])
  }

  /** The queue after any interleaving: it is cleared by injections, stops and the start of the thread
      only, every clear frees what is pending, and the engine gets the front elements in their order. */
  lemma {:induction false} QueueIsTheDeque(s: State, run: seq<Action>)
    requires Inv(s) && Exec(s, run).Some?
    ensures LedgerOf(Exec(s, run).value) == LedgerAfter(LedgerOf(s), run)
    decreases |run|
  {
    hide Step, LedgerStep;
    if run != [] {
      InvStep(s, run[0]);
      QueueStep(s, run[0]);
      QueueIsTheDeque(Step(s, run[0]).value, run[1..]);
    }
  }

  lemma QueueStep(s: State, a: Action)
    requires EnumeratorValid(s.statics) && Step(s, a).Some?
    ensures LedgerOf(Step(s, a).value) == LedgerStep(LedgerOf(s), a)
  {
    hide Apply, Next, Serials;
    if a == Retrieve && s.q != [] && s.q[0] == Null { assert s.returned + [] == s.returned; }
  }

  /** The gate, open or closed as the last of these steps left it; how many adds have yet to open it;
      and how many injections have cleared the queue and not yet set their marker. */
  datatype Gate = Gate(closed: bool, opening: int, injecting: int)

  function GateOf(s: State): Gate {
    Gate(s.closed, s.opening, s.injecting)
  }

  function GateAfter(g: Gate, run: seq<Action>): Gate
    decreases |run|
  {
    if run == [] then g
    else
      match run[0]
      case OpenGate => GateAfter(Gate(false, g.opening - 1, g.injecting), run[1..])
      case CloseGate => GateAfter(Gate(true, g.opening, g.injecting), run[1..])
      case Add(_, _) => GateAfter(g.(opening := g.opening + 1), run[1..])
      case InjectClear => GateAfter(g.(injecting := g.injecting + 1), run[1..])
      case InjectMark => GateAfter(g.(injecting := g.injecting - 1), run[1..])
      case _ => GateAfter(g, run[1..])
  }

  lemma {:induction false} GateIsTheLast(s: State, run: seq<Action>)
    requires Inv(s) && Exec(s, run).Some?
    ensures GateOf(Exec(s, run).value) == GateAfter(GateOf(s), run)
    decreases |run|
  {
    hide Step;
    if run != [] {
      InvStep(s, run[0]);
      GateMoves(s, run[0]);
      GateIsTheLast(Step(s, run[0]).value, run[1..]);
    }
  }

  lemma GateMoves(s: State, a: Action)
    requires EnumeratorValid(s.statics) && Step(s, a).Some?
    ensures var t := Step(s, a).value;
      && t.closed == (if a == OpenGate then false else if a == CloseGate then true else s.closed)
      && t.opening == s.opening + (if a.Add? then 1 else if a == OpenGate then -1 else 0)
      && t.injecting == s.injecting + (if a == InjectClear then 1 else if a == InjectMark then -1 else 0)
  {
    hide Apply, Next, Serials;
  }

  /** Who has to wait: the sync thread at a closed gate, the caller of `stop_sync` for the thread to
      finish. An add that has changed the list can open the gate, an injection that has cleared the
      queue can set its marker; nobody waits to enqueue, to add what is not empty, to remove or to search. */
  lemma WhoWaits(s: State)
    requires EnumeratorValid(s.statics)
    ensures s.thread == InLoop(AtGate) ==> (Step(s, PassGate).None? <==> s.closed)
    ensures s.controller == Joining ==> (Step(s, Join).None? <==> s.thread != Finished)
    ensures Step(s, OpenGate).Some? <==> s.opening > 0
    ensures Step(s, InjectMark).Some? <==> s.injecting > 0
    ensures Step(s, Accept).Some? && Step(s, InjectClear).Some?
    ensures forall op, now :: Step(s, Add(op, now)).Some? <==> (op.Plain? || op.Account?) && op.passphrase != ""
    ensures forall op, now :: Step(s, Change(op, now)).Some? <==> op.Remove? || op.ForEach?
  {
    hide Apply, Next, Serials;
  }

  /** The enumerator, which a `Config` moves on with the list it finds and a `Sent` resets; the list is
      what the adds, removes and searches before that have made of it. */
  function EnumeratorAfter(e: Enumerator, live: seq<Entry>, run: seq<Action>): Enumerator
    requires EnumeratorValid(e)
    decreases |run|
  {
    if run == [] then e
    else
      match run[0]
      case Config => EnumeratorAfter(Next(e, live).0, live, run[1..])
      case Sent => EnumeratorAfter(e.(newCopy := true), live, run[1..])
      case Add(op, now) => EnumeratorAfter(e, Apply(live, op, now), run[1..])
      case Change(op, now) => EnumeratorAfter(e, Apply(live, op, now), run[1..])
      case _ => EnumeratorAfter(e, live, run[1..])
  }

  lemma {:induction false} EnumeratorIsItsCalls(s: State, run: seq<Action>)
    requires Inv(s) && Exec(s, run).Some?
    ensures Exec(s, run).value.statics == EnumeratorAfter(s.statics, s.live, run)
    decreases |run|
  {
    hide Step, Apply, Next;
    if run != [] {
      InvStep(s, run[0]);
      LiveStep(s, run[0]);
      StaticsStep(s, run[0]);
      EnumeratorIsItsCalls(Step(s, run[0]).value, run[1..]);
    }
  }

  lemma StaticsStep(s: State, a: Action)
    requires EnumeratorValid(s.statics) && Step(s, a).Some?
    ensures Step(s, a).value.statics
      == if a == Config then Next(s.statics, s.live).0
         else if a == Sent then s.statics.(newCopy := true) else s.statics
  {
    hide Apply, Next, Serials;
  }

  // ----- the program of the sync thread -----

  /** The steps of `sync_thread` that are taken once. */
  const PROGRAM := [RunStartup, ClearQueue, EndLoop, RunShutdown]

  /** How many of them a thread has behind it. */
  function Behind(t: Thread): nat {
    match t
    case NoThread => 0
    case Created => 0
    case Started => 1
    case InLoop(_) => 2
    case LoopEnded => 3
    case Finished => 4
  }

  function Milestone(a: Action): seq<Action> {
    if a.RunStartup? || a.ClearQueue? || a.EndLoop? || a.RunShutdown? then [a] else []
  }

  function Milestones(run: seq<Action>): seq<Action> {
    if run == [] then [] else Milestone(run[0]) + Milestones(run[1..])
  }

  /** Over any run in which the thread is not joined it takes the steps of its program that lie between
      its two places, each once and in order; no other step takes it from one to the next. */
  lemma {:induction false} ThreadFollowsProgram(s: State, run: seq<Action>)
    requires Inv(s) && Exec(s, run).Some? && s.thread != NoThread && Join !in run
    ensures var t := Exec(s, run).value;
      && t.thread != NoThread && Behind(s.thread) <= Behind(t.thread)
      && Milestones(run) == PROGRAM[Behind(s.thread)..Behind(t.thread)]
    decreases |run|
  {
    hide Step, QueueInv, LifeInv, Milestone;
    if run != [] {
      var t := Step(s, run[0]).value;
      InvStep(s, run[0]);
      assert run[0] in run && forall a :: a in run[1..] ==> a in run;
      ProgramStep(s, run[0]);
      ThreadFollowsProgram(t, run[1..]);
      SlicesMeet(PROGRAM, Behind(s.thread), Behind(t.thread), Behind(Exec(s, run).value.thread));
    }
  }

  lemma SlicesMeet<T>(s: seq<T>, i: nat, j: nat, k: nat)
    requires i <= j <= k <= |s|
    ensures s[i..j] + s[j..k] == s[i..k]
  {
  }

  lemma ProgramStep(s: State, a: Action)
    requires EnumeratorValid(s.statics) && Step(s, a).Some? && s.thread != NoThread && a != Join
    ensures var t := Step(s, a).value;
      && t.thread != NoThread && Behind(s.thread) <= Behind(t.thread)
      && Milestone(a) == PROGRAM[Behind(s.thread)..Behind(t.thread)]
  {
    hide EnumeratorValid, AppStep, ThreadStep, ControlStep, Milestone;
    if AppStep(s, a).Some? || ThreadStep(s, a).None? { OthersLeaveThread(s, a); } else { ThreadMoves(s, a); }
  }

  lemma OthersLeaveThread(s: State, a: Action)
    requires s.thread != NoThread && a != Join
    ensures AppStep(s, a).Some? ==> AppStep(s, a).value.thread == s.thread && Milestone(a) == []
    ensures ControlStep(s, a).Some? ==> ControlStep(s, a).value.thread == s.thread && Milestone(a) == []
  {
    hide Apply, Serials;
  }

  lemma ThreadMoves(s: State, a: Action)
    requires EnumeratorValid(s.statics) && ThreadStep(s, a).Some?
    ensures var t := ThreadStep(s, a).value;
      && t.thread != NoThread && Behind(s.thread) <= Behind(t.thread)
      && Milestone(a) == PROGRAM[Behind(s.thread)..Behind(t.thread)]
  {
    hide EnumeratorValid, Next, Serials;
    var t := ThreadStep(s, a).value;
    if Milestone(a) == [] {
      assert Behind(t.thread) == Behind(s.thread);
    } else {
      assert Behind(t.thread) == Behind(s.thread) + 1 && a == PROGRAM[Behind(s.thread)];
    }
  }

  /** The callbacks and the notification, one for each of these steps. */
  function SignalsOf(a: Action): seq<Signal> {
    match a
    case RunStartup => [Startup]
    case RunShutdown => [Shutdown]
    case NotifyStop => [StopNotified]
    case _ => []
  }

  function Signals(run: seq<Action>): seq<Signal> {
    if run == [] then [] else SignalsOf(run[0]) + Signals(run[1..])
  }

  lemma {:induction false} TraceIsTheSignals(s: State, run: seq<Action>)
    requires Inv(s) && Exec(s, run).Some?
    ensures Exec(s, run).value.trace == s.trace + Signals(run)
    decreases |run|
  {
    hide Step, QueueInv, LifeInv, SignalsOf;
    if run == [] {
      assert s.trace + [] == s.trace;
    } else {
      InvStep(s, run[0]);
      TraceStep(s, run[0]);
      TraceIsTheSignals(Step(s, run[0]).value, run[1..]);
      assert s.trace + SignalsOf(run[0]) + Signals(run[1..]) == s.trace + (SignalsOf(run[0]) + Signals(run[1..]));
    }
  }

  lemma TraceStep(s: State, a: Action)
    requires EnumeratorValid(s.statics) && Step(s, a).Some?
    ensures Step(s, a).value.trace == s.trace + SignalsOf(a)
  {
    hide Apply, Next, Serials;
    if SignalsOf(a) == [] { assert s.trace + [] == s.trace; }
  }
}
