/** The sync threads themselves, apart from the handle `_sync_thread` that is to denote them
    (src/Adapter.cc, src/Adapter.hxx). */
module SyncThreads {
  import opened Common
  import PassphraseList
  import opened PassphraseWalk
  import opened SyncQueue
  import opened SyncMachine
  import opened SyncTheorems

  /** Any number of threads may exist; `_sync_thread` denotes one of them or, when it is not joinable,
      none. A thread runs as soon as std::thread(...) has made it, before it is assigned. */
  datatype World = World(
    rest: State,              // all but the threads; its slot for one is not used
    threads: map<nat, Thread>,
    count: nat,               // how many were ever made
    handle: Option<nat>,
    made: Option<nat>)        // the one made by `startup` and not assigned yet

  datatype Act =
    | App(a: Action)
    | By(id: nat, a: Action)  // a step of sync thread `id`
    | Control(a: Action)
    | Assign                  // _sync_thread = ...

  const EMPTY := World(INIT, map[], 0, None, None)

  /** `on_sync_thread`, asked by thread `id`. */
  predicate OnSyncThread(w: World, id: nat) {
    w.handle == Some(id)
  }

  /** Unless it finds itself to be the sync thread, a thread has its messages fanned out, and requests
      for a passphrase too. */
  predicate OnlyFansOut(w: World, id: nat, a: Action) {
    !OnSyncThread(w, id) && a in {Resend, Sent}
  }

  function StepBy(w: World, id: nat, a: Action): Option<World>
    requires EnumeratorValid(w.rest.statics)
  {
    if id !in w.threads then None
    else if OnlyFansOut(w, id, a) then (if w.threads[id] == InLoop(InEngine) then Some(w) else None)
    else
      match ThreadStep(w.rest.(thread := w.threads[id]), a)
      case None => None
      case Some(s) => Some(w.(rest := s.(thread := NoThread), threads := w.threads[id := s.thread]))
  }

  /** The controlling thread, which looks at the handle only. */
  function StepControl(w: World, a: Action): Option<World> {
    if w.made.Some? then None
    else
      match (a, w.rest.controller)
      case (StartSync, Idle) =>
        if w.handle.Some? then Some(w)
        else Some(w.(threads := w.threads[w.count := Created], made := Some(w.count), count := w.count + 1))
      case (StopSync, Idle) => Some(if w.handle.None? then w else w.(rest := w.rest.(controller := Clearing)))
      case (Join, Joining) =>
        if w.handle.Some? && w.handle.value in w.threads && w.threads[w.handle.value] == Finished then
          Some(w.(handle := None, rest := w.rest.(controller := Notifying)))
        else None
      case (StopClear, _) => Lift(w, ControlStep(w.rest, a))
      case (StopMark, _) => Lift(w, ControlStep(w.rest, a))
      case (NotifyStop, _) => Lift(w, ControlStep(w.rest, a))
      case _ => None
  }

  function Lift(w: World, s: Option<State>): Option<World> {
    if s.None? then None else Some(w.(rest := s.value))
  }

  function WorldStep(w: World, act: Act): Option<World>
    requires EnumeratorValid(w.rest.statics)
  {
    match act
    case App(a) => Lift(w, AppStep(w.rest, a))
    case By(id, a) => StepBy(w, id, a)
    case Control(a) => StepControl(w, a)
    case Assign => if w.made.Some? then Some(w.(handle := w.made, made := None)) else None
  }

  // ----- one thread at a time -----

  /** The thread the handle denotes, or is about to. */
  function Current(w: World): Option<nat> {
    if w.handle.Some? then w.handle else w.made
  }

  /** The state of the machine with one slot for a thread. */
  function Slot(w: World): State {
    var i := Current(w);
    w.rest.(thread := if i.Some? && i.value in w.threads then w.threads[i.value] else NoThread)
  }

  predicate ThreadsInv(w: World) {
    && w.rest.thread == NoThread
    && (forall id :: id in w.threads ==> id < w.count && w.threads[id] != NoThread)
    && (Current(w).Some? ==> Current(w).value in w.threads)
    && (w.made.Some? ==> w.handle.None? && w.rest.controller == Idle)
    && (forall id :: id in w.threads && w.threads[id] != Finished ==> Current(w) == Some(id))
  }

  predicate WorldInv(w: World) {
    Inv(Slot(w)) && ThreadsInv(w)
  }

  function WorldExec(w: World, run: seq<Act>): Option<World>
    requires WorldInv(w)
    decreases |run|
  {
    if run == [] then Some(w)
    else if WorldStep(w, run[0]).None? then None
    else
      WorldStepInv(w, run[0]);
      WorldExec(WorldStep(w, run[0]).value, run[1..])
  }

  lemma AppRefines(w: World, a: Action)
    requires ThreadsInv(w) && EnumeratorValid(w.rest.statics) && AppStep(w.rest, a).Some?
    ensures var v := Lift(w, AppStep(w.rest, a)).value;
      ThreadsInv(v) && Step(Slot(w), a) == Some(Slot(v))
  {
    hide ThreadStep, ControlStep, PassphraseList.Apply;
    assert AppStep(Slot(w), a) == Some(AppStep(w.rest, a).value.(thread := Slot(w).thread));
  }

  /** Where a thread can take a step, it is the current one. */
  lemma ByRefines(w: World, id: nat, a: Action)
    requires ThreadsInv(w) && EnumeratorValid(w.rest.statics) && StepBy(w, id, a).Some?
    ensures var v := StepBy(w, id, a).value;
      ThreadsInv(v) && (Slot(v) == Slot(w) || Step(Slot(w), a) == Some(Slot(v)))
  {
    hide AppStep, ControlStep, EnumeratorValid;
    if !OnlyFansOut(w, id, a) {
      var v := StepBy(w, id, a).value;
      FinishedIsOver(w.rest.(thread := w.threads[id]), a);
      assert Current(w) == Some(id);
      assert w.rest.(thread := w.threads[id]) == Slot(w);
      ThreadStepsOnly(Slot(w), a);
    }
  }

  lemma FinishedIsOver(s: State, a: Action)
    requires EnumeratorValid(s.statics) && ThreadStep(s, a).Some?
    ensures s.thread != Finished && ThreadStep(s, a).value.thread != NoThread
    ensures ThreadStep(s, a).value.controller == s.controller
  {
  }

  lemma ThreadStepsOnly(s: State, a: Action)
    requires EnumeratorValid(s.statics) && ThreadStep(s, a).Some?
    ensures Step(s, a) == ThreadStep(s, a)
  {
  }

  lemma ControlRefines(w: World, a: Action)
    requires ThreadsInv(w) && EnumeratorValid(w.rest.statics) && StepControl(w, a).Some?
    ensures var v := StepControl(w, a).value;
      ThreadsInv(v) && (Slot(v) == Slot(w) || Step(Slot(w), a) == Some(Slot(v)))
  {
    hide EnumeratorValid;
  }

  /** Every step is a step of the machine with one slot, or leaves that as it is. */
  lemma StepRefines(w: World, act: Act)
    requires WorldInv(w) && WorldStep(w, act).Some?
    ensures var v := WorldStep(w, act).value;
      ThreadsInv(v) && (Slot(v) == Slot(w) || (act != Assign && Step(Slot(w), act.a) == Some(Slot(v))))
  {
    hide AppStep, StepBy, StepControl, QueueInv, LifeInv;
    match act
    case App(a) => AppRefines(w, a);
    case By(id, a) => ByRefines(w, id, a);
    case Control(a) => ControlRefines(w, a);
    case Assign =>
  }

  lemma WorldStepInv(w: World, act: Act)
    requires WorldInv(w) && WorldStep(w, act).Some?
    ensures WorldInv(WorldStep(w, act).value)
  {
    StepRefines(w, act);
    var v := WorldStep(w, act).value;
    if Slot(v) != Slot(w) { InvStep(Slot(w), act.a); }
  }

  lemma EmptyInv()
    ensures WorldInv(EMPTY)
  {
  }

  /** Every run of threads is a run of the machine with one slot. */
  lemma {:induction false} RunRefines(w: World, run: seq<Act>) returns (steps: seq<Action>)
    requires WorldInv(w) && WorldExec(w, run).Some?
    ensures WorldInv(WorldExec(w, run).value)
    ensures Exec(Slot(w), steps) == Some(Slot(WorldExec(w, run).value))
    decreases |run|
  {
    hide WorldStep, Step, QueueInv, LifeInv, ThreadsInv;
    if run == [] {
      steps := [];
    } else {
      var v := WorldStep(w, run[0]).value;
      WorldStepInv(w, run[0]);
      StepRefines(w, run[0]);
      steps := RunRefines(v, run[1..]);
      if Slot(v) != Slot(w) {
        ExecCons(Slot(w), run[0].a, steps);
        steps := [run[0].a] + steps;
      }
    }
  }

  lemma ExecCons(s: State, a: Action, more: seq<Action>)
    requires Inv(s) && Step(s, a).Some?
    ensures Inv(Step(s, a).value) && Exec(s, [a] + more) == Exec(Step(s, a).value, more)
  {
    hide Step;
    InvStep(s, a);
    assert ([a] + more)[1..] == more;
  }

  ghost predicate WorldReachable(w: World) {
    WorldInv(EMPTY) && exists run :: WorldExec(EMPTY, run) == Some(w)
  }

  /** Whatever is proved of the reachable states of the machine with one slot holds of the threads. */
  lemma ReachableSlot(w: World)
    requires WorldReachable(w)
    ensures WorldInv(w) && Reachable(Slot(w))
  {
    hide Inv, ThreadsInv, WorldStep, Step;
    var run :| WorldExec(EMPTY, run) == Some(w);
    var steps := RunRefines(EMPTY, run);
    assert Slot(EMPTY) == INIT;
  }

  /** In every reachable state: at most one thread has not finished. It is the one the handle denotes,
      or, until the assignment is done, the one just made; while there is one, `start_sync` makes no
      other; and while a stop is under way up to the join, the handle denotes a thread. */
  lemma OneThread(w: World, i: nat)
    requires WorldReachable(w) && i in w.threads && w.threads[i] != Finished
    ensures forall j :: j in w.threads && w.threads[j] != Finished ==> j == i
    ensures w.handle == (if w.made.None? then Some(i) else None) && (w.made.Some? ==> w.made == Some(i))
    ensures StepControl(w, StartSync).Some? ==> StepControl(w, StartSync).value == w
    ensures w.rest.controller in {Clearing, Marking, Joining} ==> OnSyncThread(w, i)
  {
    ReachableSlot(w);
  }

  /** A request for a passphrase is taken for one if and only if the handle has been assigned; before
      that the thread does not find itself to be the sync thread, and the request, a null message, goes
      to the targets. */
  lemma RetryIsTaken(w: World, i: nat)
    requires WorldReachable(w) && i in w.threads && w.threads[i] == InLoop(InEngine)
    ensures EnumeratorValid(w.rest.statics) && WorldStep(w, By(i, Resend)).Some?
    ensures WorldStep(w, By(i, Resend)).value.threads[i] == InLoop(AtGate) <==> w.made.None?
    ensures w.made.Some? ==> WorldStep(w, By(i, Resend)).value == w
    ensures WorldStep(w, By(i, Sent)).Some?
    ensures var v := WorldStep(w, By(i, Sent)).value;
      v == if w.made.None? then w.(rest := w.rest.(statics := w.rest.statics.(newCopy := true))) else w
  {
    ReachableSlot(w);
    assert Current(w) == Some(i);
  }

  const HASTY := World(INIT.(trace := [Startup]), map[0 := InLoop(InEngine)], 1, None, Some(0))

  /** And a thread can be that quick. */
  lemma HastyIsReachable()
    ensures WorldReachable(HASTY)
  {
    var made := World(INIT, map[0 := Created], 1, None, Some(0));
    var started := World(INIT.(trace := [Startup]), map[0 := Started], 1, None, Some(0));
    EmptyInv();
    HastySteps(made, started);
    OneAct(EMPTY, Control(StartSync), made, [By(0, RunStartup), By(0, ClearQueue)]);
    OneAct(made, By(0, RunStartup), started, [By(0, ClearQueue)]);
    OneAct(started, By(0, ClearQueue), HASTY, []);
  }

  lemma HastySteps(made: World, started: World)
    requires made == World(INIT, map[0 := Created], 1, None, Some(0))
    requires started == World(INIT.(trace := [Startup]), map[0 := Started], 1, None, Some(0))
    ensures WorldStep(EMPTY, Control(StartSync)) == Some(made)
    ensures WorldStep(made, By(0, RunStartup)) == Some(started)
    ensures WorldStep(started, By(0, ClearQueue)) == Some(HASTY)
  {
    hide AppStep, ControlStep, Next;
    assert INIT.trace + [Startup] == [Startup] && INIT.freed + Serials(INIT.q) == [];
    assert map[0 := Created][0 := Started] == map[0 := Started];
    assert map[0 := Started][0 := InLoop(InEngine)] == map[0 := InLoop(InEngine)];
  }

  lemma OneAct(w: World, a: Act, v: World, more: seq<Act>)
    requires WorldInv(w) && WorldStep(w, a) == Some(v)
    ensures WorldInv(v) && WorldExec(w, [a] + more) == WorldExec(v, more)
  {
    hide WorldStep;
    WorldStepInv(w, a);
    assert ([a] + more)[1..] == more;
  }
}
