/** What holds in every reachable state of the sync machine, and over its runs. */
module SyncTheorems {
  import opened Common
  import P = PassphraseList
  import opened PassphraseWalk
  import opened SyncQueue
  import opened SyncMachine

  ghost predicate Reachable(s: State) {
    exists run :: Exec(INIT, run) == Some(s)
  }

  lemma {:induction false} ExecAppend(s: State, run: seq<Action>, more: seq<Action>)
    requires Inv(s) && Exec(s, run).Some?
    ensures Inv(Exec(s, run).value)
    ensures Exec(s, run + more) == Exec(Exec(s, run).value, more)
    decreases |run|
  {
    hide Step;
    InvRun(s, run);
    if run == [] {
      assert run + more == more;
    } else {
      InvStep(s, run[0]);
      assert (run + more)[1..] == run[1..] + more;
      ExecAppend(Step(s, run[0]).value, run[1..], more);
    }
  }

  /** One more step at the end of a run. */
  lemma Then(s: State, run: seq<Action>, t: State, a: Action, longer: seq<Action>, u: State)
    requires Inv(s) && Exec(s, run) == Some(t) && longer == run + [a]
    requires EnumeratorValid(t.statics) && Step(t, a) == Some(u)
    ensures Exec(s, longer) == Some(u) && Inv(u)
  {
    hide Step;
    ExecAppend(s, run, [a]);
    InvStep(t, a);
    assert Exec(u, []) == Some(u);
  }

  lemma NoSteps(s: State)
    requires Inv(s)
    ensures Exec(s, []) == Some(s)
  {
  }

  lemma ReachableInv(s: State)
    requires Reachable(s)
    ensures Inv(s)
  {
    var run :| Exec(INIT, run) == Some(s);
    InvRun(INIT, run);
  }

  // ----- the queue -----

  /** In every reachable state, also between the two halves of an injection: looking at the last
      element is enough, and when a null is handed to the engine no event is left behind it. */
  lemma ShutdownIsVisible(s: State)
    requires Reachable(s)
    ensures InShutdown(s.q) <==> Null in s.q
    ensures s.q != [] && s.q[0] == Null ==> Serials(s.q) == []
  {
    ReachableInv(s);
    LastTellsAll(s.q);
    if s.q != [] && s.q[0] == Null { FrontMarkerIsAlone(s.q); }
  }

  lemma {:induction false} CountUpTo(n: nat, k: nat)
    ensures multiset(UpTo(n))[k] == if k < n then 1 else 0
  {
    if n > 0 {
      assert UpTo(n) == UpTo(n - 1) + [n - 1];
      CountUpTo(n - 1, k);
    }
  }

  /** Every accepted event is in exactly one of three places, exactly once; no other event is in any. */
  lemma EventFate(s: State, n: nat)
    requires Reachable(s)
    ensures multiset(Serials(s.q))[n] + multiset(s.freed)[n] + multiset(s.returned)[n]
      == if n < s.accepted then 1 else 0
  {
    ReachableInv(s);
    CountUpTo(s.accepted, n);
  }

  /** What the engine is handed next is the newest of the pending events. */
  lemma NewestFirst(s: State, n: nat)
    requires Reachable(s) && s.q != [] && s.q[0] == Event(n)
    ensures forall m: nat :: Event(m) in s.q[1..] ==> m < n
  {
    ReachableInv(s);
    forall m: nat | Event(m) in s.q[1..] ensures m < n {
      var rest := s.q[1..];
      SerialsMember(rest, m);
      var i :| 0 <= i < |Serials(rest)| && Serials(rest)[i] == m;
      assert Serials(s.q)[0] == n && Serials(s.q)[i + 1] == m;
    }
  }

  // ----- the gate and the enumerator -----

  /** No passphrase is handed out while the gate is closed, and behind a closed gate the next
      enumeration takes a new snapshot. */
  lemma GateSafety(s: State)
    requires Reachable(s)
    ensures s.closed ==> s.statics.newCopy && s.thread != InLoop(AtConfig)
    ensures EnumeratorValid(s.statics)
  {
    ReachableInv(s);
  }

  lemma {:induction false} NewCopyStays(s: State, run: seq<Action>)
    requires Inv(s) && Exec(s, run).Some? && s.statics.newCopy && Config !in run
    ensures Exec(s, run).value.statics.newCopy
    decreases |run|
  {
    hide Step;
    if run != [] {
      var t := Step(s, run[0]).value;
      InvStep(s, run[0]);
      assert run[0] in run && forall a :: a in run[1..] ==> a in run;
      OnlyConfigUsesCopy(s, run[0]);
      NewCopyStays(t, run[1..]);
    }
  }

  lemma OnlyConfigUsesCopy(s: State, a: Action)
    requires EnumeratorValid(s.statics) && Step(s, a).Some? && s.statics.newCopy && a != Config
    ensures Step(s, a).value.statics.newCopy
  {
  }

  lemma OnlyOpenGateOpens(s: State, a: Action)
    requires EnumeratorValid(s.statics) && Step(s, a).Some? && s.closed && a != OpenGate
    ensures Step(s, a).value.closed
  {
  }

  lemma {:induction false} StaysClosed(s: State, run: seq<Action>)
    requires Inv(s) && Exec(s, run).Some? && s.closed && OpenGate !in run
    ensures Exec(s, run).value.closed
    decreases |run|
  {
    hide Step;
    if run != [] {
      InvStep(s, run[0]);
      assert run[0] in run && forall a :: a in run[1..] ==> a in run;
      OnlyOpenGateOpens(s, run[0]);
      StaysClosed(Step(s, run[0]).value, run[1..]);
    }
  }

  /** After the gate was closed, however the threads interleave: the enumerator is reached again
      only after somebody opened it; what it then enumerates is the cache as it is at that moment,
      every entry of it; and the first passphrase tried is the one at the back. */
  lemma ResumeIsFresh(s: State, run: seq<Action>, t: State)
    requires Reachable(s) && s.closed
    requires Inv(s) && Exec(s, run) == Some(t) && Config !in run
    requires t.thread == InLoop(AtConfig)
    ensures OpenGate in run
    ensures EnumeratorValid(t.statics)
    ensures Step(t, Config).Some? && Step(t, Config).value.statics.copy.list == t.live
    ensures t.live != [] ==> Next(t.statics, t.live).2 == Some(t.live[|t.live| - 1].passphrase)
  {
    hide Step, Exec, Reachable;
    ReachableInv(s);
    InvRun(s, run);
    NewCopyStays(s, run);
    if OpenGate !in run { StaysClosed(s, run); }
    ConfigStep(t);
  }

  /** A message sent on the sync thread tells that a passphrase worked: however the threads interleave
      from there on, the next time the enumerator is reached it enumerates the cache as it is at that
      moment, from the back, wherever the last enumeration had come to. */
  lemma SentRestarts(s: State, run: seq<Action>, t: State)
    requires Inv(s) && Step(s, Sent).Some? && Inv(Step(s, Sent).value)
    requires Exec(Step(s, Sent).value, run) == Some(t) && Config !in run
    requires t.thread == InLoop(AtConfig)
    ensures EnumeratorValid(t.statics)
    ensures Step(t, Config).Some? && Step(t, Config).value.statics.copy.list == t.live
    ensures t.live != [] ==> Next(t.statics, t.live).2 == Some(t.live[|t.live| - 1].passphrase)
    ensures t.live == [] ==> Next(t.statics, t.live).1 == PassphraseRequired
  {
    hide Exec, Step;
    SentResets(s);
    InvRun(Step(s, Sent).value, run);
    NewCopyStays(Step(s, Sent).value, run);
    ConfigStep(t);
  }

  lemma SentResets(s: State)
    requires EnumeratorValid(s.statics) && Step(s, Sent).Some?
    ensures Step(s, Sent).value.statics.newCopy
  {
  }

  /** What the threads of a run do to the passphrase cache, in order. */
  function OpsOf(run: seq<Action>): seq<(P.Op, int)> {
    if run == [] then []
    else (if run[0].Add? || run[0].Change? then [(run[0].op, run[0].now)] else []) + OpsOf(run[1..])
  }

  /** Whatever else happens in between, the cache is the list after these operations, to which all that
      is proved of runs of the list applies. */
  lemma {:induction false} LiveIsTheList(s: State, run: seq<Action>)
    requires Inv(s) && Exec(s, run).Some?
    ensures Exec(s, run).value.live == P.Run(s.live, OpsOf(run))
    decreases |run|
  {
    hide Step, P.Apply;
    if run != [] {
      var a, t := run[0], Step(s, run[0]).value;
      InvStep(s, a);
      LiveStep(s, a);
      LiveIsTheList(t, run[1..]);
      var more := OpsOf(run[1..]);
      if a.Add? || a.Change? {
        assert ([(a.op, a.now)] + more)[1..] == more;
      } else {
        assert [] + more == more;
      }
    }
  }

  lemma LiveStep(s: State, a: Action)
    requires EnumeratorValid(s.statics) && Step(s, a).Some?
    ensures Step(s, a).value.live == if a.Add? || a.Change? then P.Apply(s.live, a.op, a.now) else s.live
  {
    hide P.Apply, Next, Serials;
  }

  /** Within one retry nothing touches the enumerator before the shutdown check. */
  lemma {:induction false} RetryKeepsStatics(s: State, run: seq<Action>)
    requires Inv(s) && Exec(s, run).Some? && CheckShutdown !in run
    requires s.thread in {InLoop(AtGate), InLoop(AtShutdownCheck)}
    ensures Exec(s, run).value.thread in {InLoop(AtGate), InLoop(AtShutdownCheck)}
    ensures Exec(s, run).value.statics == s.statics
    decreases |run|
  {
    hide Step;
    if run != [] {
      InvStep(s, run[0]);
      assert run[0] in run && forall a :: a in run[1..] ==> a in run;
      WaitingKeepsStatics(s, run[0]);
      RetryKeepsStatics(Step(s, run[0]).value, run[1..]);
    }
  }

  lemma WaitingKeepsStatics(s: State, a: Action)
    requires Inv(s) && Step(s, a).Some? && a != CheckShutdown
    requires s.thread in {InLoop(AtGate), InLoop(AtShutdownCheck)}
    ensures Step(s, a).value.statics == s.statics
    ensures Step(s, a).value.thread in {InLoop(AtGate), InLoop(AtShutdownCheck)}
  {
    hide QueueInv, LifeInv, Serials, Next;
  }

  /** A retry that finds a shutdown marker pending returns to the engine with the enumeration as it
      was when the retry began, whatever the other threads did meanwhile; one that finds none goes
      on to the enumerator. */
  lemma RetryUnderShutdown(s: State, run: seq<Action>, t: State)
    requires Inv(s) && s.thread == InLoop(AtGate)
    requires Exec(s, run) == Some(t) && CheckShutdown !in run && t.thread == InLoop(AtShutdownCheck)
    ensures EnumeratorValid(t.statics)
    ensures var u := Step(t, CheckShutdown).value;
      && u.statics == s.statics
      && (Null in t.q <==> u.thread == InLoop(InEngine))
  {
    hide Step, Exec;
    InvRun(s, run);
    RetryKeepsStatics(s, run);
    LastTellsAll(t.q);
    CheckStep(t);
  }

  lemma CheckStep(t: State)
    requires EnumeratorValid(t.statics) && t.thread == InLoop(AtShutdownCheck)
    ensures Step(t, CheckShutdown) == Some(t.(thread := InLoop(if InShutdown(t.q) then InEngine else AtConfig)))
  {
  }

  lemma ConfigStep(t: State)
    requires EnumeratorValid(t.statics) && t.thread == InLoop(AtConfig)
    ensures var (statics, status, _) := Next(t.statics, t.live);
      Step(t, Config) == Some(t.(statics := statics, thread := InLoop(if status == Ok then InEngine else AtStop)))
  {
  }

  // ----- the life cycle -----

  /** Startup and shutdown callbacks alternate, and each SYNC_NOTIFY_STOP comes after the shutdown
      callback of its run and before the startup callback of the next. */
  lemma Lifecycle(s: State, i: nat)
    requires Reachable(s) && i < |s.trace|
    ensures s.trace[i] == Shutdown ==> i > 0 && s.trace[i - 1] == Startup
    ensures s.trace[i] == StopNotified ==> i > 1 && s.trace[i - 1] == Shutdown && s.trace[i - 2] == Startup
    ensures s.trace[i] == Startup ==> i == 0 || s.trace[i - 1] == StopNotified
  {
    ReachableInv(s);
  }
}
