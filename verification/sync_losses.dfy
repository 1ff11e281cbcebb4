/** What the sync machine can lose: passphrases added while the sync thread is searching, and stops
    requested before it is in its loop (src/Adapter.cc, src/Adapter.hxx, src/callback_dispatcher.cc,
    src/passphrase_cache.cc). */
module SyncLosses {
  import opened Common
  import opened PassphraseList
  import opened PassphraseWalk
  import opened SyncQueue
  import opened SyncMachine
  import opened SyncTheorems

  // ----- passphrases added -----

  /** Every passphrase of the live cache is in the latest snapshot. */
  predicate Seen(s: State) {
    forall p :: p in Passphrases(s.live) ==> p in Passphrases(s.statics.copy.list)
  }

  lemma AddedPassphrases(list: seq<Entry>, op: Op, now: int)
    requires Opens(op)
    ensures Truncate(op.passphrase) in Passphrases(Apply(list, op, now))
    ensures forall p :: p in Passphrases(Apply(list, op, now)) ==>
      p in Passphrases(list) || p == Truncate(op.passphrase)
  {
    var e := if op.Plain? then Entry("", Truncate(op.passphrase), now)
             else Entry(Truncate(op.email), Truncate(op.passphrase), now);
    var i := FindMatch(list, e);
    var r := AddEntry(list, e);
    assert r == Apply(list, op, now);
    assert Passphrases(r)[i] == e.passphrase;
    forall p | p in Passphrases(r) ensures p in Passphrases(list) || p == e.passphrase {
      var k :| 0 <= k < |r| && Passphrases(r)[k] == p;
      if k != i { assert Passphrases(list)[k] == p; }
    }
  }

  lemma ChangedPassphrases(list: seq<Entry>, op: Op, now: int)
    requires op.Remove? || op.ForEach?
    ensures forall p :: p in Passphrases(Apply(list, op, now)) ==> p in Passphrases(list)
  {
  }

  /** Taking a snapshot makes everything seen. Afterwards only an `add` can change that, and it does
      exactly when its passphrase, cut to length, is not in the snapshot: an enumeration under way
      does not pick it up. */
  lemma SeenStep(s: State, a: Action)
    requires Inv(s) && Step(s, a).Some?
    ensures a == Config && s.statics.newCopy ==> Seen(Step(s, a).value)
    ensures Seen(s) && !a.Add? ==> Seen(Step(s, a).value)
    ensures Seen(s) && a.Add? ==>
      (Seen(Step(s, a).value) <==> Truncate(a.op.passphrase) in Passphrases(s.statics.copy.list))
  {
    hide QueueInv, LifeInv, Apply, Latest, Serials, Passphrases;
    var t := Step(s, a).value;
    match a
    case Add(op, now) => AddedPassphrases(s.live, op, now);
    case Change(op, now) => ChangedPassphrases(s.live, op, now);
    case Sent => assert t.statics.copy == s.statics.copy;
    case Config =>
    case _ => assert t.live == s.live && t.statics == s.statics;
  }

  /** So over any run without an `add` a closed gate means that there is nothing left to try. */
  lemma {:induction false} SeenRun(s: State, run: seq<Action>)
    requires Inv(s) && Exec(s, run).Some? && Seen(s)
    requires forall a :: a in run ==> !a.Add?
    ensures Seen(Exec(s, run).value)
    decreases |run|
  {
    hide Step;
    if run != [] {
      InvStep(s, run[0]);
      assert run[0] in run && forall a :: a in run[1..] ==> a in run;
      SeenStep(s, run[0]);
      SeenRun(Step(s, run[0]).value, run[1..]);
    }
  }

  /** An `add` with this passphrase, as it is stored. */
  predicate Brings(a: Action, p: string) {
    a.Add? && Opens(a.op) && Truncate(a.op.passphrase) == p
  }

  ghost predicate Brought(run: seq<Action>, p: string) {
    exists a :: a in run && Brings(a, p)
  }

  /** No step of the run takes a new snapshot. */
  predicate OneSnapshot(s: State, run: seq<Action>)
    requires Inv(s) && Exec(s, run).Some?
    decreases |run|
  {
    run == [] || (!(run[0] == Config && s.statics.newCopy)
                  && (InvStep(s, run[0]); OneSnapshot(Step(s, run[0]).value, run[1..])))
  }

  lemma SnapshotStaysStep(s: State, a: Action)
    requires Inv(s) && Step(s, a).Some? && !(a == Config && s.statics.newCopy)
    ensures var t := Step(s, a).value;
      && t.statics.copy.list == s.statics.copy.list
      && forall p :: p in Passphrases(t.live) ==> p in Passphrases(s.live) || Brings(a, p)
  {
    hide QueueInv, LifeInv, Apply, Latest, Serials, Passphrases;
    match a
    case Add(op, now) => AddedPassphrases(s.live, op, now);
    case Change(op, now) => ChangedPassphrases(s.live, op, now);
    case _ =>
  }

  /** Without a new snapshot the old one stays, and what is live at the end was live at the start or
      was brought by an `add`, whatever else was overwritten, removed or moved. */
  lemma {:induction false} SnapshotStays(s: State, run: seq<Action>)
    requires Inv(s) && Exec(s, run).Some? && OneSnapshot(s, run)
    ensures var t := Exec(s, run).value;
      && t.statics.copy.list == s.statics.copy.list
      && forall p :: p in Passphrases(t.live) ==> p in Passphrases(s.live) || Brought(run, p)
    decreases |run|
  {
    hide Step, Brings, Passphrases;
    if run != [] {
      var u := Step(s, run[0]).value;
      InvStep(s, run[0]);
      SnapshotStaysStep(s, run[0]);
      SnapshotStays(u, run[1..]);
      assert run[0] in run && forall a :: a in run[1..] ==> a in run;
    }
  }

  /** The gate is closed, every `add` has done its semaphore.go(), and a passphrase of the cache was
      not among those tried: nobody is left to open the gate for it. */
  predicate Stranded(s: State) {
    s.closed && s.opening == 0 && !Seen(s)
  }

  /** From a point at which the snapshot has everything, through the rest of the enumeration in any
      interleaving to the closing of the gate: when all adds have opened the gate, a passphrase is
      stranded if and only if one of them brought one that the snapshot did not have and that is still
      in the cache, whenever in that time it came. */
  lemma LostWakeUp(s: State, run: seq<Action>, t: State)
    requires Inv(s) && Seen(s)
    requires Exec(s, run + [CloseGate]) == Some(t) && OneSnapshot(s, run + [CloseGate]) && t.opening == 0
    ensures Stranded(t) <==> exists a ::
      && a in run && a.Add? && Opens(a.op)
      && Truncate(a.op.passphrase) in Passphrases(t.live)
      && Truncate(a.op.passphrase) !in Passphrases(s.statics.copy.list)
  {
    hide Step, Passphrases, Inv, Exec, OneSnapshot;
    SnapshotStays(s, run + [CloseGate]);
    EndsClosed(s, run);
    forall a | a in run + [CloseGate] ensures a in run || a == CloseGate {}
    if p :| p in Passphrases(t.live) && p !in Passphrases(t.statics.copy.list) {
      assert Brought(run + [CloseGate], p);
      var a :| a in run + [CloseGate] && Brings(a, p);
      assert a in run;
    }
  }

  lemma {:induction false} EndsClosed(s: State, run: seq<Action>)
    requires Inv(s) && Exec(s, run + [CloseGate]).Some?
    ensures Exec(s, run + [CloseGate]).value.closed
    decreases |run|
  {
    hide Step;
    var all := run + [CloseGate];
    InvStep(s, all[0]);
    if run == [] {
      assert all[1..] == [];
      ClosingCloses(s);
    } else {
      assert all[1..] == run[1..] + [CloseGate];
      EndsClosed(Step(s, run[0]).value, run[1..]);
    }
  }

  lemma ClosingCloses(s: State)
    requires EnumeratorValid(s.statics) && Step(s, CloseGate).Some?
    ensures Step(s, CloseGate).value.closed
  {
  }

  // the sync thread in its loop, with one account in the cache and its passphrase tried
  const ONE := [Entry("e", "a", 0)]
  const LOOPING := INIT.(thread := InLoop(InEngine), trace := [Startup])
  const TRYING := LOOPING.(live := ONE, statics := Next(FRESH, ONE).0)
  const FAILED := LOOPING.(live := ONE, statics := Next(TRYING.statics, ONE).0, thread := InLoop(AtStop))
  const LATER := Plain("b")
  const CHANGED := Account("e", "b")
  const RETRY := [Resend, PassGate, CheckShutdown, Config]

  lemma ResendStep(s: State)
    requires EnumeratorValid(s.statics) && s.thread == InLoop(InEngine)
    ensures Step(s, Resend) == Some(s.(thread := InLoop(AtGate)))
  {
  }

  lemma GateStep(s: State)
    requires EnumeratorValid(s.statics) && s.thread == InLoop(AtGate)
    ensures Step(s, PassGate) == if s.closed then None else Some(s.(thread := InLoop(AtShutdownCheck)))
  {
  }

  /** One retry with the gate open and no shutdown pending. */
  lemma RetryRuns(s: State, t: State)
    requires Inv(s) && s.thread == InLoop(InEngine) && !s.closed && !InShutdown(s.q)
    requires t == s.(statics := Next(s.statics, s.live).0,
                     thread := InLoop(if Next(s.statics, s.live).1 == Ok then InEngine else AtStop))
    ensures Exec(s, RETRY) == Some(t) && Inv(t)
  {
    hide Exec, Step, Next, QueueInv, LifeInv, Serials;
    var s1, s2 := s.(thread := InLoop(AtGate)), s.(thread := InLoop(AtShutdownCheck));
    var s3 := s.(thread := InLoop(AtConfig));
    NoSteps(s);
    ResendStep(s);
    GateStep(s1);
    CheckStep(s2);
    ConfigStep(s3);
    Then(s, [], s, Resend, [Resend], s1);
    Then(s, [Resend], s1, PassGate, [Resend, PassGate], s2);
    Then(s, [Resend, PassGate], s2, CheckShutdown, [Resend, PassGate, CheckShutdown], s3);
    Then(s, [Resend, PassGate, CheckShutdown], s3, Config, RETRY, t);
  }

  /** An add with its semaphore.go(). */
  lemma AddRuns(s: State, op: Op, now: int)
    requires Inv(s) && Opens(op)
    ensures var t := s.(live := Apply(s.live, op, now), closed := false);
      Exec(s, [Add(op, now), OpenGate]) == Some(t) && Inv(t)
  {
    hide Exec, Apply, QueueInv, LifeInv, Serials;
    var t := s.(live := Apply(s.live, op, now), closed := false);
    var s1 := s.(live := t.live, opening := s.opening + 1);
    NoSteps(s);
    Then(s, [], s, Add(op, now), [Add(op, now)], s1);
    Then(s, [Add(op, now)], s1, OpenGate, [Add(op, now), OpenGate], t);
  }

  const ADD_ONE := [Add(Account("e", "a"), 0), OpenGate]
  const ENTER := [StartSync, RunStartup, ClearQueue]

  lemma LoopIsReached()
    ensures Exec(INIT, ENTER) == Some(LOOPING) && Inv(LOOPING)
  {
    hide Exec;
    var s1, s2 := INIT.(thread := Created), INIT.(thread := Started, trace := [Startup]);
    assert INIT.trace + [Startup] == [Startup] && INIT.freed + Serials(INIT.q) == [];
    NoSteps(INIT);
    Then(INIT, [], INIT, StartSync, [StartSync], s1);
    Then(INIT, [StartSync], s1, RunStartup, [StartSync, RunStartup], s2);
    Then(INIT, [StartSync, RunStartup], s2, ClearQueue, ENTER, LOOPING);
  }

  lemma TryingIsReachable()
    ensures Exec(INIT, ENTER + ADD_ONE + RETRY) == Some(TRYING) && Inv(TRYING) && Seen(TRYING)
  {
    hide Exec, Step, Inv;
    InitInv();
    LoopIsReached();
    assert Apply([], Account("e", "a"), 0) == ONE;
    AddRuns(LOOPING, Account("e", "a"), 0);
    ExecAppend(INIT, ENTER, ADD_ONE);
    RetryRuns(LOOPING.(live := ONE), TRYING);
    ExecAppend(INIT, ENTER + ADD_ONE, RETRY);
  }

  /** An `add` during a search that then fails. */
  lemma AddDuring(s: State, op: Op, now: int)
    requires Inv(s) && s.thread == InLoop(InEngine) && !s.closed && !InShutdown(s.q) && Opens(op)
    requires var live := Apply(s.live, op, now); Next(s.statics, live).1 != Ok
    ensures var live := Apply(s.live, op, now);
      var t := s.(live := live, statics := Next(s.statics, live).0, closed := true);
      Exec(s, [Add(op, now), OpenGate] + RETRY + [CloseGate]) == Some(t) && Inv(t)
  {
    hide Exec, Apply, Next, QueueInv, LifeInv, Serials;
    var live := Apply(s.live, op, now);
    var s2 := s.(live := live);
    var s3 := s2.(statics := Next(s.statics, live).0, thread := InLoop(AtStop));
    AddRuns(s, op, now);
    RetryRuns(s2, s3);
    ExecAppend(s, [Add(op, now), OpenGate], RETRY);
    Then(s, [Add(op, now), OpenGate] + RETRY, s3, CloseGate, [Add(op, now), OpenGate] + RETRY + [CloseGate],
         s3.(closed := true, thread := InLoop(InEngine)));
  }

  /** One after the search has failed. */
  lemma AddAfter(s: State, op: Op, now: int)
    requires Inv(s) && s.thread == InLoop(AtStop) && Opens(op)
    ensures var t := s.(live := Apply(s.live, op, now), closed := true, thread := InLoop(InEngine));
      Exec(s, [Add(op, now), OpenGate, CloseGate]) == Some(t) && Inv(t)
  {
    hide Exec, Apply, QueueInv, LifeInv, Serials;
    var s2 := s.(live := Apply(s.live, op, now), closed := false);
    AddRuns(s, op, now);
    Then(s, [Add(op, now), OpenGate], s2, CloseGate, [Add(op, now), OpenGate, CloseGate],
         s2.(closed := true, thread := InLoop(InEngine)));
  }

  /** A passphrase added, and an account given another one, are not in the snapshot, which is at its end. */
  lemma LateAdds()
    ensures var live := Apply(ONE, LATER, 1);
      "b" in Passphrases(live) && Next(TRYING.statics, live).1 != Ok
    ensures var live := Apply(ONE, CHANGED, 1); "b" in Passphrases(live) && Next(TRYING.statics, live).1 != Ok
    ensures forall live :: Next(TRYING.statics, live).0.copy.list == ONE
    ensures FAILED.statics.copy.list == ONE && "b" !in Passphrases(ONE)
  {
    assert "b" !in Passphrases(ONE);
    assert Apply(ONE, LATER, 1) == ONE + [Entry("", "b", 1)];
    assert Passphrases(ONE + [Entry("", "b", 1)])[1] == "b";
    assert Apply(ONE, CHANGED, 1) == [Entry("e", "b", 1)];
    assert Passphrases([Entry("e", "b", 1)])[0] == "b";
  }

  /** Both happen: a passphrase added, or an account given another one, while the search goes on, and a
      passphrase added after it has failed. */
  lemma StrandedIsReachable()
    ensures Reachable(TRYING) && Reachable(FAILED) && Inv(TRYING) && Inv(FAILED) && Seen(TRYING) && Seen(FAILED)
    ensures var during := Exec(TRYING, [Add(LATER, 1), OpenGate] + RETRY + [CloseGate]);
      during.Some? && Stranded(during.value)
    ensures var changed := Exec(TRYING, [Add(CHANGED, 1), OpenGate] + RETRY + [CloseGate]);
      changed.Some? && Stranded(changed.value)
    ensures var after := Exec(FAILED, [Add(LATER, 1), OpenGate, CloseGate]);
      after.Some? && Stranded(after.value)
  {
    hide Exec, Apply, Passphrases;
    TryingIsReachable();
    RetryRuns(TRYING, FAILED);
    ExecAppend(INIT, ENTER + ADD_ONE + RETRY, RETRY);
    LateAdds();
    AddDuring(TRYING, LATER, 1);
    AddDuring(TRYING, CHANGED, 1);
    AddAfter(FAILED, LATER, 1);
  }

  // ----- stops requested -----

  /** The engine has been handed a null during the run. */
  predicate TookNull(s: State, run: seq<Action>)
    requires Inv(s)
    decreases |run|
  {
    run != [] && Step(s, run[0]).Some? &&
    ((run[0] == Retrieve && s.thread == InLoop(InEngine) && s.q != [] && s.q[0] == Null)
     || (InvStep(s, run[0]); TookNull(Step(s, run[0]).value, run[1..])))
  }

  /** What one step of anybody does to the pending markers while the loop runs. */
  lemma MarkerStays(s: State, a: Action)
    requires Inv(s) && Step(s, a).Some? && s.thread.InLoop? && s.controller == Joining && a != EndLoop
    requires Null in s.q || s.injecting > 0
    ensures var t := Step(s, a).value;
      && t.thread.InLoop? && t.controller == Joining
      && (Null in t.q || t.injecting > 0
          || (a == Retrieve && s.thread == InLoop(InEngine) && s.q != [] && s.q[0] == Null))
  {
    hide QueueInv, LifeInv, Apply, Next, Serials;
    if a == Accept { assert Step(s, a).value.q == [Event(s.accepted)] + s.q; }
    if a == Retrieve && s.q != [] { assert s.q == [s.q[0]] + Step(s, a).value.q; }
  }

  lemma {:induction false} MarkerReaches(s: State, run: seq<Action>)
    requires Inv(s) && Exec(s, run).Some? && s.thread.InLoop? && s.controller == Joining && EndLoop !in run
    requires Null in s.q || s.injecting > 0
    ensures var t := Exec(s, run).value; Null in t.q || t.injecting > 0 || TookNull(s, run)
    decreases |run|
  {
    hide Step;
    if run != [] {
      InvStep(s, run[0]);
      assert run[0] in run && forall a :: a in run[1..] ==> a in run;
      MarkerStays(s, run[0]);
      var t := Step(s, run[0]).value;
      if Null in t.q || t.injecting > 0 { MarkerReaches(t, run[1..]); }
    }
  }

  /** A stop requested when the sync thread is in its loop is not lost, whoever else enqueues or
      injects: until the loop ends the marker is pending, or another injection is about to replace
      it, or the engine has been handed a null. */
  lemma StopInLoopReaches(s: State, run: seq<Action>)
    requires Reachable(s) && s.thread.InLoop? && s.controller == Marking
    requires Inv(s) && Step(s, StopMark).Some? && Inv(Step(s, StopMark).value)
    requires Exec(Step(s, StopMark).value, run).Some? && EndLoop !in run
    ensures var t := Exec(Step(s, StopMark).value, run).value;
      Null in t.q || t.injecting > 0 || TookNull(Step(s, StopMark).value, run)
  {
    var u := Step(s, StopMark).value;
    assert u.q[|s.q|] == Null;
    MarkerReaches(u, run);
  }

  lemma {:induction false} NoMarkerComes(s: State, run: seq<Action>)
    requires Inv(s) && Exec(s, run).Some? && Null !in s.q
    requires s.controller == Joining && s.thread.InLoop? && InjectMark !in run && EndLoop !in run
    ensures Null !in Exec(s, run).value.q && !TookNull(s, run)
    decreases |run|
  {
    hide Step;
    if run != [] {
      var t := Step(s, run[0]).value;
      InvStep(s, run[0]);
      assert run[0] in run && forall a :: a in run[1..] ==> a in run;
      NoMarkerStep(s, run[0]);
      NoMarkerComes(t, run[1..]);
    }
  }

  lemma NoMarkerStep(s: State, a: Action)
    requires Inv(s) && Step(s, a).Some? && Null !in s.q
    requires s.controller == Joining && s.thread.InLoop? && a != InjectMark && a != EndLoop
    ensures var t := Step(s, a).value; Null !in t.q && t.controller == Joining && t.thread.InLoop?
  {
    hide QueueInv, LifeInv, Apply, Next, Serials;
    if a == Accept { assert Step(s, a).value.q == [Event(s.accepted)] + s.q; }
    if a == Retrieve && s.q != [] { assert s.q == [s.q[0]] + Step(s, a).value.q; }
  }

  /** A stop requested before the sync thread has cleared the queue is lost with that clear: the
      loop then runs on, and unless some other thread injects one the engine never gets a null
      while `stop_sync` waits in join. */
  lemma EarlyStopIsLost(s: State, run: seq<Action>)
    requires Reachable(s) && s.thread == Started && s.controller == Joining
    requires Inv(s) && Step(s, ClearQueue).Some? && Inv(Step(s, ClearQueue).value)
    requires Exec(Step(s, ClearQueue).value, run).Some? && InjectMark !in run && EndLoop !in run
    ensures var t := Exec(Step(s, ClearQueue).value, run).value;
      && Null !in t.q && t.controller == Joining && t.thread.InLoop?
      && !TookNull(Step(s, ClearQueue).value, run)
  {
    var u := Step(s, ClearQueue).value;
    NoMarkerComes(u, run);
    StillWaiting(u, run);
  }

  lemma StillWaitingStep(s: State, a: Action)
    requires Inv(s) && Step(s, a).Some? && s.controller == Joining && s.thread.InLoop? && a != EndLoop
    ensures Step(s, a).value.controller == Joining && Step(s, a).value.thread.InLoop?
  {
    hide QueueInv, LifeInv, Apply, Next, Serials;
  }

  lemma {:induction false} StillWaiting(s: State, run: seq<Action>)
    requires Inv(s) && Exec(s, run).Some? && s.controller == Joining && s.thread.InLoop? && EndLoop !in run
    ensures Exec(s, run).value.controller == Joining && Exec(s, run).value.thread.InLoop?
    decreases |run|
  {
    hide Step;
    if run != [] {
      InvStep(s, run[0]);
      assert run[0] in run && forall a :: a in run[1..] ==> a in run;
      StillWaitingStep(s, run[0]);
      StillWaiting(Step(s, run[0]).value, run[1..]);
    }
  }

  /** While the caller of `stop_sync` is in join: the thread is in its loop with a marker pending, or
      it is not in its loop yet, or it is and no marker is pending. */
  predicate AwaitsStop(s: State, kept: bool) {
    && s.controller == Joining
    && if kept then s.thread.InLoop? && Null in s.q
       else s.thread in {Created, Started} || (s.thread.InLoop? && Null !in s.q)
  }

  lemma AwaitStep(s: State, a: Action, kept: bool)
    requires Inv(s) && Step(s, a).Some? && AwaitsStop(s, kept) && a !in {InjectClear, InjectMark, EndLoop}
    ensures AwaitsStop(Step(s, a).value, kept)
      || (kept && a == Retrieve && s.thread == InLoop(InEngine) && s.q != [] && s.q[0] == Null)
    ensures !kept ==> !(a == Retrieve && s.thread == InLoop(InEngine) && s.q != [] && s.q[0] == Null)
  {
    hide QueueInv, LifeInv, Apply, Next, Serials;
    var t := Step(s, a).value;
    if a == Accept { assert t.q == [Event(s.accepted)] + s.q; }
    if a == Retrieve && s.q != [] { assert s.q == [s.q[0]] + t.q; }
  }

  lemma {:induction false} AwaitRun(s: State, run: seq<Action>, kept: bool)
    requires Inv(s) && Exec(s, run).Some? && AwaitsStop(s, kept)
    requires forall a :: a in run ==> a !in {InjectClear, InjectMark, EndLoop}
    ensures kept ==> TookNull(s, run) || AwaitsStop(Exec(s, run).value, true)
    ensures !kept ==> !TookNull(s, run) && AwaitsStop(Exec(s, run).value, false)
    decreases |run|
  {
    hide Step, AwaitsStop;
    if run != [] {
      InvStep(s, run[0]);
      assert run[0] in run && forall a :: a in run[1..] ==> a in run;
      AwaitStep(s, run[0], kept);
      var t := Step(s, run[0]).value;
      if AwaitsStop(t, kept) { AwaitRun(t, run[1..], kept); }
    }
  }

  /** Exactly when a stop reaches the engine. From the moment `stop_sync` sets its marker, with the
      thread anywhere before the end of its loop, and over any run into the loop in which nobody else
      injects: the marker is pending or the engine has been handed it if and only if the thread was in
      its loop when the marker was set. */
  lemma StopSurvives(s: State, run: seq<Action>)
    requires Inv(s) && s.controller == Marking && (s.thread in {Created, Started} || s.thread.InLoop?)
    requires Step(s, StopMark).Some? && Inv(Step(s, StopMark).value)
    requires Exec(Step(s, StopMark).value, run).Some?
    requires forall a :: a in run ==> a !in {InjectClear, InjectMark, EndLoop}
    requires Exec(Step(s, StopMark).value, run).value.thread.InLoop?
    ensures var u := Step(s, StopMark).value;
      (Null in Exec(u, run).value.q || TookNull(u, run)) <==> s.thread.InLoop?
  {
    hide Exec, QueueInv, LifeInv;
    var u := Step(s, StopMark).value;
    MarkStep(s);
    AwaitRun(u, run, s.thread.InLoop?);
  }

  lemma MarkStep(s: State)
    requires EnumeratorValid(s.statics) && s.controller == Marking && Step(s, StopMark).Some?
    ensures var u := Step(s, StopMark).value;
      u.controller == Joining && u.thread == s.thread && u.q == s.q + [Null] && Null in u.q
  {
    var u := Step(s, StopMark).value;
    assert u.q == s.q + [Null];
    assert u.q[|s.q|] == Null;
  }

  const EARLY := INIT.(thread := Started, controller := Joining, q := [Null], trace := [Startup])
  const LOST := EARLY.(thread := InLoop(InEngine), q := [])

  /** `stop_sync` up to the join, with nobody in between. */
  lemma StopRuns(s: State)
    requires Inv(s) && s.controller == Idle && s.thread != NoThread
    ensures var t := Cleared(s).(q := [Null], controller := Joining);
      Exec(s, [StopSync, StopClear, StopMark]) == Some(t) && Inv(t)
  {
    hide Exec, Inv, Step;
    var s1, s2 := s.(controller := Clearing), Cleared(s).(controller := Marking);
    var t := s2.(q := [Null], controller := Joining);
    StopSteps(s);
    NoSteps(s);
    Then(s, [], s, StopSync, [StopSync], s1);
    Then(s, [StopSync], s1, StopClear, [StopSync, StopClear], s2);
    Then(s, [StopSync, StopClear], s2, StopMark, [StopSync, StopClear, StopMark], t);
  }

  lemma StopSteps(s: State)
    requires Inv(s) && s.controller == Idle && s.thread != NoThread
    ensures var s1, s2 := s.(controller := Clearing), Cleared(s).(controller := Marking);
      && EnumeratorValid(s.statics)
      && Step(s, StopSync) == Some(s1)
      && Step(s1, StopClear) == Some(s2)
      && Step(s2, StopMark) == Some(s2.(q := [Null], controller := Joining))
  {
    hide QueueInv, LifeInv, Serials, Step;
    StopSyncStep(s);
    StopClearStep(s.(controller := Clearing));
    StopMarkStep(Cleared(s).(controller := Marking));
  }

  lemma StopSyncStep(s: State)
    requires EnumeratorValid(s.statics) && s.controller == Idle && s.thread != NoThread
    ensures Step(s, StopSync) == Some(s.(controller := Clearing))
  {
  }

  lemma StopClearStep(s: State)
    requires EnumeratorValid(s.statics) && s.controller == Clearing
    ensures Step(s, StopClear) == Some(Cleared(s).(controller := Marking))
  {
    hide Serials;
  }

  lemma StopMarkStep(s: State)
    requires EnumeratorValid(s.statics) && s.controller == Marking && s.q == []
    ensures Step(s, StopMark) == Some(s.(q := [Null], controller := Joining))
  {
    assert [] + [Null] == [Null];
  }

  /** A stop does come early, and is lost: called right after `start_sync`, before the thread has run. */
  lemma EarlyStopIsReachable()
    ensures Reachable(EARLY) && Null in EARLY.q && Inv(EARLY)
    ensures Step(EARLY, ClearQueue) == Some(LOST) && Null !in LOST.q && Inv(LOST)
  {
    hide Exec, Inv;
    var created := INIT.(thread := Created);
    var stopped := created.(controller := Joining, q := [Null]);
    assert INIT.trace + [Startup] == [Startup] && INIT.freed + Serials(INIT.q) == [];
    InitInv();
    NoSteps(INIT);
    Then(INIT, [], INIT, StartSync, [StartSync], created);
    StopRuns(created);
    ExecAppend(INIT, [StartSync], [StopSync, StopClear, StopMark]);
    Then(INIT, [StartSync] + [StopSync, StopClear, StopMark], stopped, RunStartup,
         [StartSync, StopSync, StopClear, StopMark, RunStartup], EARLY);
    ClearingLoses();
    InvStep(EARLY, ClearQueue);
  }

  lemma ClearingLoses()
    ensures Step(EARLY, ClearQueue) == Some(LOST)
  {
    SerialsOfMarkers([]);
    assert [] + [Null] == [Null];
    assert EARLY.freed + Serials(EARLY.q) == [];
  }

  lemma WaitStep(s: State, a: Action)
    requires Inv(s) && Step(s, a).Some? && a != OpenGate
    requires s.closed && s.thread == InLoop(AtGate) && s.controller == Joining
    ensures var t := Step(s, a).value; t.closed && t.thread == InLoop(AtGate) && t.controller == Joining
  {
    hide QueueInv, LifeInv, Apply, Next, Serials;
  }

  /** A stop requested while the sync thread waits at the closed gate: as long as nobody opens the
      gate, the thread stays there and the join does not end, marker or no marker. */
  lemma {:induction false} StopWaitsForGate(s: State, run: seq<Action>)
    requires Inv(s) && Exec(s, run).Some? && OpenGate !in run
    requires s.closed && s.thread == InLoop(AtGate) && s.controller == Joining
    ensures var t := Exec(s, run).value;
      && t.closed && t.thread == InLoop(AtGate) && t.controller == Joining
      && EnumeratorValid(t.statics) && Step(t, PassGate) == None && Step(t, Join) == None
    decreases |run|
  {
    hide Step;
    if run == [] {
      NeitherPassesNorJoins(s);
    } else {
      InvStep(s, run[0]);
      assert run[0] in run && forall a :: a in run[1..] ==> a in run;
      WaitStep(s, run[0]);
      StopWaitsForGate(Step(s, run[0]).value, run[1..]);
    }
  }

  lemma NeitherPassesNorJoins(s: State)
    requires EnumeratorValid(s.statics) && s.closed && s.thread == InLoop(AtGate)
    ensures Step(s, PassGate) == None && Step(s, Join) == None
  {
  }
}
