/** The registered targets, and what each of them is called with (src/callback_dispatcher.cc). */
module CallbackDispatcher {
  import opened Common
  import opened Messages
  import opened HeapLists
  import opened HeapMessages
  import opened HeapEngine
  import opened HeapEntries
  import opened PassphraseWalk
  import opened PassphraseCache
  import opened SyncQueue

  /** A function pointer. */
  type Handler = nat

  datatype Callbacks = Callbacks(
    messageToSend: Handler,
    notifyHandshake: Option<Handler>,
    onStartup: Option<Handler>,
    onShutdown: Option<Handler>)

  /** The only handshake signal this library itself gives; the engine's others are `Signal`. */
  datatype Signal = NotifyStop | Signal(code: int)

  /** A call into a target. */
  datatype Delivery =
    | Sent(to: Handler, msg: Message?)
    | Handshake(to: Handler, me: Option<Identity>, partner: Option<Identity>, signal: Signal)
    | StartedUp(to: Handler)
    | ShutDown(to: Handler)

  function OfStartup(t: Callbacks): Option<Delivery> {
    if t.onStartup.Some? then Some(StartedUp(t.onStartup.value)) else None
  }

  function OfShutdown(t: Callbacks): Option<Delivery> {
    if t.onShutdown.Some? then Some(ShutDown(t.onShutdown.value)) else None
  }

  function OfHandshake(me: Option<Identity>, partner: Option<Identity>, signal: Signal): Callbacks -> Option<Delivery> {
    (t: Callbacks) =>
      if t.notifyHandshake.Some? then Some(Handshake(t.notifyHandshake.value, me, partner, signal)) else None
  }

  /** The calls into all targets that have the callback, in the order of registration. */
  function Calls(targets: seq<Callbacks>, of: Callbacks -> Option<Delivery>): seq<Delivery> {
    if targets == [] then []
    else (if of(targets[0]).Some? then [of(targets[0]).value] else []) + Calls(targets[1..], of)
  }

  function Startups(targets: seq<Callbacks>): seq<Delivery> {
    Calls(targets, OfStartup)
  }

  function Shutdowns(targets: seq<Callbacks>): seq<Delivery> {
    Calls(targets, OfShutdown)
  }

  function Handshakes(targets: seq<Callbacks>, me: Option<Identity>, partner: Option<Identity>, signal: Signal):
      seq<Delivery>
  {
    Calls(targets, OfHandshake(me, partner, signal))
  }

  lemma {:induction false} CallsConcat(one: seq<Callbacks>, two: seq<Callbacks>, of: Callbacks -> Option<Delivery>)
    ensures Calls(one + two, of) == Calls(one, of) + Calls(two, of)
  {
    if one == [] {
      assert one + two == two;
    } else {
      var first := if of(one[0]).Some? then [of(one[0]).value] else [];
      calc {
        Calls(one + two, of);
        { assert (one + two)[0] == one[0] && (one + two)[1..] == one[1..] + two; }
        first + Calls(one[1..] + two, of);
        { CallsConcat(one[1..], two, of); }
        first + (Calls(one[1..], of) + Calls(two, of));
        first + Calls(one[1..], of) + Calls(two, of);
        Calls(one, of) + Calls(two, of);
      }
    }
  }

  lemma CallsOne(t: Callbacks, of: Callbacks -> Option<Delivery>)
    ensures Calls([t], of) == if of(t).Some? then [of(t).value] else []
  {
  }

  lemma CallsSnoc(before: seq<Callbacks>, t: Callbacks, after: seq<Callbacks>, of: Callbacks -> Option<Delivery>)
    ensures Calls(before + [t], of) == Calls(before, of) + if of(t).Some? then [of(t).value] else []
    ensures Calls(before + [t], of) <= Calls(before + [t] + after, of)
  {
    hide Calls;
    CallsConcat(before, [t], of);
    CallsOne(t, of);
    CallsConcat(before + [t], after, of);
  }

  lemma TakeNext<T>(s: seq<T>, i: nat)
    requires i < |s|
    ensures s[..i] + [s[i]] == s[..i + 1] && s[..i + 1] + s[i + 1..] == s
  {
  }

  /** One more target has been reached. */
  lemma CallsNext(targets: seq<Callbacks>, i: nat, of: Callbacks -> Option<Delivery>)
    requires i < |targets|
    ensures Calls(targets[..i + 1], of)
      == Calls(targets[..i], of) + if of(targets[i]).Some? then [of(targets[i]).value] else []
    ensures Calls(targets[..i + 1], of) <= Calls(targets, of)
  {
    hide Calls;
    CallsSnoc(targets[..i], targets[i], targets[i + 1..], of);
    TakeNext(targets, i);
  }

  // ----- which call is which target's -----

  function HowMany(flags: seq<bool>): nat {
    if flags == [] then 0
    else HowMany(flags[..|flags| - 1]) + (if flags[|flags| - 1] then 1 else 0)
  }

  /** Which targets have the callback. */
  function WithStartup(targets: seq<Callbacks>): (r: seq<bool>)
    ensures |r| == |targets| && forall i :: 0 <= i < |targets| ==> r[i] == targets[i].onStartup.Some?
  {
    seq(|targets|, i requires 0 <= i < |targets| => targets[i].onStartup.Some?)
  }

  function WithShutdown(targets: seq<Callbacks>): (r: seq<bool>)
    ensures |r| == |targets| && forall i :: 0 <= i < |targets| ==> r[i] == targets[i].onShutdown.Some?
  {
    seq(|targets|, i requires 0 <= i < |targets| => targets[i].onShutdown.Some?)
  }

  function WithHandshake(targets: seq<Callbacks>): (r: seq<bool>)
    ensures |r| == |targets| && forall i :: 0 <= i < |targets| ==> r[i] == targets[i].notifyHandshake.Some?
  {
    seq(|targets|, i requires 0 <= i < |targets| => targets[i].notifyHandshake.Some?)
  }

  lemma {:induction false} CallsCount(targets: seq<Callbacks>, of: Callbacks -> Option<Delivery>, flags: seq<bool>,
                                      n: nat)
    requires n <= |targets| == |flags| && forall j :: 0 <= j < |flags| ==> flags[j] == of(targets[j]).Some?
    ensures |Calls(targets[..n], of)| == HowMany(flags[..n])
  {
    hide Calls;
    if n == 0 {
      CallsNone(of);
      assert targets[..0] == [];
    } else {
      CallsCount(targets, of, flags, n - 1);
      CallsNext(targets, n - 1, of);
      assert flags[..n][..n - 1] == flags[..n - 1];
    }
  }

  /** The call into target `i` comes after one for each target before it that has the callback. */
  lemma CallAt(targets: seq<Callbacks>, of: Callbacks -> Option<Delivery>, flags: seq<bool>, i: nat)
    requires i < |targets| == |flags| && forall j :: 0 <= j < |flags| ==> flags[j] == of(targets[j]).Some?
    requires flags[i]
    ensures var k := HowMany(flags[..i]);
      k < |Calls(targets, of)| && Calls(targets, of)[k] == of(targets[i]).value
  {
    hide Calls, HowMany;
    CallsCount(targets, of, flags, i);
    CallsNext(targets, i, of);
  }

  /** Each target that has the callback is called once, in order, and no other. */
  lemma StartupsAre(targets: seq<Callbacks>)
    ensures var r, flags := Startups(targets), WithStartup(targets);
      && |r| == HowMany(flags)
      && forall i :: 0 <= i < |targets| && targets[i].onStartup.Some? ==>
           var k := HowMany(flags[..i]); k < |r| && r[k] == StartedUp(targets[i].onStartup.value)
  {
    hide Calls, HowMany;
    var flags := WithStartup(targets);
    assert targets[..|targets|] == targets && flags[..|targets|] == flags;
    CallsCount(targets, OfStartup, flags, |targets|);
    forall i | 0 <= i < |targets| && flags[i]
      ensures var k := HowMany(flags[..i]);
        k < |Startups(targets)| && Startups(targets)[k] == StartedUp(targets[i].onStartup.value)
    {
      CallAt(targets, OfStartup, flags, i);
    }
  }

  lemma ShutdownsAre(targets: seq<Callbacks>)
    ensures var r, flags := Shutdowns(targets), WithShutdown(targets);
      && |r| == HowMany(flags)
      && forall i :: 0 <= i < |targets| && targets[i].onShutdown.Some? ==>
           var k := HowMany(flags[..i]); k < |r| && r[k] == ShutDown(targets[i].onShutdown.value)
  {
    hide Calls, HowMany;
    var flags := WithShutdown(targets);
    assert targets[..|targets|] == targets && flags[..|targets|] == flags;
    CallsCount(targets, OfShutdown, flags, |targets|);
    forall i | 0 <= i < |targets| && flags[i]
      ensures var k := HowMany(flags[..i]);
        k < |Shutdowns(targets)| && Shutdowns(targets)[k] == ShutDown(targets[i].onShutdown.value)
    {
      CallAt(targets, OfShutdown, flags, i);
    }
  }

  lemma HandshakesAre(targets: seq<Callbacks>, me: Option<Identity>, partner: Option<Identity>, signal: Signal)
    ensures var r, flags := Handshakes(targets, me, partner, signal), WithHandshake(targets);
      && |r| == HowMany(flags)
      && forall i :: 0 <= i < |targets| && targets[i].notifyHandshake.Some? ==>
           var k := HowMany(flags[..i]);
           k < |r| && r[k] == Handshake(targets[i].notifyHandshake.value, me, partner, signal)
  {
    hide Calls, HowMany;
    var flags, of := WithHandshake(targets), OfHandshake(me, partner, signal);
    assert targets[..|targets|] == targets && flags[..|targets|] == flags;
    CallsCount(targets, of, flags, |targets|);
    forall i | 0 <= i < |targets| && flags[i]
      ensures var r, k := Handshakes(targets, me, partner, signal), HowMany(flags[..i]);
        k < |r| && r[k] == Handshake(targets[i].notifyHandshake.value, me, partner, signal)
    {
      CallAt(targets, of, flags, i);
    }
  }

  /** How many identities have to be duplicated for one target. */
  function Cost(me: Option<Identity>, partner: Option<Identity>): nat {
    (if me.Some? then 1 else 0) + (if partner.Some? then 1 else 0)
  }

  /** `remove`: the first target with this handler goes, the others keep their order. */
  function Without(targets: seq<Callbacks>, h: Handler): seq<Callbacks> {
    if targets == [] then []
    else if targets[0].messageToSend == h then targets[1..]
    else [targets[0]] + Without(targets[1..], h)
  }

  lemma {:induction false} WithoutAt(targets: seq<Callbacks>, h: Handler, i: nat)
    requires i <= |targets| && forall j :: 0 <= j < i ==> targets[j].messageToSend != h
    requires i < |targets| ==> targets[i].messageToSend == h
    ensures Without(targets, h) == if i < |targets| then targets[..i] + targets[i + 1..] else targets
  {
    if i > 0 {
      var rest := targets[1..];
      WithoutAt(rest, h, i - 1);
      assert Without(targets, h) == [targets[0]] + Without(rest, h);
      if i < |targets| {
        assert targets[..i] == [targets[0]] + rest[..i - 1] && targets[i + 1..] == rest[i..];
      }
    }
  }

  /** The allocator, as far as duplicates go: how many more it grants, and how many of those granted
      have neither been handed to a target nor freed. */
  class Allocator {
    var left: nat
    var held: int

    constructor (left: nat)
      ensures this.left == left && held == 0
    {
      this.left, held := left, 0;
    }

    method TryDup() returns (ok: bool)
      modifies this
      ensures ok == (old(left) > 0)
      ensures left == (if ok then old(left) - 1 else 0) && held == (if ok then old(held) + 1 else old(held))
    {
      ok := left > 0;
      if ok {
        left, held := left - 1, held + 1;
      }
    }

    /** Handed over or freed. */
    method GiveAway(n: nat)
      modifies this`held
      ensures held == old(held) - n
    {
      held := held - n;
    }
  }

  class CallbackDispatcher {
    var targets: seq<Callbacks>
    const semaphore: Semaphore
    // the calls into targets so far
    var log: seq<Delivery>
    // whether there is a sync thread to join
    var syncRunning: bool

    constructor ()
      ensures targets == [] && log == [] && !syncRunning && fresh(semaphore) && !semaphore.closed
    {
      targets, log, syncRunning := [], [], false;
      semaphore := new Semaphore();
    }

    /** False for std::invalid_argument. */
    method Add(messageToSend: Option<Handler>, notifyHandshake: Option<Handler>, onStartup: Option<Handler>,
               onShutdown: Option<Handler>) returns (valid: bool)
      modifies this`targets
      ensures valid == messageToSend.Some?
      ensures targets == if valid then
          old(targets) + [Callbacks(messageToSend.value, notifyHandshake, onStartup, onShutdown)]
        else old(targets)
    {
      if messageToSend.None? {
        return false;
      }
      targets := targets + [Callbacks(messageToSend.value, notifyHandshake, onStartup, onShutdown)];
      valid := true;
    }

    method OnStartup()
      modifies this`log
      ensures log == old(log) + Startups(targets)
      ensures |log| == |old(log)| + HowMany(WithStartup(targets))
      ensures forall i :: 0 <= i < |targets| && targets[i].onStartup.Some? ==>
        var k := |old(log)| + HowMany(WithStartup(targets)[..i]);
        k < |log| && log[k] == StartedUp(targets[i].onStartup.value)
    {
      for i := 0 to |targets|
        invariant log == old(log) + Startups(targets[..i])
      {
        var t := targets[i];
        if t.onStartup.Some? {
          log := log + [StartedUp(t.onStartup.value)];
        }
        CallsNext(targets, i, OfStartup);
      }
      assert targets[..|targets|] == targets;
      StartupsAre(targets);
    }

    method OnShutdown()
      modifies this`log
      ensures log == old(log) + Shutdowns(targets)
      ensures |log| == |old(log)| + HowMany(WithShutdown(targets))
      ensures forall i :: 0 <= i < |targets| && targets[i].onShutdown.Some? ==>
        var k := |old(log)| + HowMany(WithShutdown(targets)[..i]);
        k < |log| && log[k] == ShutDown(targets[i].onShutdown.value)
    {
      for i := 0 to |targets|
        invariant log == old(log) + Shutdowns(targets[..i])
      {
        var t := targets[i];
        if t.onShutdown.Some? {
          log := log + [ShutDown(t.onShutdown.value)];
        }
        CallsNext(targets, i, OfShutdown);
      }
      assert targets[..|targets|] == targets;
      ShutdownsAre(targets);
    }

    /** Duplicates for one target, all of them or none. */
    method DupIdentities(me: Option<Identity>, partner: Option<Identity>, alloc: Allocator) returns (ok: bool)
      modifies alloc
      ensures ok == (old(alloc.left) >= Cost(me, partner))
      ensures ok ==> alloc.left == old(alloc.left) - Cost(me, partner)
      ensures alloc.held == old(alloc.held) + if ok then Cost(me, partner) else 0
    {
      if me.Some? {
        ok := alloc.TryDup();
        if !ok {
          return;
        }
      }
      if partner.Some? {
        ok := alloc.TryDup();
        if !ok {
          if me.Some? {
            alloc.GiveAway(1);
          }
          return;
        }
      }
      ok := true;
    }

    /** One target, where it takes notifications at all. */
    method NotifyOne(t: Callbacks, me: Option<Identity>, partner: Option<Identity>, signal: Signal, alloc: Allocator)
        returns (ok: bool)
      modifies this`log, alloc
      ensures alloc.held == old(alloc.held)
      ensures var d := OfHandshake(me, partner, signal)(t);
        if d.None? then ok && log == old(log) && alloc.left == old(alloc.left)
        else if old(alloc.left) >= Cost(me, partner) then
          ok && log == old(log) + [d.value] && alloc.left == old(alloc.left) - Cost(me, partner)
        else !ok && log == old(log)
    {
      ok := true;
      if t.notifyHandshake.Some? {
        ok := DupIdentities(me, partner, alloc);
        if ok {
          log := log + [Handshake(t.notifyHandshake.value, me, partner, signal)];
          alloc.GiveAway(Cost(me, partner));
        }
      }
    }

    /** Every target that takes notifications gets one, in order, with duplicates of its own, until
        the allocator fails; no duplicate is left over. */
    method NotifyHandshake(me: Option<Identity>, partner: Option<Identity>, signal: Signal, alloc: Allocator)
        returns (status: Status, ghost served: seq<Delivery>)
      modifies this`log, alloc
      ensures alloc.held == old(alloc.held)
      ensures log == old(log) + served && served <= Handshakes(targets, me, partner, signal)
      ensures forall i :: 0 <= i < |targets| && targets[i].notifyHandshake.Some? ==>
        var k := HowMany(WithHandshake(targets)[..i]);
        k < |served| ==>
          log[|old(log)| + k] == Handshake(targets[i].notifyHandshake.value, me, partner, signal)
      ensures |served| <= HowMany(WithHandshake(targets))
      ensures status == Ok ==> |served| == HowMany(WithHandshake(targets))
      ensures status == Ok ==>
        alloc.left == old(alloc.left) - |served| * ((if me.Some? then 1 else 0) + (if partner.Some? then 1 else 0))
      ensures status == Ok ==> served == Handshakes(targets, me, partner, signal)
      ensures status != Ok ==> status == OutOfMemory && old(alloc.left) < (|served| + 1) * Cost(me, partner)
      ensures status == Ok <==> |Handshakes(targets, me, partner, signal)| * Cost(me, partner) <= old(alloc.left)
      ensures |served| * Cost(me, partner) <= old(alloc.left)
    {
      hide Calls, Cost, OfHandshake, HowMany;
      HandshakesAre(targets, me, partner, signal);
      CostOf(me, partner);
      ghost var of := OfHandshake(me, partner, signal);
      served := [];
      assert Calls(targets[..0], of) == [] by { CallsNone(of); }
      for i := 0 to |targets|
        invariant served == Calls(targets[..i], of) && log == old(log) + served
        invariant alloc.left == old(alloc.left) - |served| * Cost(me, partner) && alloc.held == old(alloc.held)
      {
        CallsNext(targets, i, of);
        var ok := NotifyOne(targets[i], me, partner, signal, alloc);
        if !ok {
          assert targets[..i] == targets[..i + 1][..i];
          Exceeds(|Calls(targets, of)|, |served| + 1, Cost(me, partner));
          return OutOfMemory, served;
        }
        if of(targets[i]).Some? {
          served := served + [of(targets[i]).value];
          OneMore(|served| - 1, Cost(me, partner));
        }
      }
      assert targets[..|targets|] == targets;
      status := Ok;
    }

    /** `start_sync`, with the new thread going on until it is in its loop. */
    method StartSync(queue: EventQueue)
      modifies this`log, this`syncRunning, queue
      ensures syncRunning
      ensures log == old(log) + if old(syncRunning) then [] else Startups(targets)
      ensures if old(syncRunning) then queue.q == old(queue.q) && queue.freed == old(queue.freed)
        else queue.q == [] && queue.freed == old(queue.freed + Serials(queue.q))
    {
      if !syncRunning {
        syncRunning := true;
        OnStartup();
        queue.Clear();
      }
    }

    /** `stop_sync` for a thread in its loop: it takes the marker, which is all it finds, and goes on to
        its end before it is joined. */
    method StopSync(queue: EventQueue, alloc: Allocator)
      modifies this`log, this`syncRunning, queue, alloc
      ensures !syncRunning
      ensures log == old(log) +
        if old(syncRunning) then Shutdowns(targets) + Handshakes(targets, None, None, NotifyStop) else []
      ensures if !old(syncRunning) then queue.q == old(queue.q) && queue.freed == old(queue.freed)
        else queue.q == [] && queue.freed == old(queue.freed + Serials(queue.q))
    {
      hide Calls, HowMany, WithShutdown, WithHandshake, Cost, Serials;
      CostOf(None, None);
      if syncRunning {
        queue.EnqueueSyncEvent(Null);
        var ev := queue.DequeueNextSyncEvent();
        assert ev == Some(Null);
        OnShutdown();
        syncRunning := false;
        var status, served := NotifyHandshake(None, None, NotifyStop, alloc);
      }
    }

    /** The first target with this handler goes. When none is left sync is stopped; the target that
        just went learns neither of the shutdown nor of the stop. */
    method Remove(messageToSend: Option<Handler>, queue: EventQueue, alloc: Allocator) returns (valid: bool)
      modifies this`targets, this`log, this`syncRunning, queue, alloc
      ensures valid == messageToSend.Some?
      ensures targets == if valid then Without(old(targets), messageToSend.value) else old(targets)
      ensures syncRunning == (old(syncRunning) && !(valid && targets == []))
      ensures log == old(log)
      ensures if valid && targets == [] && old(syncRunning) then
          queue.q == [] && queue.freed == old(queue.freed + Serials(queue.q))
        else queue.q == old(queue.q) && queue.freed == old(queue.freed)
    {
      if messageToSend.None? {
        return false;
      }
      var i := 0;
      while i < |targets|
        invariant i <= |targets| && targets == old(targets)
        invariant forall j :: 0 <= j < i ==> targets[j].messageToSend != messageToSend.value
      {
        if targets[i].messageToSend == messageToSend.value {
          break;
        }
        i := i + 1;
      }
      WithoutAt(targets, messageToSend.value, i);
      if i < |targets| {
        targets := targets[..i] + targets[i + 1..];
      }
      if targets == [] {
        StopSync(queue, alloc);
      }
      valid := true;
    }

    /** The engine asks for another passphrase on the sync thread, which waits at the gate first. A
        pending shutdown is answered at once; else the next passphrase is configured, and where there is
        none the gate is closed until the application adds one. */
    method Retry(queue: EventQueue, next: NextPassphrase, live: PassphraseCache, session: Session)
        returns (status: Status)
      requires next.Valid() && live.Valid() && live != next.copy
      modifies semaphore, next`newCopy, next.copy, session
      ensures next.Valid()
      ensures InShutdown(queue.q) ==>
        && status == SyncNoChannel && !semaphore.closed
        && next.AsEnumerator() == old(next.AsEnumerator()) && session.history == old(session.history)
      ensures !InShutdown(queue.q) ==>
        var (e, s, p) := Next(old(next.AsEnumerator()), live.cache);
        && status == s && next.AsEnumerator() == e
        && session.history == old(session.history) + (if p.Some? then [p.value] else [])
        && semaphore.closed == (p == None)
      ensures semaphore.closed ==> next.newCopy
    {
      semaphore.TryWait();
      var shutdown := queue.InShutdownNow();
      if shutdown {
        return SyncNoChannel;
      }
      status := next.Config(false, live, session);
      if status == PassphraseRequired || status == WrongPassphrase {
        semaphore.Stop();
      }
    }

    /** A duplicate for one target. */
    method DupOne(msg: Message?, alloc: Allocator, mem: Memory) returns (ok: bool, d: Message?)
      requires msg != null ==> msg.Valid()
      modifies alloc, mem
      ensures msg != null ==> msg.Valid() && msg.Value() == old(msg.Value())
      ensures ok == (msg == null || old(alloc.left) > 0)
      ensures d != null <==> ok && msg != null
      ensures d != null ==> d.Valid() && d.Value() == msg.Value()
      ensures fresh(Owned(d)) && Disjoint(Owned(d), old(mem.live)) && mem.live == old(mem.live) + Owned(d)
      ensures alloc.left == old(alloc.left) - (if d != null then 1 else 0)
      ensures alloc.held == old(alloc.held) + (if d != null then 1 else 0)
    {
      hide Message.Value;
      ok, d := true, null;
      if msg != null {
        ValidOwnsSelf(msg, mem);
        Elsewhere(msg, this, alloc);
        ok := alloc.TryDup();
        if ok {
          d := DupMessage(msg, mem);
        }
      }
    }

    /** The targets get duplicates of their own, in order, until the allocator fails; a null message
        needs none. */
    method FanOut(msg: Message?, alloc: Allocator, mem: Memory)
        returns (status: Status, ghost sent: seq<Message?>, ghost blocks: set<object>)
      requires msg != null ==> msg.Valid()
      modifies this`log, alloc, mem
      ensures |sent| == if msg == null || |targets| <= old(alloc.left) then |targets| else old(alloc.left)
      ensures log == old(log) + Sends(targets, sent) && |sent| <= |targets|
      ensures |log| == |old(log)| + |sent| && old(log) <= log
      ensures forall i :: 0 <= i < |sent| ==> log[|old(log)| + i] == Sent(targets[i].messageToSend, sent[i])
      ensures status == if |sent| == |targets| then Ok else OutOfMemory
      ensures Duplicates(old(ValueOf(msg)), sent, blocks)
      ensures fresh(blocks) && Disjoint(blocks, old(mem.live)) && mem.live == old(mem.live) + blocks
      ensures alloc.held == old(alloc.held)
    {
      hide Message.Valid, Message.Value, Message.Repr, Duplicates;
      ghost var v := ValueOf(msg);
      sent, blocks := [], {};
      NoDuplicates(v);
      for i := 0 to |targets|
        invariant |sent| == i && log == old(log) + Sends(targets, sent)
        invariant msg != null ==> msg.Valid() && alloc.left == old(alloc.left) - i
        invariant v == ValueOf(msg) && Duplicates(v, sent, blocks)
        invariant fresh(blocks) && Disjoint(blocks, old(mem.live)) && mem.live == old(mem.live) + blocks
        invariant alloc.held == old(alloc.held)
      {
        var ok, d := DupOne(msg, alloc, mem);
        if !ok {
          return OutOfMemory, sent, blocks;
        }
        OneMoreDuplicate(v, sent, blocks, d);
        sent, blocks := sent + [d], blocks + Owned(d);
        Hand(targets[i].messageToSend, msg, d, alloc);
      }
      status := Ok;
    }

    /** The message is the target's from here on. */
    method Hand(to: Handler, ghost msg: Message?, d: Message?, alloc: Allocator)
      requires msg != null ==> msg.Valid()
      modifies this`log, alloc`held
      ensures msg != null ==> msg.Valid()
      ensures ValueOf(msg) == old(ValueOf(msg))
      ensures log == old(log) + [Sent(to, d)]
      ensures alloc.held == old(alloc.held) - (if d != null then 1 else 0)
    {
      hide Message.Value;
      if msg != null { Elsewhere(msg, this, alloc); }
      log := log + [Sent(to, d)];
      if d != null {
        alloc.GiveAway(1);
      }
    }

    method StartOver(ghost msg: Message?, next: NextPassphrase, live: PassphraseCache, session: Session)
      requires msg != null ==> msg.Valid()
      requires next.Valid() && live.Valid() && live != next.copy
      modifies next`newCopy, next.copy, session
      ensures msg != null ==> msg.Valid()
      ensures ValueOf(msg) == old(ValueOf(msg))
      ensures next.Valid() && next.AsEnumerator() == Reset(old(next.AsEnumerator()))
      ensures session.history == old(session.history)
    {
      hide Message.Value;
      if msg != null { ElsewhereStill(msg, next, session); }
      var status := next.Config(true, live, session);
    }

    /** `_messageToSend`: a null message on the sync thread is a request for another passphrase; any
        other call there tells that a passphrase worked, so that the next search starts over. */
    method MessageToSend(msg: Message?, onSyncThread: bool, queue: EventQueue, next: NextPassphrase,
                         live: PassphraseCache, session: Session, alloc: Allocator, mem: Memory)
        returns (status: Status, ghost sent: seq<Message?>, ghost blocks: set<object>)
      requires msg != null ==> msg.Valid()
      requires next.Valid() && live.Valid() && live != next.copy
      modifies this`log, semaphore, next`newCopy, next.copy, session, alloc, mem
      ensures next.Valid()
      ensures var retry := onSyncThread && msg == null;
        && (retry ==> sent == [] && (semaphore.closed ==> next.newCopy))
        && (retry && InShutdown(queue.q) ==>
            status == SyncNoChannel && !semaphore.closed && next.AsEnumerator() == old(next.AsEnumerator())
            && session.history == old(session.history))
        && (retry && !InShutdown(queue.q) ==>
            status == Next(old(next.AsEnumerator()), live.cache).1
            && next.AsEnumerator() == Next(old(next.AsEnumerator()), live.cache).0
            && (var p := Next(old(next.AsEnumerator()), live.cache).2;
                session.history == old(session.history) + if p.Some? then [p.value] else [])
            && semaphore.closed == (status != Ok))
        && (!retry ==>
            next.AsEnumerator() == (if onSyncThread then Reset(old(next.AsEnumerator())) else old(next.AsEnumerator()))
            && session.history == old(session.history) && semaphore.closed == old(semaphore.closed)
            && |sent| == (if msg == null || |targets| <= old(alloc.left) then |targets| else old(alloc.left))
            && status == if |sent| == |targets| then Ok else OutOfMemory)
      ensures |sent| <= |targets| && log == old(log) + Sends(targets, sent)
      ensures |log| == |old(log)| + |sent| && old(log) <= log
      ensures forall i :: 0 <= i < |sent| ==> log[|old(log)| + i] == Sent(targets[i].messageToSend, sent[i])
      ensures Duplicates(old(ValueOf(msg)), sent, blocks)
      ensures fresh(blocks) && mem.live == old(mem.live) + blocks && alloc.held == old(alloc.held)
    {
      hide Message.Valid, Message.Value, Message.Repr, Duplicates;
      sent, blocks := [], {};
      NoDuplicates(ValueOf(msg));
      if onSyncThread && msg == null {
        status := Retry(queue, next, live, session);
        return;
      }
      if onSyncThread {
        StartOver(msg, next, live, session);
      }
      status, sent, blocks := FanOut(msg, alloc, mem);
    }
  }

  /** A message consists of messages, strings and list nodes only. */
  lemma Elsewhere(m: Message, c: CallbackDispatcher, alloc: Allocator)
    requires m.Valid()
    ensures (c as object) !in m.Repr() && (alloc as object) !in m.Repr()
    ensures forall n :: n in m.blobs ==> n in m.Repr()
    ensures forall n :: n in m.refs ==> n in m.Repr()
    ensures forall n :: n in m.fields ==> n in m.Repr()
  {
  }

  lemma ElsewhereStill(m: Message, next: NextPassphrase, session: Session)
    requires m.Valid()
    ensures (next as object) !in m.Repr() && (next.copy as object) !in m.Repr() && (session as object) !in m.Repr()
    ensures forall n :: n in m.blobs ==> n in m.Repr()
    ensures forall n :: n in m.refs ==> n in m.Repr()
    ensures forall n :: n in m.fields ==> n in m.Repr()
  {
  }

  /** The calls of `messageToSend`, as far as there are messages to send. */
  function Sends(targets: seq<Callbacks>, sent: seq<Message?>): seq<Delivery>
    requires |sent| <= |targets|
  {
    seq(|sent|, i requires 0 <= i < |sent| => Sent(targets[i].messageToSend, sent[i]))
  }

  /** Null for null, else a duplicate each. Together they own `blocks`, and no block belongs to two. */
  ghost predicate Duplicates(v: Option<Msg>, sent: seq<Message?>, blocks: set<object>)
    reads blocks
  {
    && (forall i :: 0 <= i < |sent| ==> IsDuplicate(v, sent[i], blocks))
    && (forall i, j :: 0 <= i < j < |sent| && sent[i] != null && sent[j] != null ==>
        Disjoint(sent[i].Repr(), sent[j].Repr()))
  }

  ghost predicate IsDuplicate(v: Option<Msg>, d: Message?, blocks: set<object>)
    reads blocks
  {
    if d == null then v == None
    else d in blocks && d.Repr() <= blocks && d.Valid() && v == Some(d.Value())
  }

  lemma NoDuplicates(v: Option<Msg>)
    ensures Duplicates(v, [], {})
  {
  }

  lemma OneMoreDuplicate(v: Option<Msg>, sent: seq<Message?>, blocks: set<object>, d: Message?)
    requires Duplicates(v, sent, blocks) && Disjoint(Owned(d), blocks)
    requires v == ValueOf(d) && (d != null ==> d.Valid())
    ensures Duplicates(v, sent + [d], blocks + Owned(d))
  {
    hide Message.Value, Message.Repr;
    var all := blocks + Owned(d);
    forall i | 0 <= i < |sent| ensures IsDuplicate(v, sent[i], all) {
      assert IsDuplicate(v, sent[i], blocks);
    }
    if d != null { OwnsItself(d); }
  }

  lemma CallsNone(of: Callbacks -> Option<Delivery>)
    ensures Calls([], of) == []
  {
  }

  lemma CostOf(me: Option<Identity>, partner: Option<Identity>)
    ensures Cost(me, partner) == (if me.Some? then 1 else 0) + (if partner.Some? then 1 else 0)
  {
  }

  lemma OneMore(n: nat, cost: nat)
    ensures (n + 1) * cost == n * cost + cost
  {
  }

  lemma Exceeds(m: nat, n: nat, cost: nat)
    requires m >= n
    ensures m * cost >= n * cost
  {
  }
}
