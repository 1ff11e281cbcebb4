/** Whole runs of the message cache and its callers in the heap, with messages held from one call to
    the next (src/message_cache.cc). */
module HeapRuns {
  import opened Common
  import opened Messages
  import opened CacheIds
  import M = CacheModel
  import opened HeapLists
  import opened HeapMessages
  import opened HeapEntries
  import opened HeapStore
  import opened HeapPool
  import opened HeapCache
  import opened HeapCallers

  /** What callers do, with the messages in their slots: call the cache, make, change and free
      messages. The result of a call goes to a slot of its own. */
  datatype Move =
    | Decode(status: Status, parsed: Msg)
    | Encode(one: int, of: nat, encoder: M.Encoder)
    | Decrypt(of: nat, engine: M.Engine, full: bool)
    | Encrypt(of: nat, engine: M.Engine)
    | FullInput(of: nat, engine: M.Engine)
    | Release(id: string)
    | Write(msg: Msg)
    | Edit(of: nat, edit: Msg -> Msg)
    | Drop(of: nat)

  /** The cache, the messages that callers hold, and the next slot. */
  datatype Held = Held(state: M.State, pool: map<nat, Msg>, next: nat)

  /** The call a move makes, if it makes one: an empty slot is null for those that take null. */
  function CallOf(h: Held, move: Move): Option<M.Call> {
    match move
    case Decode(status, parsed) => Some(M.Decode(status, parsed))
    case Encode(one, of, encoder) => Some(M.Encode(one, Get(h.pool, of), encoder))
    case Decrypt(of, engine, full) => Some(M.Decrypt(Get(h.pool, of), engine, full))
    case Encrypt(of, engine) => if of in h.pool then Some(M.Encrypt(h.pool[of], engine)) else None
    case FullInput(of, engine) => if of in h.pool then Some(M.FullInput(h.pool[of], engine)) else None
    case Release(id) => Some(M.Release(id))
    case _ => None
  }

  /** What is in the slots after a call: the caller's message as the call leaves it, and the result. */
  function Received(h: Held, move: Move, out: M.Output): map<nat, Msg> {
    match move
    case Decode(_, _) => Put(h.pool, h.next, out.dst)
    case Decrypt(of, _, _) => Put(Put(h.pool - {of}, of, out.handle), h.next, out.dst)
    case Encrypt(of, _) => Put(Put(h.pool - {of}, of, out.handle), h.next, out.dst)
    case FullInput(of, _) => Put(Put(h.pool - {of}, of, out.handle), h.next, out.dst)
    case _ => h.pool
  }

  function MoveStep(h: Held, move: Move): (Held, Option<M.Output>) {
    var call := CallOf(h, move);
    if call.Some? then
      var (s, out) := M.Step(h.state, call.value);
      (Held(s, Received(h, move, out), h.next + 1), Some(out))
    else
      var pool := match move
        case Write(msg) => h.pool[h.next := msg]
        case Edit(of, edit) => if of in h.pool then h.pool[of := edit(h.pool[of])] else h.pool
        case Drop(of) => h.pool - {of}
        case _ => h.pool;
      (Held(h.state, pool, h.next + 1), None)
  }

  /** After a call the caller's slot has the message as the call leaves it, the next one the message
      returned, and nothing else has changed; other moves change one slot at most. */
  lemma MoveContract(h: Held, move: Move)
    requires h.next !in h.pool
    ensures var (t, out) := MoveStep(h, move);
      t.next == h.next + 1 && (CallOf(h, move).None? ==> out == None && t.state == h.state)
    ensures var (t, out) := MoveStep(h, move);
      move.Decrypt? || ((move.Encrypt? || move.FullInput?) && move.of in h.pool) ==>
        && out.Some? && (move.of != h.next ==> Get(t.pool, move.of) == out.value.handle)
        && Get(t.pool, h.next) == out.value.dst
        && forall k: nat :: k != move.of && k != h.next ==> Get(t.pool, k) == Get(h.pool, k)
    ensures var (t, out) := MoveStep(h, move);
      move.Decode? ==> out.Some? && Get(t.pool, h.next) == out.value.dst && t.pool - {h.next} == h.pool
    ensures var pool := MoveStep(h, move).0.pool;
      match move
      case Write(msg) => Get(pool, h.next) == Some(msg) && pool - {h.next} == h.pool
      case Edit(of, edit) => of in h.pool ==> Get(pool, of) == Some(edit(h.pool[of])) && pool - {of} == h.pool - {of}
      case Drop(of) => of !in pool && pool == h.pool - {of}
      case Encode(_, _, _) => pool == h.pool
      case Release(_) => pool == h.pool
      case _ => true
  {
    hide M.StepEncrypt, M.StepDecrypt, M.StepEncode, M.StepDecode, M.StepFullInput;
    if move.Decrypt? { NullStaysNull(h.state, move.engine, move.full); }
  }

  /** Each call is the operation of the cache on the message in the slot it names. */
  lemma CallContract(h: Held, move: Move)
    ensures var (t, out) := MoveStep(h, move);
      match move
      case Decode(status, parsed) => Made(t, out, M.StepDecode(h.state, status, parsed))
      case Encode(one, of, encoder) => Made(t, out, M.StepEncode(h.state, one, Get(h.pool, of), encoder))
      case Decrypt(of, engine, full) => Made(t, out, M.StepDecrypt(h.state, Get(h.pool, of), engine, full))
      case Encrypt(of, engine) => of in h.pool ==> Made(t, out, M.StepEncrypt(h.state, h.pool[of], engine))
      case FullInput(of, engine) => of in h.pool ==> Made(t, out, M.StepFullInput(h.state, h.pool[of], engine))
      case Release(id) => out.Some? && t.state == h.state.(cache := h.state.cache - {id})
      case _ => out.None? && t.state == h.state
  {
    hide M.StepEncrypt, M.StepDecrypt, M.StepEncode, M.StepDecode, M.StepFullInput;
  }

  predicate Made(t: Held, out: Option<M.Output>, made: (M.State, M.Output)) {
    t.state == made.0 && out == Some(made.1)
  }

  function MoveRun(h: Held, moves: seq<Move>): (Held, seq<M.Output>)
    decreases |moves|
  {
    if moves == [] then (h, [])
    else
      var (next, out) := MoveStep(h, moves[0]);
      var (last, outs) := MoveRun(next, moves[1..]);
      (last, (if out.Some? then [out.value] else []) + outs)
  }

  function CallsOf(h: Held, moves: seq<Move>): seq<M.Call>
    decreases |moves|
  {
    if moves == [] then []
    else
      var call := CallOf(h, moves[0]);
      (if call.Some? then [call.value] else []) + CallsOf(MoveStep(h, moves[0]).0, moves[1..])
  }

  /** The calls of such a run are a run of the cache. */
  lemma {:induction false} CallsAreARun(h: Held, moves: seq<Move>)
    ensures M.Run(h.state, CallsOf(h, moves)) == (MoveRun(h, moves).0.state, MoveRun(h, moves).1)
    decreases |moves|
  {
    hide M.Step, CallOf;
    if moves != [] {
      var (next, out) := MoveStep(h, moves[0]);
      CallsAreARun(next, moves[1..]);
      if CallOf(h, moves[0]).Some? {
        var call, more := CallOf(h, moves[0]).value, CallsOf(next, moves[1..]);
        assert ([call] + more)[1..] == more;
      } else {
        assert [] + CallsOf(next, moves[1..]) == CallsOf(next, moves[1..]);
        assert [] + MoveRun(next, moves[1..]).1 == MoveRun(next, moves[1..]).1;
      }
    }
  }

  /** The calls that leave blocks to nobody: encoding under an ID that is not in the cache, and a full
      input the engine turns down. */
  predicate Loses(call: M.Call, result: M.Result) {
    match call
    case Encode(_, _, _) => result.Thrown?
    case FullInput(_, _) => result != M.Returned(Ok) && result != M.Returned(Unencrypted)
    case _ => false
  }

  predicate MoveLoses(h: Held, move: Move) {
    CallOf(h, move).Some? && Loses(CallOf(h, move).value, MoveStep(h, move).1.value.result)
  }

  predicate NoneLoses(h: Held, moves: seq<Move>)
    decreases |moves|
  {
    moves == [] || (!MoveLoses(h, moves[0]) && NoneLoses(MoveStep(h, moves[0]).0, moves[1..]))
  }

  lemma NullStaysNull(s: M.State, engine: M.Engine, full: bool)
    ensures M.StepDecrypt(s, None, engine, full).1.handle == None
  {
  }

  /** The callers and their messages as values. */
  ghost function HeldBy(w: Callers, next: nat): Held
    requires w.Valid()
    reads w, w.c, All(w.c.blocks), All(w.own), w.c.mem
  {
    Held(w.c.State(), w.Held(), next)
  }

  ghost predicate SlotsBelow(w: Callers, next: nat)
    reads w
  {
    forall k :: k in w.pool ==> k < next
  }

  lemma NoneThere(pool: map<nat, Msg>, k: nat, l: nat)
    ensures k !in pool ==> pool - {k} == pool && Put(pool - {k}, k, None) == pool
    ensures l + 1 !in pool ==> pool - {l + 1} == pool && Put(pool - {l + 1}, l + 1, None) == pool
  {
  }

  method PlayDecode(w: Callers, status: Status, parsed: Msg, next: nat) returns (result: Option<M.Result>)
    requires w.Valid() && SlotsBelow(w, next) && w.c.nextId < LLONG_MAX && M.Fresh(w.c.State())
    modifies w, w.c, All(w.c.blocks), All(w.own), w.c.mem
    ensures w.Valid() && SlotsBelow(w, next + 1)
    ensures var (h, out) := MoveStep(old(HeldBy(w, next)), Decode(status, parsed));
      HeldBy(w, next + 1) == h && result == if out.Some? then Some(out.value.result) else None
    ensures w.lost == old(w.lost) || MoveLoses(old(HeldBy(w, next)), Decode(status, parsed))
    ensures fresh(All(w.c.blocks) + All(w.own) - old(All(w.c.blocks) + All(w.own)))
  {
    hide Message.Valid, Message.Value, Message.Repr, Owns, EntriesVal, All, Accounted, Holds, PoolVal, Id, Put;
    hide M.StepDecode;
    w.InSlot(next);
    var r := w.MimeDecode(status, parsed, next);
    result := Some(r);
  }

  method PlayEncode(w: Callers, one: int, of: nat, encoder: M.Encoder, next: nat) returns (result: Option<M.Result>)
    requires w.Valid() && SlotsBelow(w, next) && w.c.nextId < LLONG_MAX && M.Fresh(w.c.State())
    modifies w, w.c, All(w.c.blocks), All(w.own), w.c.mem
    ensures w.Valid() && SlotsBelow(w, next + 1)
    ensures var (h, out) := MoveStep(old(HeldBy(w, next)), Encode(one, of, encoder));
      HeldBy(w, next + 1) == h && result == if out.Some? then Some(out.value.result) else None
    ensures w.lost == old(w.lost) || MoveLoses(old(HeldBy(w, next)), Encode(one, of, encoder))
    ensures fresh(All(w.c.blocks) + All(w.own) - old(All(w.c.blocks) + All(w.own)))
  {
    hide Message.Valid, Message.Value, Message.Repr, Owns, EntriesVal, All, Accounted, Holds, PoolVal, Id, Put;
    hide M.StepEncode;
    var r := w.MimeEncode(one, of, encoder);
    result := Some(r);
  }

  method PlayDecrypt(w: Callers, of: nat, engine: M.Engine, full: bool, next: nat) returns (result: Option<M.Result>)
    requires w.Valid() && SlotsBelow(w, next) && w.c.nextId < LLONG_MAX && M.Fresh(w.c.State())
    modifies w, w.c, All(w.c.blocks), All(w.own), w.c.mem
    ensures w.Valid() && SlotsBelow(w, next + 1)
    ensures var (h, out) := MoveStep(old(HeldBy(w, next)), Decrypt(of, engine, full));
      HeldBy(w, next + 1) == h && result == if out.Some? then Some(out.value.result) else None
    ensures w.lost == old(w.lost) || MoveLoses(old(HeldBy(w, next)), Decrypt(of, engine, full))
    ensures fresh(All(w.c.blocks) + All(w.own) - old(All(w.c.blocks) + All(w.own)))
  {
    hide Message.Valid, Message.Value, Message.Repr, Owns, EntriesVal, All, Accounted, Holds, PoolVal, Id, Put;
    hide M.StepDecrypt;
    NoneThere(w.Held(), of, next);
    w.InSlot(of);
    w.InSlot(next);
    w.InSlot(next + 1);
    NullStaysNull(w.c.State(), engine, full);
    var r := w.Decrypt(if of == next then next + 1 else of, engine, full, next);
    result := Some(r);
  }

  method PlayEncrypt(w: Callers, of: nat, engine: M.Engine, next: nat) returns (result: Option<M.Result>)
    requires w.Valid() && SlotsBelow(w, next) && w.c.nextId < LLONG_MAX && M.Fresh(w.c.State())
    modifies w, w.c, All(w.c.blocks), All(w.own), w.c.mem
    ensures w.Valid() && SlotsBelow(w, next + 1)
    ensures var (h, out) := MoveStep(old(HeldBy(w, next)), Encrypt(of, engine));
      HeldBy(w, next + 1) == h && result == if out.Some? then Some(out.value.result) else None
    ensures w.lost == old(w.lost) || MoveLoses(old(HeldBy(w, next)), Encrypt(of, engine))
    ensures fresh(All(w.c.blocks) + All(w.own) - old(All(w.c.blocks) + All(w.own)))
  {
    hide Message.Valid, Message.Value, Message.Repr, Owns, EntriesVal, All, Accounted, Holds, PoolVal, Id, Put;
    hide M.StepEncrypt;
    w.InSlot(of);
    result := None;
    if of in w.pool {
      var r := w.Encrypt(of, engine, next);
      result := Some(r);
    }
  }

  method PlayFullInput(w: Callers, of: nat, engine: M.Engine, next: nat) returns (result: Option<M.Result>)
    requires w.Valid() && SlotsBelow(w, next) && w.c.nextId < LLONG_MAX && M.Fresh(w.c.State())
    modifies w, w.c, All(w.c.blocks), All(w.own), w.c.mem
    ensures w.Valid() && SlotsBelow(w, next + 1)
    ensures var (h, out) := MoveStep(old(HeldBy(w, next)), FullInput(of, engine));
      HeldBy(w, next + 1) == h && result == if out.Some? then Some(out.value.result) else None
    ensures w.lost == old(w.lost) || MoveLoses(old(HeldBy(w, next)), FullInput(of, engine))
    ensures fresh(All(w.c.blocks) + All(w.own) - old(All(w.c.blocks) + All(w.own)))
  {
    hide Message.Valid, Message.Value, Message.Repr, Owns, EntriesVal, All, Accounted, Holds, PoolVal, Id, Put;
    hide M.StepFullInput;
    w.InSlot(of);
    result := None;
    if of in w.pool {
      var r := w.FullInput(of, engine, next);
      result := Some(r);
    }
  }

  method PlayEdit(w: Callers, of: nat, edit: Msg -> Msg, next: nat) returns (result: Option<M.Result>)
    requires w.Valid() && SlotsBelow(w, next) && w.c.nextId < LLONG_MAX && M.Fresh(w.c.State())
    modifies w, w.c, All(w.c.blocks), All(w.own), w.c.mem
    ensures w.Valid() && SlotsBelow(w, next + 1)
    ensures var (h, out) := MoveStep(old(HeldBy(w, next)), Edit(of, edit));
      HeldBy(w, next + 1) == h && result == if out.Some? then Some(out.value.result) else None
    ensures w.lost == old(w.lost) || MoveLoses(old(HeldBy(w, next)), Edit(of, edit))
    ensures fresh(All(w.c.blocks) + All(w.own) - old(All(w.c.blocks) + All(w.own)))
  {
    hide Message.Valid, Message.Value, Message.Repr, Owns, EntriesVal, All, Accounted, Holds, PoolVal, Id, Put;
    hide M.Step;
    w.InSlot(of);
    result := None;
    if of in w.pool {
      w.Edit(of, edit);
    }
  }

  method PlayDrop(w: Callers, of: nat, next: nat) returns (result: Option<M.Result>)
    requires w.Valid() && SlotsBelow(w, next) && w.c.nextId < LLONG_MAX && M.Fresh(w.c.State())
    modifies w, w.c, All(w.c.blocks), All(w.own), w.c.mem
    ensures w.Valid() && SlotsBelow(w, next + 1)
    ensures var (h, out) := MoveStep(old(HeldBy(w, next)), Drop(of));
      HeldBy(w, next + 1) == h && result == if out.Some? then Some(out.value.result) else None
    ensures w.lost == old(w.lost) || MoveLoses(old(HeldBy(w, next)), Drop(of))
    ensures fresh(All(w.c.blocks) + All(w.own) - old(All(w.c.blocks) + All(w.own)))
  {
    hide Message.Valid, Message.Value, Message.Repr, Owns, EntriesVal, All, Accounted, Holds, PoolVal, Id, Put;
    hide M.Step;
    w.InSlot(of);
    NoneThere(w.Held(), of, next);
    result := None;
    if of in w.pool {
      w.Drop(of);
    }
  }

  /** One move. */
  method Play(w: Callers, move: Move, next: nat) returns (result: Option<M.Result>)
    requires w.Valid() && SlotsBelow(w, next) && w.c.nextId < LLONG_MAX && M.Fresh(w.c.State())
    modifies w, w.c, All(w.c.blocks), All(w.own), w.c.mem
    ensures w.Valid() && SlotsBelow(w, next + 1)
    ensures var (h, out) := MoveStep(old(HeldBy(w, next)), move);
      HeldBy(w, next + 1) == h && result == if out.Some? then Some(out.value.result) else None
    ensures w.lost == old(w.lost) || MoveLoses(old(HeldBy(w, next)), move)
    ensures fresh(All(w.c.blocks) + All(w.own) - old(All(w.c.blocks) + All(w.own)))
  {
    hide Message.Valid, Message.Value, Message.Repr, Owns, EntriesVal, All, Accounted, Holds, PoolVal, Id, Put;
    hide M.StepEncrypt, M.StepDecrypt, M.StepEncode, M.StepDecode, M.StepFullInput, M.Erase;
    result := None;
    match move
    case Decode(status, parsed) => result := PlayDecode(w, status, parsed, next);
    case Encode(one, of, encoder) => result := PlayEncode(w, one, of, encoder, next);
    case Decrypt(of, engine, full) => result := PlayDecrypt(w, of, engine, full, next);
    case Encrypt(of, engine) => result := PlayEncrypt(w, of, engine, next);
    case FullInput(of, engine) => result := PlayFullInput(w, of, engine, next);
    case Release(id) =>
      w.Release(id);
      result := Some(M.Returned(Ok));
    case Write(msg) => w.Write(msg, next);
    case Edit(of, edit) => result := PlayEdit(w, of, edit, next);
    case Drop(of) => result := PlayDrop(w, of, next);
  }

  lemma MoveKeepsFresh(h: Held, move: Move)
    requires M.Fresh(h.state)
    ensures var t := MoveStep(h, move).0.state;
      && M.Fresh(t) && h.state.ids.next <= t.ids.next <= h.state.ids.next + 1
      && t.ids.range == h.state.ids.range
  {
    hide M.Step, M.Fresh;
    if CallOf(h, move).Some? {
      M.StepKeepsFresh(h.state, CallOf(h, move).value);
      M.KeysOfStep(h.state, CallOf(h, move).value);
    }
  }

  function Results(outs: seq<M.Output>): seq<M.Result> {
    seq(|outs|, i requires 0 <= i < |outs| => outs[i].result)
  }

  /** Any run, with any messages, engines and encoders, and messages held across it. Callers hold and
      are told what the run on values gives, and at every moment between two moves every live block is
      an entry's, or a held message's, or was lost in a call that loses blocks. */
  method PlayAll(w: Callers, moves: seq<Move>, next: nat) returns (results: seq<M.Result>)
    requires w.Valid() && SlotsBelow(w, next) && M.Fresh(w.c.State()) && w.c.nextId + |moves| <= LLONG_MAX
    modifies w, w.c, All(w.c.blocks), All(w.own), w.c.mem
    ensures w.Valid() && SlotsBelow(w, next + |moves|)
    ensures HeldBy(w, next + |moves|) == MoveRun(old(HeldBy(w, next)), moves).0
    ensures results == Results(MoveRun(old(HeldBy(w, next)), moves).1)
    ensures NoneLoses(old(HeldBy(w, next)), moves) ==> w.lost == old(w.lost)
    decreases |moves|
  {
    hide Message.Valid, Message.Value, Message.Repr, Owns, EntriesVal, All, Accounted, Holds, PoolVal, Id, Put;
    hide MoveStep, MoveLoses, M.Fresh;
    results := [];
    if moves != [] {
      ghost var h := HeldBy(w, next);
      MoveKeepsFresh(h, moves[0]);
      var one := Play(w, moves[0], next);
      var more := PlayAll(w, moves[1..], next + 1);
      results := (if one.Some? then [one.value] else []) + more;
    }
  }

  /** Callers free what they hold, and every entry is released. */
  method DropAll(w: Callers)
    requires w.Valid()
    modifies w, w.c.mem
    ensures w.Valid() && w.pool == map[] && All(w.own) == {}
    ensures w.lost == old(w.lost) && w.c.State() == old(w.c.State()) && w.c.blocks == old(w.c.blocks)
  {
    hide Message.Valid, Message.Value, Message.Repr, Owns, EntriesVal, All, Accounted, Holds, PoolVal;
    while w.pool != map[]
      invariant w.Valid() && w.lost == old(w.lost)
      invariant w.c.State() == old(w.c.State()) && w.c.blocks == old(w.c.blocks)
      decreases |w.pool|
    {
      var k :| k in w.pool;
      ghost var before := w.pool;
      w.Drop(k);
      assert before.Keys == w.pool.Keys + {k};
    }
    NothingHeld(w);
  }

  lemma NothingHeld(w: Callers)
    requires w.Valid() && w.pool == map[]
    ensures All(w.own) == {}
  {
  }

  method ReleaseAll(w: Callers)
    requires w.Valid()
    modifies w.c`cache, w.c`blocks, w.c.mem
    ensures w.Valid() && w.c.Value() == map[] && All(w.c.blocks) == {}
    ensures w.lost == old(w.lost) && w.own == old(w.own)
  {
    hide Message.Valid, Message.Value, Message.Repr, All, Accounted, Holds, PoolVal, EntryOk, EntryVal;
    while w.c.cache != map[]
      invariant w.Valid() && w.lost == old(w.lost) && w.own == old(w.own)
      decreases |w.c.cache|
    {
      var id :| id in w.c.cache;
      LookUp(w.c.cache, w.c.blocks, id);
      ghost var before := w.c.cache;
      w.Release(id);
      KeysShrink(w.c.cache, w.c.blocks, before, id);
    }
    NothingOwned(w.c);
  }

  lemma NothingOwned(c: MessageCache)
    requires c.Valid() && c.cache == map[]
    ensures All(c.blocks) == {} && c.Value() == map[]
  {
  }

  lemma KeysShrink(c: Entries, b: BlockMap, before: Entries, id: string)
    requires Owns(c, b) && EntriesVal(c, b).Keys == before.Keys - {id} && id in before
    ensures |c| < |before|
  {
    hide EntryOk, EntryVal;
    assert c.Keys == EntriesVal(c, b).Keys;
  }

  lemma AllLost(live: set<object>, lost: set<object>)
    requires Accounted(live, {}, {}, {}, {}, lost)
    ensures live == lost
  {
  }

  /** From a new cache to the end: in up to 2^62 moves no call finds the generator exhausted, and if no
      call loses blocks, none is left allocated once callers have freed their messages and every entry
      is released. */
  method Lifetime(idRange: nat, nextId: nat, moves: seq<Move>, mem: Memory) returns (results: seq<M.Result>)
    requires Seeded(Generator(idRange, nextId)) && |moves| <= SAFE_COUNT && mem.live == {}
    modifies mem
    ensures var h := Held(M.State(map[], Generator(idRange, nextId)), map[], 0);
      && results == Results(MoveRun(h, moves).1)
      && (NoneLoses(h, moves) ==> mem.live == {})
  {
    hide Message.Valid, Message.Value, Message.Repr, EntryOk, EntryVal, All, Accounted, Id, MoveRun, NoneLoses;
    var c := new MessageCache(idRange, nextId, mem);
    var w := new Callers(c);
    assert M.Fresh(c.State());
    results := PlayAll(w, moves, 0);
    DropAll(w);
    ReleaseAll(w);
    AllLost(mem.live, w.lost);
  }
}
