/** Programs of calls in the heap, one for each of a number of cache IDs, in any interleaving of their
    lock sections and engine calls: the content of one message is out in its caller's hands while other
    calls run (src/message_cache.cc). */
module HeapInterleaving {
  import opened Common
  import opened Messages
  import M = CacheModel
  import opened CacheInterleaving
  import opened HeapMessages
  import opened HeapEntries
  import opened HeapStore
  import opened HeapPool
  import opened HeapCache
  import opened HeapCallers

  /** A call under way or over, but for its messages. Line `i` has those in three slots: the caller's
      message, the message the call works on or the engine made, and the one it will return. */
  datatype Ticket = Ticket(task: Task, id: string, pc: Pc, given: Option<Msg>, result: M.Result)

  function Handle(i: nat): nat {
    3 * i
  }

  function Work(i: nat): nat {
    3 * i + 1
  }

  function Outcome(i: nat): nat {
    3 * i + 2
  }

  /** The call as a value. */
  function JobOf(t: Ticket, pool: map<nat, Msg>, i: nat): Job
    requires Handle(i) in pool
  {
    var handle := pool[Handle(i)];
    Job(t.task, t.id, t.pc, handle,
        if t.task.Encoding? && Work(i) in pool then pool[Work(i)] else handle,
        if t.task.Encoding? then None else Get(pool, Work(i)),
        t.given, Get(pool, Outcome(i)), t.result)
  }

  /** Which slots a call has filled. */
  ghost predicate Tidy(t: Ticket, slots: set<nat>, i: nat) {
    && Handle(i) in slots
    && (t.pc in {Begin, Out} ==> Outcome(i) !in slots)
    && (t.pc in {Begin, Back, Done} ==> Work(i) !in slots)
    && (t.pc == Out ==> (Work(i) in slots <==> t.task.Encoding?))
    && (t.task.Encoding? && t.pc == Called ==> Work(i) !in slots)
    && (t.task.Decrypting? && t.task.full ==> Work(i) !in slots)
    && (t.task.Releasing? ==> t.pc in {Begin, Done})
  }

  /** The entry whose content is out is still there. */
  predicate Pending(t: Ticket, cache: M.Cache) {
    (t.task.Decrypting? || t.task.Encrypting?) && t.pc in {Out, Called} ==> t.id in cache
  }

  /** Nothing but the slots of call `i` has changed. */
  ghost predicate OthersSame(before: map<nat, Msg>, after: map<nat, Msg>, i: nat) {
    forall k: nat :: k !in {Handle(i), Work(i), Outcome(i)} ==> Get(after, k) == Get(before, k)
  }

  ghost predicate CanStep(w: Callers, t: Ticket, i: nat)
    reads w, w.c, All(w.c.blocks), All(w.own), w.c.mem
  {
    w.Valid() && Tidy(t, w.pool.Keys, i) && Pending(t, w.c.Value()) && Handle(i) in w.Held()
  }

  // ----- the first lock sections -----

  method TakeOutContent(w: Callers, t: Ticket, i: nat) returns (t': Ticket)
    requires CanStep(w, t, i) && t.pc == Begin && (t.task.Decrypting? || t.task.Encrypting?)
    modifies w, w.c`cache, w.c`blocks, All(w.c.blocks), All(w.own), w.c.mem
    ensures w.Valid() && Tidy(t', w.pool.Keys, i) && Handle(i) in w.Held() && t'.task == t.task && t'.id == t.id
    ensures (w.c.Value(), JobOf(t', w.Held(), i)) == JobStep(old(w.c.Value()), JobOf(t, old(w.Held()), i))
    ensures w.c.nextId == old(w.c.nextId) && OthersSame(old(w.Held()), w.Held(), i)
    ensures w.lost == old(w.lost) || (t.task.Encoding? && t.pc == Begin && t.id !in old(w.c.Value()))
    ensures fresh(All(w.c.blocks) + All(w.own) - old(All(w.c.blocks) + All(w.own)))
  {
    hide Message.Valid, Message.Value, Message.Repr, Owns, EntriesVal, All, Accounted, Holds, PoolVal;
    hide M.Take;
    w.InSlot(Handle(i));
    w.InSlot(Work(i));
    w.InSlot(Outcome(i));
    LookUp(w.c.cache, w.c.blocks, t.id);
    if t.id !in w.c.cache {
      t' := t.(pc := Done, result := M.Thrown);
    } else {
      w.TakeAt(Handle(i), t.id);
      t' := t.(pc := Out);
    }
  }

  method TakeIntoCopy(w: Callers, t: Ticket, i: nat) returns (t': Ticket)
    requires CanStep(w, t, i) && t.pc == Begin && t.task.Encoding?
    modifies w, w.c`cache, w.c`blocks, All(w.c.blocks), All(w.own), w.c.mem
    ensures w.Valid() && Tidy(t', w.pool.Keys, i) && Handle(i) in w.Held() && t'.task == t.task && t'.id == t.id
    ensures (w.c.Value(), JobOf(t', w.Held(), i)) == JobStep(old(w.c.Value()), JobOf(t, old(w.Held()), i))
    ensures w.c.nextId == old(w.c.nextId) && OthersSame(old(w.Held()), w.Held(), i)
    ensures w.lost == old(w.lost) || (t.task.Encoding? && t.pc == Begin && t.id !in old(w.c.Value()))
    ensures fresh(All(w.c.blocks) + All(w.own) - old(All(w.c.blocks) + All(w.own)))
  {
    hide Message.Valid, Message.Value, Message.Repr, Owns, EntriesVal, All, Accounted, Holds, PoolVal;
    hide M.Take, M.TakeDst, SlimCopy;
    w.InSlot(Handle(i));
    w.InSlot(Work(i));
    w.InSlot(Outcome(i));
    LookUp(w.c.cache, w.c.blocks, t.id);
    var end := w.CopyAndTake(t.task.one, Handle(i), Work(i), t.id);
    w.InSlot(Work(i));
    t' := if end.Some? then t.(pc := Done, result := end.value) else t.(pc := Out);
  }

  method ReleaseStep(w: Callers, t: Ticket, i: nat) returns (t': Ticket)
    requires CanStep(w, t, i) && t.pc == Begin && t.task.Releasing?
    modifies w, w.c`cache, w.c`blocks, All(w.c.blocks), All(w.own), w.c.mem
    ensures w.Valid() && Tidy(t', w.pool.Keys, i) && Handle(i) in w.Held() && t'.task == t.task && t'.id == t.id
    ensures (w.c.Value(), JobOf(t', w.Held(), i)) == JobStep(old(w.c.Value()), JobOf(t, old(w.Held()), i))
    ensures w.c.nextId == old(w.c.nextId) && OthersSame(old(w.Held()), w.Held(), i)
    ensures w.lost == old(w.lost) || (t.task.Encoding? && t.pc == Begin && t.id !in old(w.c.Value()))
    ensures fresh(All(w.c.blocks) + All(w.own) - old(All(w.c.blocks) + All(w.own)))
  {
    hide Message.Valid, Message.Value, Message.Repr, Owns, EntriesVal, All, Accounted, Holds, PoolVal;
    hide M.Erase;
    w.InSlot(Handle(i));
    w.InSlot(Work(i));
    w.InSlot(Outcome(i));
    LookUp(w.c.cache, w.c.blocks, t.id);
    w.Release(t.id);
    t' := t.(pc := Done);
  }

  // ----- the engine calls -----

  method EncryptCall(w: Callers, t: Ticket, i: nat) returns (t': Ticket)
    requires CanStep(w, t, i) && t.pc == Out && t.task.Encrypting?
    modifies w, w.c`cache, w.c`blocks, All(w.c.blocks), All(w.own), w.c.mem
    ensures w.Valid() && Tidy(t', w.pool.Keys, i) && Handle(i) in w.Held() && t'.task == t.task && t'.id == t.id
    ensures (w.c.Value(), JobOf(t', w.Held(), i)) == JobStep(old(w.c.Value()), JobOf(t, old(w.Held()), i))
    ensures w.c.nextId == old(w.c.nextId) && OthersSame(old(w.Held()), w.Held(), i)
    ensures w.lost == old(w.lost) || (t.task.Encoding? && t.pc == Begin && t.id !in old(w.c.Value()))
    ensures fresh(All(w.c.blocks) + All(w.own) - old(All(w.c.blocks) + All(w.own)))
  {
    hide Message.Valid, Message.Value, Message.Repr, Owns, EntriesVal, All, Accounted, Holds, PoolVal;
    hide SlimCopyOpt;
    w.InSlot(Handle(i));
    w.InSlot(Work(i));
    w.InSlot(Outcome(i));
    LookUp(w.c.cache, w.c.blocks, t.id);
    var status, given := w.AnswerAt(t.task.engine, Handle(i), t.id, false, Work(i), Outcome(i));
    t' := t.(pc := Called, given := Some(given), result := M.Returned(status));
  }

  method DecryptCall(w: Callers, t: Ticket, i: nat) returns (t': Ticket)
    requires CanStep(w, t, i) && t.pc == Out && t.task.Decrypting? && !t.task.full
    modifies w, w.c`cache, w.c`blocks, All(w.c.blocks), All(w.own), w.c.mem
    ensures w.Valid() && Tidy(t', w.pool.Keys, i) && Handle(i) in w.Held() && t'.task == t.task && t'.id == t.id
    ensures (w.c.Value(), JobOf(t', w.Held(), i)) == JobStep(old(w.c.Value()), JobOf(t, old(w.Held()), i))
    ensures w.c.nextId == old(w.c.nextId) && OthersSame(old(w.Held()), w.Held(), i)
    ensures w.lost == old(w.lost) || (t.task.Encoding? && t.pc == Begin && t.id !in old(w.c.Value()))
    ensures fresh(All(w.c.blocks) + All(w.own) - old(All(w.c.blocks) + All(w.own)))
  {
    hide Message.Valid, Message.Value, Message.Repr, Owns, EntriesVal, All, Accounted, Holds, PoolVal;
    hide SlimCopyOpt, Reordered;
    w.InSlot(Handle(i));
    w.InSlot(Work(i));
    w.InSlot(Outcome(i));
    LookUp(w.c.cache, w.c.blocks, t.id);
    var status, given := w.ReorderAndAnswerAt(t.task.engine, Handle(i), t.id, true, Work(i), Outcome(i));
    t' := t.(pc := Called, given := Some(given), result := M.Returned(status));
  }

  method DecryptFullCall(w: Callers, t: Ticket, i: nat) returns (t': Ticket)
    requires CanStep(w, t, i) && t.pc == Out && t.task.Decrypting? && t.task.full
    modifies w, w.c`cache, w.c`blocks, All(w.c.blocks), All(w.own), w.c.mem
    ensures w.Valid() && Tidy(t', w.pool.Keys, i) && Handle(i) in w.Held() && t'.task == t.task && t'.id == t.id
    ensures (w.c.Value(), JobOf(t', w.Held(), i)) == JobStep(old(w.c.Value()), JobOf(t, old(w.Held()), i))
    ensures w.c.nextId == old(w.c.nextId) && OthersSame(old(w.Held()), w.Held(), i)
    ensures w.lost == old(w.lost) || (t.task.Encoding? && t.pc == Begin && t.id !in old(w.c.Value()))
    ensures fresh(All(w.c.blocks) + All(w.own) - old(All(w.c.blocks) + All(w.own)))
  {
    hide Message.Valid, Message.Value, Message.Repr, Owns, EntriesVal, All, Accounted, Holds, PoolVal;
    hide Reordered;
    w.InSlot(Handle(i));
    w.InSlot(Work(i));
    w.InSlot(Outcome(i));
    LookUp(w.c.cache, w.c.blocks, t.id);
    var status, given := w.ReorderAndCallAt(t.task.engine, Handle(i), Outcome(i));
    t' := t.(pc := Called, given := Some(given), result := M.Returned(status));
  }

  method EncodeCall(w: Callers, t: Ticket, i: nat) returns (t': Ticket)
    requires CanStep(w, t, i) && t.pc == Out && t.task.Encoding?
    modifies w, w.c`cache, w.c`blocks, All(w.c.blocks), All(w.own), w.c.mem
    ensures w.Valid() && Tidy(t', w.pool.Keys, i) && Handle(i) in w.Held() && t'.task == t.task && t'.id == t.id
    ensures (w.c.Value(), JobOf(t', w.Held(), i)) == JobStep(old(w.c.Value()), JobOf(t, old(w.Held()), i))
    ensures w.c.nextId == old(w.c.nextId) && OthersSame(old(w.Held()), w.Held(), i)
    ensures w.lost == old(w.lost) || (t.task.Encoding? && t.pc == Begin && t.id !in old(w.c.Value()))
    ensures fresh(All(w.c.blocks) + All(w.own) - old(All(w.c.blocks) + All(w.own)))
  {
    hide Message.Valid, Message.Value, Message.Repr, Owns, EntriesVal, All, Accounted, Holds, PoolVal;
    hide M.RemoveIdFrom;
    w.InSlot(Handle(i));
    w.InSlot(Work(i));
    w.InSlot(Outcome(i));
    LookUp(w.c.cache, w.c.blocks, t.id);
    var status, given := w.EncodeAt(t.task.encoder, Work(i));
    t' := t.(pc := Called, given := Some(given), result := M.Returned(status));
  }

  // ----- the second lock sections -----

  method GiveBackAndSet(w: Callers, t: Ticket, i: nat) returns (t': Ticket)
    requires CanStep(w, t, i) && t.pc == Called && (t.task.Encrypting? || (t.task.Decrypting? && !t.task.full))
    modifies w, w.c`cache, w.c`blocks, All(w.c.blocks), All(w.own), w.c.mem
    ensures w.Valid() && Tidy(t', w.pool.Keys, i) && Handle(i) in w.Held() && t'.task == t.task && t'.id == t.id
    ensures (w.c.Value(), JobOf(t', w.Held(), i)) == JobStep(old(w.c.Value()), JobOf(t, old(w.Held()), i))
    ensures w.c.nextId == old(w.c.nextId) && OthersSame(old(w.Held()), w.Held(), i)
    ensures w.lost == old(w.lost) || (t.task.Encoding? && t.pc == Begin && t.id !in old(w.c.Value()))
    ensures fresh(All(w.c.blocks) + All(w.own) - old(All(w.c.blocks) + All(w.own)))
  {
    hide Message.Valid, Message.Value, Message.Repr, Owns, EntriesVal, All, Accounted, Holds, PoolVal;
    hide M.GiveBack, M.SetDst;
    w.InSlot(Handle(i));
    w.InSlot(Work(i));
    w.InSlot(Outcome(i));
    LookUp(w.c.cache, w.c.blocks, t.id);
    w.SecondAt(Handle(i), Work(i), t.id);
    t' := t.(pc := Done);
  }

  method GiveBackOnly(w: Callers, t: Ticket, i: nat) returns (t': Ticket)
    requires CanStep(w, t, i) && t.pc == Called && t.task.Decrypting? && t.task.full
    modifies w, w.c`cache, w.c`blocks, All(w.c.blocks), All(w.own), w.c.mem
    ensures w.Valid() && Tidy(t', w.pool.Keys, i) && Handle(i) in w.Held() && t'.task == t.task && t'.id == t.id
    ensures (w.c.Value(), JobOf(t', w.Held(), i)) == JobStep(old(w.c.Value()), JobOf(t, old(w.Held()), i))
    ensures w.c.nextId == old(w.c.nextId) && OthersSame(old(w.Held()), w.Held(), i)
    ensures w.lost == old(w.lost) || (t.task.Encoding? && t.pc == Begin && t.id !in old(w.c.Value()))
    ensures fresh(All(w.c.blocks) + All(w.own) - old(All(w.c.blocks) + All(w.own)))
  {
    hide Message.Valid, Message.Value, Message.Repr, Owns, EntriesVal, All, Accounted, Holds, PoolVal;
    hide M.GiveBack;
    w.InSlot(Handle(i));
    w.InSlot(Work(i));
    w.InSlot(Outcome(i));
    LookUp(w.c.cache, w.c.blocks, t.id);
    w.GiveBackAt(Handle(i), t.id);
    t' := t.(pc := Back);
  }

  method LastRelease(w: Callers, t: Ticket, i: nat) returns (t': Ticket)
    requires CanStep(w, t, i) && ((t.pc == Called && t.task.Encoding?) || t.pc == Back)
    modifies w, w.c`cache, w.c`blocks, All(w.c.blocks), All(w.own), w.c.mem
    ensures w.Valid() && Tidy(t', w.pool.Keys, i) && Handle(i) in w.Held() && t'.task == t.task && t'.id == t.id
    ensures (w.c.Value(), JobOf(t', w.Held(), i)) == JobStep(old(w.c.Value()), JobOf(t, old(w.Held()), i))
    ensures w.c.nextId == old(w.c.nextId) && OthersSame(old(w.Held()), w.Held(), i)
    ensures w.lost == old(w.lost) || (t.task.Encoding? && t.pc == Begin && t.id !in old(w.c.Value()))
    ensures fresh(All(w.c.blocks) + All(w.own) - old(All(w.c.blocks) + All(w.own)))
  {
    hide Message.Valid, Message.Value, Message.Repr, Owns, EntriesVal, All, Accounted, Holds, PoolVal;
    hide M.Erase;
    w.InSlot(Handle(i));
    w.InSlot(Work(i));
    w.InSlot(Outcome(i));
    LookUp(w.c.cache, w.c.blocks, t.id);
    w.Release(t.id);
    t' := t.(pc := Done);
  }

  lemma NoStep(c: M.Cache, t: Ticket, pool: map<nat, Msg>, i: nat)
    requires Handle(i) in pool && t.pc == Done
    ensures JobStep(c, JobOf(t, pool, i)) == (c, JobOf(t, pool, i))
  {
  }

  /** One step of a call, whichever is next. */
  method TakeStep(w: Callers, t: Ticket, i: nat) returns (t': Ticket)
    requires CanStep(w, t, i)
    modifies w, w.c`cache, w.c`blocks, All(w.c.blocks), All(w.own), w.c.mem
    ensures w.Valid() && Tidy(t', w.pool.Keys, i) && Handle(i) in w.Held() && t'.task == t.task && t'.id == t.id
    ensures (w.c.Value(), JobOf(t', w.Held(), i)) == JobStep(old(w.c.Value()), JobOf(t, old(w.Held()), i))
    ensures w.c.nextId == old(w.c.nextId) && OthersSame(old(w.Held()), w.Held(), i)
    ensures w.lost == old(w.lost) || (t.task.Encoding? && t.pc == Begin && t.id !in old(w.c.Value()))
    ensures fresh(All(w.c.blocks) + All(w.own) - old(All(w.c.blocks) + All(w.own)))
  {
    hide Message.Valid, Message.Value, Message.Repr, Owns, EntriesVal, All, Accounted, Holds, PoolVal;
    hide JobStep, JobOf;
    w.InSlot(Handle(i));
    w.InSlot(Work(i));
    w.InSlot(Outcome(i));
    LookUp(w.c.cache, w.c.blocks, t.id);
    match t.pc
    case Begin =>
      match t.task {
        case Encoding(_, _) => t' := TakeIntoCopy(w, t, i);
        case Releasing => t' := ReleaseStep(w, t, i);
        case _ => t' := TakeOutContent(w, t, i);
      }
    case Out =>
      match t.task {
        case Encoding(_, _) => t' := EncodeCall(w, t, i);
        case Encrypting(_) => t' := EncryptCall(w, t, i);
        case Decrypting(_, full) =>
          if full {
            t' := DecryptFullCall(w, t, i);
          } else {
            t' := DecryptCall(w, t, i);
          }
        case Releasing => assert false;
      }
    case Called =>
      match t.task {
        case Encoding(_, _) => t' := LastRelease(w, t, i);
        case Encrypting(_) => t' := GiveBackAndSet(w, t, i);
        case Decrypting(_, full) =>
          if full {
            t' := GiveBackOnly(w, t, i);
          } else {
            t' := GiveBackAndSet(w, t, i);
          }
        case Releasing => assert false;
      }
    case Back => t' := LastRelease(w, t, i);
    case Done =>
      NoStep(w.c.Value(), t, w.Held(), i);
      t' := t;
  }

  /** The content that is out stays out of an entry that stays. */
  lemma StepPends(t: Ticket, t': Ticket, before: map<nat, Msg>, after: map<nat, Msg>, c: M.Cache, c': M.Cache, i: nat)
    requires Handle(i) in before && Handle(i) in after && t'.id == t.id && t'.task == t.task && Pending(t, c)
    requires (c', JobOf(t', after, i)) == JobStep(c, JobOf(t, before, i))
    ensures Pending(t', c')
  {
  }

  // ----- one call after the other -----

  /** The caller frees what the last call returned, and edits its message. */
  method Prepare(w: Callers, edit: Msg -> Msg, i: nat) returns (id: string)
    requires w.Valid() && Handle(i) in w.pool
    modifies w`pool, w`own, All(w.own), w.c.mem
    ensures w.Valid() && Handle(i) in old(w.Held()) && w.c.State() == old(w.c.State())
    ensures var m := edit(old(w.Held())[Handle(i)]);
      id == M.IdOf(m) && w.Held() == (old(w.Held()) - {Outcome(i)})[Handle(i) := m]
    ensures w.lost == old(w.lost)
    ensures fresh(All(w.c.blocks) + All(w.own) - old(All(w.c.blocks) + All(w.own)))
  {
    hide Message.Valid, Message.Value, Message.Repr, Owns, EntriesVal, All, Accounted, Holds, PoolVal;
    hide M.IdOf;
    w.InSlot(Handle(i));
    w.InSlot(Outcome(i));
    ghost var s0 := All(w.c.blocks) + All(w.own);
    if Outcome(i) in w.pool {
      w.Drop(Outcome(i));
    }
    assert w.Held() == old(w.Held()) - {Outcome(i)};
    ghost var s1 := All(w.c.blocks) + All(w.own);
    label L1:
    w.Edit(Handle(i), edit);
    ghost var s2 := All(w.c.blocks) + All(w.own);
    forall x | x in s2 && x !in s0 ensures !old(allocated(x)) {
      if x !in s1 { assert !old@L1(allocated(x)); }
    }
    id := w.IdAt(Handle(i));
  }

  /** The caller prepares its message and makes the next call. */
  method StartNext(w: Callers, t: Ticket, r: Request, i: nat) returns (t': Ticket)
    requires CanStep(w, t, i) && t.pc == Done
    modifies w, w.c`cache, w.c`blocks, All(w.c.blocks), All(w.own), w.c.mem
    ensures w.Valid() && Tidy(t', w.pool.Keys, i) && Handle(i) in w.Held() && t'.id == t.id
    ensures t'.pc in {Begin, Done}
    ensures Handle(i) in old(w.Held()) && JobOf(t', w.Held(), i) == Start(t.id, old(w.Held())[Handle(i)], r)
    ensures w.c.State() == old(w.c.State()) && OthersSame(old(w.Held()), w.Held(), i)
    ensures w.lost == old(w.lost)
    ensures fresh(All(w.c.blocks) + All(w.own) - old(All(w.c.blocks) + All(w.own)))
  {
    hide Message.Valid, Message.Value, Message.Repr, Owns, EntriesVal, All, Accounted, Holds, PoolVal;
    hide M.IdOf;
    w.InSlot(Handle(i));
    w.InSlot(Work(i));
    w.InSlot(Outcome(i));
    var id := Prepare(w, r.edit, i);
    w.InSlot(Handle(i));
    w.InSlot(Work(i));
    w.InSlot(Outcome(i));
    var ready := (r.task.Releasing? || (t.id == id && t.id != ""))
      && (r.task.Encoding? ==> r.task.one in {M.MSG_SRC, M.MSG_DST});
    t' := Ticket(r.task, t.id, if ready then Begin else Done, None, M.Returned(Ok));
  }

  /** The call of a line, and the calls to come. */
  datatype Agenda = Agenda(ticket: Ticket, rest: seq<Request>)

  function LineOf(a: Agenda, pool: map<nat, Msg>, i: nat, told: seq<Record>): Line
    requires Handle(i) in pool
  {
    Line(JobOf(a.ticket, pool, i), a.rest, told)
  }

  /** An encoding call has thrown, which loses the copy it had made. */
  ghost predicate Threw(told: seq<Record>) {
    exists r :: r in told && r.task.Encoding? && r.output.result == M.Thrown
  }

  /** One step of a line: of the call under way, or to the next one. */
  method AdvanceLine(w: Callers, a: Agenda, i: nat, ghost told: seq<Record>)
      returns (a': Agenda, ghost told': seq<Record>)
    requires CanStep(w, a.ticket, i)
    modifies w, w.c`cache, w.c`blocks, All(w.c.blocks), All(w.own), w.c.mem
    ensures w.Valid() && Tidy(a'.ticket, w.pool.Keys, i) && Handle(i) in w.Held() && a'.ticket.id == a.ticket.id
    ensures Pending(a'.ticket, w.c.Value())
    ensures (w.c.Value(), LineOf(a', w.Held(), i, told'))
      == LineStep(old(w.c.Value()), LineOf(a, old(w.Held()), i, told))
    ensures w.c.nextId == old(w.c.nextId) && OthersSame(old(w.Held()), w.Held(), i)
    ensures w.lost == old(w.lost) || Threw(told')
    ensures fresh(All(w.c.blocks) + All(w.own) - old(All(w.c.blocks) + All(w.own)))
  {
    hide Message.Valid, Message.Value, Message.Repr, Owns, EntriesVal, All, Accounted, Holds, PoolVal;
    hide JobStep, JobOf, Tidy, OthersSame, Start;
    ghost var before, c := w.Held(), w.c.Value();
    told' := told;
    if a.ticket.pc != Done {
      var t' := TakeStep(w, a.ticket, i);
      StepPends(a.ticket, t', before, w.Held(), c, w.c.Value(), i);
      a' := Agenda(t', a.rest);
      JobHasPc(a.ticket, before, i);
      JobHasPc(t', w.Held(), i);
      if t'.pc == Done {
        told' := told + [Record(t'.task, OutputOf(JobOf(t', w.Held(), i)))];
      }
      if a.ticket.task.Encoding? && a.ticket.pc == Begin && a.ticket.id !in c {
        EncodingThrows(c, a.ticket, t', before, w.c.Value(), w.Held(), i);
        assert told'[|told|].output.result == M.Thrown;
      }
    } else if a.rest != [] {
      var t' := StartNext(w, a.ticket, a.rest[0], i);
      a' := Agenda(t', a.rest[1..]);
      RestPends(t', w.c.Value());
      JobHasPc(a.ticket, before, i);
      JobHasPc(t', w.Held(), i);
    } else {
      a' := a;
      JobHasPc(a.ticket, before, i);
      NothingChanged(before, i);
      RestPends(a.ticket, c);
    }
  }

  lemma JobHasPc(t: Ticket, pool: map<nat, Msg>, i: nat)
    requires Handle(i) in pool
    ensures var j := JobOf(t, pool, i);
      j.pc == t.pc && j.task == t.task && j.id == t.id && j.result == t.result && j.handle == pool[Handle(i)]
  {
  }

  lemma RestPends(t: Ticket, c: M.Cache)
    requires t.pc in {Begin, Done}
    ensures Pending(t, c)
  {
  }

  lemma NothingChanged(pool: map<nat, Msg>, i: nat)
    ensures OthersSame(pool, pool, i)
  {
  }

  lemma EncodingThrows(c: M.Cache, t: Ticket, t': Ticket, before: map<nat, Msg>, c': M.Cache, after: map<nat, Msg>,
                       i: nat)
    requires Handle(i) in before && Handle(i) in after && t.task.Encoding? && t.pc == Begin && t.id !in c
    requires (c', JobOf(t', after, i)) == JobStep(c, JobOf(t, before, i))
    ensures t'.pc == Done && t'.result == M.Thrown
  {
  }

  // ----- any interleaving -----

  function LinesOf(agendas: seq<Agenda>, pool: map<nat, Msg>, told: seq<seq<Record>>): (r: seq<Line>)
    requires |told| == |agendas| && forall i :: 0 <= i < |agendas| ==> Handle(i) in pool
    ensures |r| == |agendas|
  {
    seq(|agendas|, i requires 0 <= i < |agendas| => LineOf(agendas[i], pool, i, told[i]))
  }

  predicate DistinctAgendas(agendas: seq<Agenda>) {
    forall i, j :: 0 <= i < j < |agendas| ==> agendas[i].ticket.id != agendas[j].ticket.id
  }

  /** The lines and their messages between two steps. */
  ghost predicate AllTidy(agendas: seq<Agenda>, pool: map<nat, Msg>, c: M.Cache) {
    forall i :: 0 <= i < |agendas| ==>
      Handle(i) in pool && Tidy(agendas[i].ticket, pool.Keys, i) && Pending(agendas[i].ticket, c)
  }

  ghost predicate UnderWay(w: Callers, agendas: seq<Agenda>)
    reads w, w.c, All(w.c.blocks), All(w.own), w.c.mem
  {
    w.Valid() && DistinctAgendas(agendas) && AllTidy(agendas, w.Held(), w.c.Value())
  }

  ghost function WorldBy(w: Callers, agendas: seq<Agenda>, told: seq<seq<Record>>): World
    requires UnderWay(w, agendas) && |told| == |agendas|
    reads w, w.c, All(w.c.blocks), All(w.own), w.c.mem
  {
    World(w.c.Value(), LinesOf(agendas, w.Held(), told))
  }

  lemma SlotsAreHeld(w: Callers)
    requires w.Valid()
    ensures w.pool.Keys == w.Held().Keys
  {
    hide Message.Valid, Message.Value, Message.Repr, Owns, EntriesVal, All, Accounted;
  }

  /** A step of line `k` leaves every other line where it is. */
  lemma OthersUnderWay(t: Ticket, k: nat, before: map<nat, Msg>, after: map<nat, Msg>, c: M.Cache, c': M.Cache, i: nat,
                       id: string)
    requires i != k && t.id != id && SameElsewhere(c, c', {id}) && OthersSame(before, after, k)
    requires Tidy(t, before.Keys, i) && Pending(t, c)
    ensures Tidy(t, after.Keys, i) && Pending(t, c')
    ensures Handle(i) in before && Handle(i) in after && JobOf(t, after, i) == JobOf(t, before, i)
  {
    assert View(c', t.id) == View(c, t.id);
    assert Get(after, Handle(i)) == Get(before, Handle(i));
    assert Get(after, Work(i)) == Get(before, Work(i));
    assert Get(after, Outcome(i)) == Get(before, Outcome(i));
  }

  /** After a step of line `k` all of them are under way as before. */
  lemma StillUnderWay(agendas: seq<Agenda>, k: nat, a': Agenda, told: seq<seq<Record>>, told': seq<Record>,
                      before: map<nat, Msg>, after: map<nat, Msg>, c: M.Cache, c': M.Cache)
    requires DistinctAgendas(agendas) && k < |agendas| == |told| && a'.ticket.id == agendas[k].ticket.id
    requires AllTidy(agendas, before, c) && Tidy(a'.ticket, after.Keys, k) && Pending(a'.ticket, c')
    requires OthersSame(before, after, k) && SameElsewhere(c, c', {a'.ticket.id}) && Handle(k) in after
    ensures DistinctAgendas(agendas[k := a']) && AllTidy(agendas[k := a'], after, c')
    ensures LinesOf(agendas[k := a'], after, told[k := told'])
      == LinesOf(agendas, before, told)[k := LineOf(a', after, k, told')]
  {
    hide JobOf, OthersSame, Tidy, Pending, SameElsewhere;
    var next := agendas[k := a'];
    forall i | 0 <= i < |next|
      ensures Handle(i) in after && Tidy(next[i].ticket, after.Keys, i) && Pending(next[i].ticket, c')
      ensures i != k ==> JobOf(next[i].ticket, after, i) == JobOf(agendas[i].ticket, before, i)
    {
      if i != k {
        assert agendas[i].ticket.id != agendas[k].ticket.id;
        OthersUnderWay(agendas[i].ticket, k, before, after, c, c', i, a'.ticket.id);
      }
    }
  }

  lemma AgendasAreLines(agendas: seq<Agenda>, pool: map<nat, Msg>, told: seq<seq<Record>>)
    requires |told| == |agendas| && forall i :: 0 <= i < |agendas| ==> Handle(i) in pool
    requires DistinctAgendas(agendas)
    ensures DistinctIds(LinesOf(agendas, pool, told))
    ensures forall i :: 0 <= i < |agendas| ==> LinesOf(agendas, pool, told)[i].job.pc == agendas[i].ticket.pc
    ensures forall i :: 0 <= i < |agendas| ==> LinesOf(agendas, pool, told)[i].rest == agendas[i].rest
    ensures forall i :: 0 <= i < |agendas| ==> LinesOf(agendas, pool, told)[i].told == told[i]
  {
  }

  /** Any schedule of steps, on blocks: it does what the interleaving of values does, and at every
      moment every live block is an entry's, or in a line's slots, or a bystander's, or is lost; only
      an encoding call that throws loses blocks. Slots that are no line's keep their messages. */
  method RunSchedule(w: Callers, agendas: seq<Agenda>, schedule: seq<nat>, ghost told: seq<seq<Record>>)
      returns (ended: seq<Agenda>, ghost told': seq<seq<Record>>)
    requires UnderWay(w, agendas) && |told| == |agendas|
    modifies w, w.c`cache, w.c`blocks, All(w.c.blocks), All(w.own), w.c.mem
    ensures UnderWay(w, ended) && |ended| == |told'| == |agendas|
    ensures WorldBy(w, ended, told') == Interleave(old(WorldBy(w, agendas, told)), schedule)
    ensures forall k: nat :: k >= 3 * |agendas| ==> Get(w.Held(), k) == Get(old(w.Held()), k)
    ensures w.lost == old(w.lost) || exists i :: 0 <= i < |told'| && Threw(told'[i])
    decreases |schedule|
  {
    hide LineStep, LineOf, Tidy, Pending, OthersSame, SameElsewhere, Threw;
    hide Message.Valid, Message.Value, Message.Repr, Owns, EntriesVal, All, Accounted, Holds, PoolVal;
    if schedule == [] {
      return agendas, told;
    }
    var k := schedule[0];
    if k >= |agendas| {
      ended, told' := RunSchedule(w, agendas, schedule[1..], told);
      return;
    }
    ghost var before, c := w.Held(), w.c.Value();
    SlotsAreHeld(w);
    ghost var line := LineOf(agendas[k], before, k, told[k]);
    StepIsElsewhere(c, agendas[k], before, k, told[k]);
    var a';
    ghost var more;
    a', more := AdvanceLine(w, agendas[k], k, told[k]);
    SlotsAreHeld(w);
    StillUnderWay(agendas, k, a', told, more, before, w.Held(), c, w.c.Value());
    Elsewhere(before, w.Held(), k, |agendas|);
    ghost var lost, world := w.lost, WorldBy(w, agendas[k := a'], told[k := more]);
    LinesTell(agendas[k := a'], w.Held(), told[k := more], k);
    ended, told' := RunSchedule(w, agendas[k := a'], schedule[1..], told[k := more]);
    LinesTell(ended, w.Held(), told', k);
    ToldGrows(world, schedule[1..]);
    if lost != old(w.lost) { StillThrew(more, told'[k]); }
  }

  lemma LinesTell(agendas: seq<Agenda>, pool: map<nat, Msg>, told: seq<seq<Record>>, k: nat)
    requires |told| == |agendas| && k < |agendas| && forall i :: 0 <= i < |agendas| ==> Handle(i) in pool
    ensures LinesOf(agendas, pool, told)[k].told == told[k]
  {
  }

  lemma StillThrew(told: seq<Record>, more: seq<Record>)
    requires Threw(told) && told <= more
    ensures Threw(more)
  {
    var i :| 0 <= i < |told| && told[i].task.Encoding? && told[i].output.result == M.Thrown;
    assert more[i] == told[i];
  }


  lemma StepIsElsewhere(c: M.Cache, a: Agenda, pool: map<nat, Msg>, i: nat, told: seq<Record>)
    requires Handle(i) in pool
    ensures SameElsewhere(c, LineStep(c, LineOf(a, pool, i, told)).0, {a.ticket.id})
  {
    hide LineStep;
    StepIsLocal(c, LineOf(a, pool, i, told));
  }

  /** When every line has had its steps, all have come to the end they come to one after another: the
      same cache, the same messages in the callers' hands, the same results of all calls. */
  method RunToEnd(w: Callers, agendas: seq<Agenda>, schedule: seq<nat>, ghost told: seq<seq<Record>>)
      returns (ended: seq<Agenda>, ghost told': seq<seq<Record>>)
    requires UnderWay(w, agendas) && |told| == |agendas|
    requires forall i :: 0 <= i < |agendas| ==> agendas[i].ticket.pc == Done
    requires forall i :: 0 <= i < |agendas| ==> multiset(schedule)[i] >= 5 * |agendas[i].rest|
    modifies w, w.c`cache, w.c`blocks, All(w.c.blocks), All(w.own), w.c.mem
    ensures UnderWay(w, ended) && |ended| == |told'| == |agendas|
    ensures var (s, ends) := OneByOne(old(w.c.State()), old(WorldBy(w, agendas, told)).lines);
      && w.c.Value() == s.cache
      && forall i :: 0 <= i < |agendas| ==>
           var line := WorldBy(w, ended, told').lines[i];
           Finished(line) && Ending(line.job.handle, line.told) == ends[i]
    ensures w.lost == old(w.lost) || exists i :: 0 <= i < |told'| && Threw(told'[i])
  {
    hide LineStep, LineOf, Tidy, Pending, OthersSame, Interleave, OneByOne, Threw;
    hide Message.Valid, Message.Value, Message.Repr, Owns, EntriesVal, All, Accounted, Holds, PoolVal;
    ghost var s, lines := w.c.State(), WorldBy(w, agendas, told).lines;
    AgendasAreLines(agendas, w.Held(), told);
    ended, told' := RunSchedule(w, agendas, schedule, told);
    InterleavingIsSequential(s, lines, schedule);
  }

  lemma Elsewhere(before: map<nat, Msg>, after: map<nat, Msg>, k: nat, n: nat)
    requires OthersSame(before, after, k) && k < n
    ensures forall j: nat :: j >= 3 * n ==> Get(after, j) == Get(before, j)
  {
  }
}
