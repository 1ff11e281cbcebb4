/** The message cache in the heap: each operation on real blocks does what the operation on values
    does, and accounts for every block (src/message_cache.cc). */
module HeapCache {
  import opened Common
  import opened Messages
  import opened CacheIds
  import opened HeapLists
  import opened HeapMessages
  import opened HeapEngine
  import opened HeapEntries
  import opened HeapStore
  import CacheModel

  class MessageCache {
    const mem: Memory
    const idRange: nat
    var nextId: nat
    var cache: Entries
    ghost var blocks: BlockMap

    /** Every entry consists of valid messages, and no block belongs to two of them. */
    ghost predicate Valid()
      reads this, All(blocks)
    {
      Owns(cache, blocks)
    }

    ghost function Value(): CacheModel.Cache
      requires Valid()
      reads this, All(blocks)
    {
      EntriesVal(cache, blocks)
    }

    /** An empty cache with the two numbers the random device draws. */
    constructor (idRange: nat, nextId: nat, mem: Memory)
      ensures Valid() && Value() == map[] && All(blocks) == {}
      ensures this.mem == mem && this.idRange == idRange && this.nextId == nextId
    {
      this.mem := mem;
      this.idRange, this.nextId := idRange, nextId;
      cache, blocks := map[], map[];
    }

    lemma Outside(m: Message)
      requires m.Valid()
      ensures (this as object) !in m.Repr() && (mem as object) !in m.Repr() && m in m.Repr()
    {
    }

    lemma SelfOutside()
      requires Valid()
      ensures (this as object) !in All(blocks) && (mem as object) !in All(blocks)
    {
      hide Message.Valid;
      forall id | id in blocks ensures (this as object) !in blocks[id] && (mem as object) !in blocks[id] {
        OneEntry(cache, blocks, id);
        Outside(cache[id].src);
        if cache[id].dst != null { Outside(cache[id].dst); }
      }
    }

    /** A caller's message beside the cache: no block is in both. */
    ghost predicate With(m: Message?)
      reads this, All(blocks), mem, m, Owned(m)
    {
      Valid() && (m != null ==> m.Valid()) && Apart(All(blocks), Owned(m), mem.live)
    }

    /** The first lock section of encrypting and decrypting, and of encoding a source. */
    method Take(id: string, handle: Message)
      requires With(handle) && id in cache
      modifies this`blocks, cache[id].src, handle, mem
      ensures With(handle)
      ensures (Value(), handle.Value()) == CacheModel.Take(old(Value()), id, old(handle.Value()))
      ensures SameBalance(old(mem.live), old(All(blocks) + handle.Repr()), mem.live, All(blocks) + handle.Repr())
      ensures All(blocks) + handle.Repr() <= old(All(blocks) + handle.Repr())
    {
      hide Message.Valid, Message.Value, Message.Repr, EntryOk, EntryVal, Owns, EntriesVal, All, Separate;
      SelfOutside();
      Outside(handle);
      Isolate(cache, blocks, id);
      ghost var value, was, live, h := Value(), blocks[id], mem.live, handle.Repr();
      ghost var b := TakeFrom(cache[id], blocks[id], handle, mem);
      Balanced(Others(blocks, id), live, was, h, mem.live, b, handle.Repr());
      Rejoin(cache, blocks, id, cache[id], b);
      assert cache[id := cache[id]] == cache;
      PutAgain(value, id, EntryVal(cache[id], b));
      blocks := blocks[id := b];
    }

    /** Its second one, and the second one of the other operations up to the result. */
    method GiveBack(id: string, handle: Message)
      requires With(handle) && id in cache
      modifies this`blocks, cache[id].src, handle, mem
      ensures With(handle)
      ensures (Value(), handle.Value()) == CacheModel.GiveBack(old(Value()), id, old(handle.Value()))
      ensures SameBalance(old(mem.live), old(All(blocks) + handle.Repr()), mem.live, All(blocks) + handle.Repr())
      ensures All(blocks) + handle.Repr() <= old(All(blocks) + handle.Repr())
    {
      hide Message.Valid, Message.Value, Message.Repr, EntryOk, EntryVal, Owns, EntriesVal, All, Separate;
      SelfOutside();
      Outside(handle);
      Isolate(cache, blocks, id);
      ghost var value, was, live, h := Value(), blocks[id], mem.live, handle.Repr();
      ghost var b := GiveBackTo(cache[id], blocks[id], handle, mem);
      Balanced(Others(blocks, id), live, was, h, mem.live, b, handle.Repr());
      Rejoin(cache, blocks, id, cache[id], b);
      assert cache[id := cache[id]] == cache;
      PutAgain(value, id, EntryVal(cache[id], b));
      blocks := blocks[id := b];
    }

    /** The lock section of encoding a destination. */
    method TakeDst(id: string, handle: Message)
      requires With(handle) && id in cache && cache[id].dst != null
      modifies this`blocks, cache[id].dst, handle, mem
      ensures With(handle)
      ensures id in old(Value()) && old(Value())[id].dst.Some?
      ensures (Value(), handle.Value()) == CacheModel.TakeDst(old(Value()), id, old(handle.Value()))
      ensures SameBalance(old(mem.live), old(All(blocks) + handle.Repr()), mem.live, All(blocks) + handle.Repr())
      ensures All(blocks) + handle.Repr() <= old(All(blocks) + handle.Repr())
    {
      hide Message.Valid, Message.Value, Message.Repr, EntryOk, Owns, EntriesVal, All, Separate;
      SelfOutside();
      Outside(handle);
      Isolate(cache, blocks, id);
      ghost var value, was, live, h := Value(), blocks[id], mem.live, handle.Repr();
      ghost var b := TakeFromDst(cache[id], blocks[id], handle, mem);
      Balanced(Others(blocks, id), live, was, h, mem.live, b, handle.Repr());
      Rejoin(cache, blocks, id, cache[id], b);
      assert cache[id := cache[id]] == cache;
      PutAgain(value, id, EntryVal(cache[id], b));
      blocks := blocks[id := b];
    }

    /** The result of the engine replaces the entry's destination, which is freed. */
    method SetDst(id: string, dst: Message?)
      requires With(dst) && id in cache
      modifies this`cache, this`blocks, mem
      ensures With(null)
      ensures Value() == CacheModel.SetDst(old(Value()), id, old(ValueOf(dst)))
      ensures SameBalance(old(mem.live), old(All(blocks) + Owned(dst)), mem.live, All(blocks))
      ensures All(blocks) <= old(All(blocks) + Owned(dst))
    {
      hide Message.Valid, Message.Value, Message.Repr, EntryOk, EntryVal, Owns, EntriesVal, All, Separate;
      SelfOutside();
      if dst != null { Outside(dst); }
      Isolate(cache, blocks, id);
      ghost var value, was, live, h := Value(), blocks[id], mem.live, Owned(dst);
      var e, b := ReplaceDst(cache[id], blocks[id], dst, mem);
      Balanced(Others(blocks, id), live, was, h, mem.live, b, {});
      Rejoin(cache, blocks, id, e, b);
      PutAgain(value, id, EntryVal(e, b));
      cache, blocks := cache[id := e], blocks[id := b];
    }

    /** `release`, whose lookup throws, and has the exception swallowed, where there is no entry. */
    method Release(id: string)
      requires With(null)
      modifies this`cache, this`blocks, mem
      ensures With(null)
      ensures Value() == CacheModel.Erase(old(Value()), id)
      ensures SameBalance(old(mem.live), old(All(blocks)), mem.live, All(blocks))
      ensures All(blocks) <= old(All(blocks))
    {
      hide Message.Valid, Message.Value, Message.Repr, EntryOk, EntryVal, Owns, EntriesVal, All, Separate;
      LookUp(cache, blocks, id);
      if id !in cache {
        EraseNothing(Value(), id);
        return;
      }
      SelfOutside();
      Isolate(cache, blocks, id);
      ReleaseEntry(cache[id], blocks[id], mem);
      cache, blocks := cache - {id}, blocks - {id};
    }

    ghost function State(): CacheModel.State
      requires Valid()
      reads this, All(blocks)
    {
      CacheModel.State(Value(), Generator(idRange, nextId))
    }

    /** The engine works on the caller's message and makes another; the cache looks on. */
    method CallOut(engine: CacheModel.Engine, src: Message) returns (status: Status, dst: Message?, given: Msg)
      requires With(src)
      modifies src.Repr(), mem
      ensures With(src) && With(dst) && Disjoint(src.Repr(), Owned(dst))
      ensures Value() == old(Value()) && given == old(src.Value())
      ensures engine(given) == CacheModel.Reply(status, src.Value(), ValueOf(dst))
      ensures SameBalance(old(mem.live), old(All(blocks) + src.Repr()), mem.live, All(blocks) + src.Repr() + Owned(dst))
      ensures fresh(src.Repr() + Owned(dst) - old(src.Repr()))
    {
      hide Message.Valid, Message.Value, Message.Repr, Owns, EntriesVal, All;
      SelfOutside();
      Outside(src);
      ghost var live, was := mem.live, src.Repr();
      status, dst, given := CallEngine(engine, src, mem);
      LooksOn(All(blocks), live, was, mem.live, src.Repr(), Owned(dst));
    }

    /** A slim copy of a message, or of none. */
    method CopyOut(m: Message?, id: string, full: bool) returns (dst: Message?)
      requires With(m)
      modifies mem
      ensures With(m) && With(dst) && Value() == old(Value())
      ensures ValueOf(m) == old(ValueOf(m)) && ValueOf(dst) == SlimCopyOpt(ValueOf(m), id, full)
      ensures fresh(Owned(dst)) && Disjoint(Owned(dst), old(mem.live)) && mem.live == old(mem.live) + Owned(dst)
    {
      hide Message.Valid, Message.Value, Message.Repr, Owns, EntriesVal, All;
      SelfOutside();
      if m == null {
        return null;
      }
      Outside(m);
      dst := EmptyMessageCopy(m, id, full, mem);
    }

    /** The second lock section, up to the release. */
    method SecondSection(id: string, src: Message, full: Message?)
      requires With(src) && With(full) && Disjoint(src.Repr(), Owned(full)) && id in cache
      modifies this`cache, this`blocks, cache[id].src, src, mem
      ensures With(src)
      ensures id in old(Value())
      ensures var (back, slim) := CacheModel.GiveBack(old(Value()), id, old(src.Value()));
        src.Value() == slim && Value() == CacheModel.SetDst(back, id, old(ValueOf(full)))
      ensures SameBalance(old(mem.live), old(All(blocks) + src.Repr() + Owned(full)),
                          mem.live, All(blocks) + src.Repr())
      ensures All(blocks) + src.Repr() <= old(All(blocks) + src.Repr() + Owned(full))
    {
      hide Message.Valid, Message.Value, Message.Repr, Owns, EntriesVal, All;
      SelfOutside();
      LookUp(cache, blocks, id);
      Outside(src);
      if full != null { Outside(full); }
      ghost var a, r, f, live := All(blocks), src.Repr(), Owned(full), mem.live;
      GiveBack(id, src);
      SelfOutside();
      Outside(src);
      ghost var a1, r1, live1 := All(blocks), src.Repr(), mem.live;
      Beside(f, live, a + r, live1, a1 + r1);
      SetDst(id, full);
      BothHalves(live, a, r, f, live1, a1, r1, mem.live, All(blocks));
    }

    /** What happens between the lock sections: the engine call and the copy of its result. */
    method Answer(engine: CacheModel.Engine, src: Message, id: string, full: bool)
        returns (status: Status, made: Message?, dst: Message?)
      requires With(src)
      modifies src.Repr(), mem
      ensures With(src) && With(made) && With(dst) && Value() == old(Value())
      ensures Disjoint(src.Repr(), Owned(made)) && Disjoint(src.Repr() + Owned(made), Owned(dst))
      ensures engine(old(src.Value())) == CacheModel.Reply(status, src.Value(), ValueOf(made))
      ensures ValueOf(dst) == SlimCopyOpt(ValueOf(made), id, full)
      ensures SameBalance(old(mem.live), old(All(blocks) + src.Repr()),
                          mem.live, All(blocks) + src.Repr() + Owned(made) + Owned(dst))
      ensures fresh(src.Repr() + Owned(made) + Owned(dst) - old(src.Repr()))
    {
      hide Message.Valid, Message.Value, Message.Repr, Owns, EntriesVal, All;
      var given: Msg;
      status, made, given := CallOut(engine, src);
      Outside(src);
      dst := CopyOut(made, id, full);
    }

    /** From the engine call to the end of the second lock section. */
    method Complete(engine: CacheModel.Engine, src: Message, id: string, full: bool)
        returns (status: Status, dst: Message?)
      requires With(src) && id in cache
      modifies this`cache, this`blocks, cache[id].src, src.Repr(), mem
      ensures With(src) && With(dst) && Disjoint(src.Repr(), Owned(dst))
      ensures id in old(Value())
      ensures var reply := engine(old(src.Value()));
        var (back, slim) := CacheModel.GiveBack(old(Value()), id, reply.src);
        && Value() == CacheModel.SetDst(back, id, reply.dst) && src.Value() == slim
        && status == reply.status && ValueOf(dst) == SlimCopyOpt(reply.dst, id, full)
      ensures SameBalance(old(mem.live), old(All(blocks) + src.Repr()),
                          mem.live, All(blocks) + src.Repr() + Owned(dst))
      ensures fresh(All(blocks) + src.Repr() + Owned(dst) - old(All(blocks) + src.Repr()))
    {
      hide Message.Valid, Message.Value, Message.Repr, Owns, EntriesVal, All;
      LookUp(cache, blocks, id);
      SelfOutside();
      Outside(src);
      ghost var live, a, r := mem.live, All(blocks), src.Repr();
      var made: Message?;
      status, made, dst := Answer(engine, src, id, full);
      ghost var live1, r1, f, d := mem.live, src.Repr(), Owned(made), Owned(dst);
      Outside(src);
      if dst != null { Outside(dst); }
      SecondSection(id, src, made);
      AnswerAndBack(live, a, r, live1, r1, f, d, mem.live, All(blocks), src.Repr());
    }

    /** `encrypt_message` and `encrypt_message_for_self`. */
    method Encrypt(engine: CacheModel.Engine, src: Message) returns (result: CacheModel.Result, dst: Message?)
      requires With(src)
      modifies this`cache, this`blocks, All(blocks), src.Repr(), mem
      ensures With(src) && With(dst) && Disjoint(src.Repr(), Owned(dst))
      ensures var (s, out) := CacheModel.StepEncrypt(old(State()), old(src.Value()), engine);
        && State() == s && result == out.result
        && out.handle == Some(src.Value()) && out.dst == ValueOf(dst)
      ensures SameBalance(old(mem.live), old(All(blocks) + src.Repr()),
                          mem.live, All(blocks) + src.Repr() + Owned(dst))
      ensures fresh(All(blocks) + src.Repr() + Owned(dst) - old(All(blocks) + src.Repr()))
    {
      hide Message.Valid, Message.Value, Message.Repr, Owns, EntriesVal, All, SlimCopyOpt;
      hide CacheModel.Take, CacheModel.GiveBack, CacheModel.SetDst;
      var id := CacheIdOf(src);
      LookUp(cache, blocks, id);
      if id !in cache {
        return CacheModel.Thrown, null;
      }
      Outside(src);
      Take(id, src);
      Outside(src);
      var status: Status;
      status, dst := Complete(engine, src, id, false);
      result := CacheModel.Returned(status);
    }

    /** The second lock section and the release, where the caller gets the full result. */
    method DropSection(id: string, src: Message)
      requires With(src) && id in cache
      modifies this`cache, this`blocks, cache[id].src, src, mem
      ensures With(src)
      ensures id in old(Value())
      ensures var (back, slim) := CacheModel.GiveBack(old(Value()), id, old(src.Value()));
        src.Value() == slim && Value() == CacheModel.Erase(back, id)
      ensures SameBalance(old(mem.live), old(All(blocks) + src.Repr()), mem.live, All(blocks) + src.Repr())
      ensures All(blocks) + src.Repr() <= old(All(blocks) + src.Repr())
    {
      hide Message.Valid, Message.Value, Message.Repr, Owns, EntriesVal, All, CacheModel.GiveBack, CacheModel.Erase;
      LookUp(cache, blocks, id);
      Outside(src);
      GiveBack(id, src);
      Outside(src);
      ghost var live, a := mem.live, All(blocks);
      Release(id);
      Beside(src.Repr(), live, a, mem.live, All(blocks));
    }

    /** Likewise from the engine call on. */
    method CompleteFull(engine: CacheModel.Engine, src: Message, id: string) returns (status: Status, dst: Message?)
      requires With(src) && id in cache
      modifies this`cache, this`blocks, cache[id].src, src.Repr(), mem
      ensures With(src) && With(dst) && Disjoint(src.Repr(), Owned(dst))
      ensures id in old(Value())
      ensures var reply := engine(old(src.Value()));
        var (back, slim) := CacheModel.GiveBack(old(Value()), id, reply.src);
        && Value() == CacheModel.Erase(back, id) && src.Value() == slim
        && status == reply.status && ValueOf(dst) == reply.dst
      ensures SameBalance(old(mem.live), old(All(blocks) + src.Repr()),
                          mem.live, All(blocks) + src.Repr() + Owned(dst))
      ensures fresh(All(blocks) + src.Repr() + Owned(dst) - old(All(blocks) + src.Repr()))
    {
      hide Message.Valid, Message.Value, Message.Repr, Owns, EntriesVal, All, CacheModel.GiveBack, CacheModel.Erase;
      LookUp(cache, blocks, id);
      SelfOutside();
      Outside(src);
      var given: Msg;
      status, dst, given := CallOut(engine, src);
      ghost var live, a, r, d := mem.live, All(blocks), src.Repr(), Owned(dst);
      Outside(src);
      if dst != null { Outside(dst); }
      DropSection(id, src);
      Beside(d, live, a + r, mem.live, All(blocks) + src.Repr());
    }

    method Reorder(src: Message)
      requires With(src)
      modifies src.Repr()
      ensures With(src) && src.Repr() == old(src.Repr())
      ensures Value() == old(Value()) && src.Value() == Reordered(old(src.Value()))
    {
      hide Message.Value, Owns, EntriesVal, All;
      SelfOutside();
      Outside(src);
      ValidOwnsSelf(src, mem);
      CorrectAttachmentsOrder(src);
    }

    /** `decrypt_message`, with or without full output. */
    method Decrypt(engine: CacheModel.Engine, src: Message?, full: bool)
        returns (result: CacheModel.Result, dst: Message?)
      requires With(src)
      modifies this`cache, this`blocks, All(blocks), Owned(src), mem
      ensures With(src) && With(dst) && Disjoint(Owned(src), Owned(dst))
      ensures var (s, out) := CacheModel.StepDecrypt(old(State()), old(ValueOf(src)), engine, full);
        && State() == s && result == out.result
        && out.handle == ValueOf(src) && out.dst == ValueOf(dst)
      ensures SameBalance(old(mem.live), old(All(blocks) + Owned(src)),
                          mem.live, All(blocks) + Owned(src) + Owned(dst))
      ensures fresh(All(blocks) + Owned(src) + Owned(dst) - old(All(blocks) + Owned(src)))
    {
      hide Message.Valid, Message.Value, Message.Repr, Owns, EntriesVal, All, SlimCopyOpt, Reordered;
      hide CacheModel.Take, CacheModel.GiveBack, CacheModel.SetDst, CacheModel.Erase;
      var id := "";
      if src != null {
        id := CacheIdOf(src);
      }
      if src == null || id == "" {
        return CacheModel.Returned(IllegalValue), null;
      }
      LookUp(cache, blocks, id);
      if id !in cache {
        return CacheModel.Thrown, null;
      }
      Outside(src);
      Take(id, src);
      Outside(src);
      Reorder(src);
      Outside(src);
      var status: Status;
      if full {
        status, dst := CompleteFull(engine, src, id);
      } else {
        status, dst := Complete(engine, src, id, true);
      }
      result := CacheModel.Returned(status);
    }

    /** Encoding, once the content is in the slim copy: without the ID, and freed afterwards; then
        the entry is released. */
    method EncodePart(encoder: CacheModel.Encoder, id: string, part: Message) returns (status: Status)
      requires With(part)
      modifies this`cache, this`blocks, part.Repr(), mem
      ensures With(null) && Value() == CacheModel.Erase(old(Value()), id)
      ensures status == encoder(CacheModel.RemoveIdFrom(old(part.Value())))
      ensures SameBalance(old(mem.live), old(All(blocks) + part.Repr()), mem.live, All(blocks))
      ensures All(blocks) <= old(All(blocks))
    {
      hide Message.Valid, Message.Value, Message.Repr, Owns, EntriesVal, All, CacheModel.Erase;
      SelfOutside();
      Outside(part);
      FreedBeside(All(blocks), part.Repr(), mem.live);
      var given: Msg;
      status, given := EncodeAndFree(encoder, part, mem);
      Release(id);
    }

    /** The lock section of encoding, for a source or a destination. */
    method TakeWhich(one: int, id: string, part: Message)
      requires With(part) && id in cache && (one == CacheModel.MSG_DST ==> cache[id].dst != null)
      modifies this`blocks, All(blocks), part, mem
      ensures With(part)
      ensures id in old(Value()) && (one == CacheModel.MSG_DST ==> old(Value())[id].dst.Some?)
      ensures (Value(), part.Value()) ==
        if one == CacheModel.MSG_DST then CacheModel.TakeDst(old(Value()), id, old(part.Value()))
        else CacheModel.Take(old(Value()), id, old(part.Value()))
      ensures SameBalance(old(mem.live), old(All(blocks) + part.Repr()), mem.live, All(blocks) + part.Repr())
      ensures All(blocks) + part.Repr() <= old(All(blocks) + part.Repr())
    {
      hide Message.Valid, Message.Value, Message.Repr, Owns, EntriesVal, All, CacheModel.Take, CacheModel.TakeDst;
      LookUp(cache, blocks, id);
      if one == CacheModel.MSG_DST {
        TakeDst(id, part);
      } else {
        Take(id, part);
      }
    }

    /** The copy, the lock section and all that follows, where there is something to encode. */
    method EncodeEntry(one: int, msg: Message, id: string, encoder: CacheModel.Encoder) returns (status: Status)
      requires With(msg) && id in cache && (one == CacheModel.MSG_DST ==> cache[id].dst != null)
      modifies this`cache, this`blocks, All(blocks), mem
      ensures With(msg)
      ensures id in old(Value()) && (one == CacheModel.MSG_DST ==> old(Value())[id].dst.Some?)
      ensures var part := SlimCopy(old(msg.Value()), "", false);
        var (cache, full) := if one == CacheModel.MSG_DST then CacheModel.TakeDst(old(Value()), id, part)
                             else CacheModel.Take(old(Value()), id, part);
        Value() == CacheModel.Erase(cache, id) && status == encoder(CacheModel.RemoveIdFrom(full))
      ensures SameBalance(old(mem.live), old(All(blocks)) + msg.Repr(), mem.live, All(blocks) + msg.Repr())
      ensures fresh(All(blocks) - old(All(blocks)))
    {
      hide Message.Valid, Message.Value, Message.Repr, Owns, EntriesVal, All;
      hide CacheModel.Erase, CacheModel.Take, CacheModel.TakeDst;
      LookUp(cache, blocks, id);
      SelfOutside();
      Outside(msg);
      ghost var live, a, o := mem.live, All(blocks), msg.Repr();
      var part := EmptyMessageCopy(msg, "", false, mem);
      Outside(part);
      ghost var p := part.Repr();
      TakeWhich(one, id, part);
      Outside(part);
      ghost var live1, a1, p1 := mem.live, All(blocks), part.Repr();
      status := EncodePart(encoder, id, part);
      CopyUsedUp(live, a, o, p, live1, a1, p1, mem.live, All(blocks));
    }

    /** The copy made before a lookup that throws. */
    method LoseCopy(msg: Message) returns (ghost lost: set<object>)
      requires With(msg)
      modifies mem
      ensures With(msg) && Value() == old(Value()) && msg.Value() == old(msg.Value())
      ensures Disjoint(lost, All(blocks) + msg.Repr())
      ensures SameBalance(old(mem.live), old(All(blocks) + msg.Repr()), mem.live, All(blocks) + msg.Repr() + lost)
    {
      hide Message.Valid, Message.Value, Message.Repr, Owns, EntriesVal, All, SlimCopy;
      SelfOutside();
      ValidOwnsSelf(msg, mem);
      var part := EmptyMessageCopy(msg, "", false, mem);
      lost := part.Repr();
    }

    /** `mime_encode_message`. Where there is no such entry `at` throws, and the copy is lost. */
    method MimeEncode(one: int, msg: Message?, encoder: CacheModel.Encoder)
        returns (result: CacheModel.Result, ghost lost: set<object>)
      requires With(msg)
      modifies this`cache, this`blocks, All(blocks), mem
      ensures With(msg) && ValueOf(msg) == old(ValueOf(msg))
      ensures var (s, out) := CacheModel.StepEncode(old(State()), one, old(ValueOf(msg)), encoder);
        State() == s && result == out.result
      ensures Disjoint(lost, All(blocks) + Owned(msg)) && (result.Returned? ==> lost == {})
      ensures SameBalance(old(mem.live), old(All(blocks) + Owned(msg)), mem.live, All(blocks) + Owned(msg) + lost)
      ensures fresh(All(blocks) - old(All(blocks)))
    {
      hide Message.Valid, Message.Value, Message.Repr, Owns, EntriesVal, All, SlimCopy;
      hide CacheModel.Take, CacheModel.TakeDst, CacheModel.Erase, CacheModel.RemoveIdFrom;
      lost := {};
      var id := "";
      if msg != null {
        id := CacheIdOf(msg);
      }
      if msg == null || id == "" || (one != CacheModel.MSG_SRC && one != CacheModel.MSG_DST) {
        return CacheModel.Returned(IllegalValue), {};
      }
      LookUp(cache, blocks, id);
      SelfOutside();
      ValidOwnsSelf(msg, mem);
      if id !in cache {
        lost := LoseCopy(msg);
        return CacheModel.Thrown, lost;
      }
      if one == CacheModel.MSG_DST && cache[id].dst == null {
        return CacheModel.Returned(IllegalValue), {};
      }
      var status := EncodeEntry(one, msg, id, encoder);
      result := CacheModel.Returned(status);
    }

    /** `emplace`: where the key is taken nothing is inserted, and nobody has the messages. */
    method Emplace(id: string, src: Message, dst: Message?) returns (ghost lost: set<object>)
      requires With(src) && With(dst) && Disjoint(src.Repr(), Owned(dst))
      modifies this`cache, this`blocks
      ensures With(null)
      ensures Value() == CacheModel.Emplace(old(Value()), id, CacheModel.Entry(old(src.Value()), old(ValueOf(dst))))
      ensures Disjoint(lost, All(blocks)) && (id !in old(Value()) ==> lost == {})
      ensures All(blocks) + lost == old(All(blocks)) + old(src.Repr() + Owned(dst))
    {
      hide Message.Valid, Message.Value, Message.Repr, Owns, EntriesVal, All;
      LookUp(cache, blocks, id);
      lost := {};
      if id in cache {
        return src.Repr() + Owned(dst);
      }
      SelfOutside();
      Outside(src);
      if dst != null { Outside(dst); }
      var e := CacheEntry(src, dst);
      ghost var b := src.Repr() + Owned(dst);
      NotThere(cache, blocks, id);
      Rejoin(cache, blocks, id, e, b);
      cache, blocks := cache[id := e], blocks[id := b];
    }

    /** `putCacheID` on a message beside the cache. */
    method PutId(m: Message, id: string)
      requires With(m)
      modifies m, mem
      ensures With(m) && Value() == old(Value())
      ensures m.Value() == CacheModel.PutIdIn(old(m.Value()), id)
      ensures SameBalance(old(mem.live), old(m.Repr()), mem.live, m.Repr())
      ensures SameBalance(old(mem.live), old(All(blocks) + m.Repr()), mem.live, All(blocks) + m.Repr())
      ensures fresh(m.Repr() - old(m.Repr()))
    {
      hide Message.Valid, Message.Value, Owns, EntriesVal, All;
      SelfOutside();
      Outside(m);
      ghost var live, content, rest := mem.live, m.content, m.rest;
      PutCacheId(m, id, mem);
      Gone(live, content, rest, mem.live, m.rest);
      LooksOn(All(blocks), live, content + rest, mem.live, m.Repr(), {});
      assert All(blocks) + m.Repr() + {} == All(blocks) + m.Repr();
    }

    /** The decoder's message, with a new ID. */
    method Decoded(parsed: Msg) returns (full: Message, id: string)
      requires With(null) && nextId < LLONG_MAX
      modifies this`nextId, mem
      ensures With(full) && Value() == old(Value())
      ensures id == Id(idRange, old(nextId)) && nextId == old(nextId) + 1
      ensures full.Value() == CacheModel.PutIdIn(parsed, id) && CacheModel.IdOf(full.Value()) == id
      ensures SameBalance(old(mem.live), old(All(blocks)), mem.live, All(blocks) + full.Repr())
      ensures fresh(full.Repr())
    {
      hide Message.Valid, Message.Value, Message.Repr, Owns, EntriesVal, All, CacheModel.PutIdIn, CacheModel.IdOf, Id;
      SelfOutside();
      full := BuildMessage(parsed, mem);
      Outside(full);
      id := Id(idRange, nextId);
      PutId(full, id);
      CacheModel.PutIsFound(parsed, id);
      SelfOutside();
      Outside(full);
      nextId := nextId + 1;
    }

    /** `mime_decode_message`, where the decoder comes back with a status and a message. */
    method MimeDecode(status: Status, parsed: Msg)
        returns (result: CacheModel.Result, msg: Message?, ghost lost: set<object>)
      requires With(null) && nextId < LLONG_MAX
      modifies this, mem
      ensures With(msg)
      ensures var (s, out) := CacheModel.StepDecode(old(State()), status, parsed);
        State() == s && result == out.result && ValueOf(msg) == out.dst
      ensures Disjoint(lost, All(blocks) + Owned(msg))
      ensures Id(idRange, old(nextId)) !in old(Value()) ==> lost == {}
      ensures SameBalance(old(mem.live), old(All(blocks)), mem.live, All(blocks) + Owned(msg) + lost)
      ensures fresh(All(blocks) + Owned(msg) - old(All(blocks)))
    {
      hide Message.Valid, Message.Value, Message.Repr, Owns, EntriesVal, All, SlimCopy, Id;
      hide CacheModel.PutIdIn, CacheModel.Emplace, CacheModel.IdOf;
      lost := {};
      if status != Ok {
        return CacheModel.Returned(status), null, {};
      }
      var full, id := Decoded(parsed);
      SelfOutside();
      Outside(full);
      msg := EmptyMessageCopy(full, "", false, mem);
      Outside(msg);
      lost := Emplace(id, full, null);
      result := CacheModel.Returned(status);
    }

    /** The copy for the caller, and the one for the cache. */
    method TwoCopies(src: Message, made: Message?) returns (dst: Message, copy: Message)
      requires With(src) && With(made)
      modifies mem
      ensures With(src) && With(made) && With(copy) && With(dst) && Value() == old(Value())
      ensures src.Value() == old(src.Value()) && ValueOf(made) == old(ValueOf(made))
      ensures copy.Value() == src.Value()
      ensures dst.Value() == SlimCopy(if made != null then made.Value() else src.Value(), "", false)
      ensures fresh(dst.Repr()) && fresh(copy.Repr()) && Disjoint(dst.Repr(), copy.Repr())
      ensures Disjoint(dst.Repr() + copy.Repr(), old(mem.live)) && mem.live == old(mem.live) + dst.Repr() + copy.Repr()
    {
      hide Message.Valid, Message.Value, Message.Repr, Owns, EntriesVal, All, SlimCopy;
      SelfOutside();
      ValidOwnsSelf(src, mem);
      if made != null { ValidOwnsSelf(made, mem); }
      dst := EmptyMessageCopy(if made != null then made else src, "", false, mem);
      Outside(dst);
      copy := DupMessage(src, mem);
    }

    /** The slim copy for the caller, and the new entry: a duplicate of the source, and the result. */
    method Keep(id: string, src: Message, made: Message?) returns (dst: Message, ghost lost: set<object>)
      requires With(src) && With(made) && Disjoint(src.Repr(), Owned(made))
      modifies this`cache, this`blocks, mem
      ensures With(src) && With(dst) && Disjoint(src.Repr(), dst.Repr()) && src.Value() == old(src.Value())
      ensures dst.Value() == SlimCopy(if made != null then old(made.Value()) else src.Value(), "", false)
      ensures Value() == CacheModel.Emplace(old(Value()), id, CacheModel.Entry(src.Value(), old(ValueOf(made))))
      ensures Disjoint(lost, All(blocks) + src.Repr() + dst.Repr()) && (id !in old(Value()) ==> lost == {})
      ensures SameBalance(old(mem.live), old(All(blocks) + src.Repr() + Owned(made)),
                          mem.live, All(blocks) + src.Repr() + dst.Repr() + lost)
      ensures fresh(All(blocks) + dst.Repr() - old(All(blocks) + Owned(made)))
    {
      hide Message.Valid, Message.Value, Message.Repr, Owns, EntriesVal, All, SlimCopy, CacheModel.Emplace;
      ghost var live, a, r, f := mem.live, All(blocks), src.Repr(), Owned(made);
      var copy: Message;
      dst, copy := TwoCopies(src, made);
      ghost var d, c := dst.Repr(), copy.Repr();
      ValidOwnsSelf(src, mem);
      Outside(src);
      Outside(dst);
      lost := Emplace(id, copy, made);
      Kept(live, a, r, f, d, c, All(blocks), lost);
    }

    /** The ID in the engine's result too. */
    method LabelMade(src: Message, made: Message?, id: string)
      requires With(src) && With(made) && Disjoint(src.Repr(), Owned(made))
      modifies Owned(made), mem
      ensures With(src) && With(made) && Disjoint(src.Repr(), Owned(made))
      ensures Value() == old(Value()) && src.Value() == old(src.Value())
      ensures ValueOf(made) == if made == null then None else Some(CacheModel.PutIdIn(old(made.Value()), id))
      ensures SameBalance(old(mem.live), old(All(blocks) + src.Repr() + Owned(made)),
                          mem.live, All(blocks) + src.Repr() + Owned(made))
      ensures fresh(Owned(made) - old(Owned(made)))
    {
      hide Message.Valid, Message.Value, Message.Repr, Owns, EntriesVal, All, CacheModel.PutIdIn;
      if made == null {
        return;
      }
      SelfOutside();
      ValidOwnsSelf(src, mem);
      Outside(made);
      ghost var live, f, others := mem.live, made.Repr(), All(blocks) + src.Repr();
      PutId(made, id);
      LooksOn(others, live, f, mem.live, made.Repr(), {});
      assert others + made.Repr() + {} == others + made.Repr();
    }

    /** Both: the result with the ID, and what is kept of it and of the source. */
    method LabelAndKeep(id: string, src: Message, made: Message?) returns (dst: Message, ghost lost: set<object>)
      requires With(src) && With(made) && Disjoint(src.Repr(), Owned(made))
      modifies this`cache, this`blocks, Owned(made), mem
      ensures With(src) && With(dst) && Disjoint(src.Repr(), dst.Repr()) && src.Value() == old(src.Value())
      ensures src.Repr() == old(src.Repr())
      ensures var put := if made == null then None else Some(CacheModel.PutIdIn(old(made.Value()), id));
        && dst.Value() == SlimCopy(if put.Some? then put.value else src.Value(), "", false)
        && Value() == CacheModel.Emplace(old(Value()), id, CacheModel.Entry(src.Value(), put))
      ensures Disjoint(lost, All(blocks) + src.Repr() + dst.Repr()) && (id !in old(Value()) ==> lost == {})
      ensures SameBalance(old(mem.live), old(All(blocks) + src.Repr() + Owned(made)),
                          mem.live, All(blocks) + src.Repr() + dst.Repr() + lost)
      ensures fresh(All(blocks) + dst.Repr() - old(All(blocks) + Owned(made)))
    {
      hide Message.Valid, Message.Value, Message.Repr, Owns, EntriesVal, All, SlimCopy, CacheModel.Emplace;
      hide CacheModel.PutIdIn;
      SelfOutside();
      Outside(src);
      if made != null { Outside(made); }
      ghost var s0 := All(blocks) + Owned(made);
      LabelMade(src, made, id);
      ghost var s1 := All(blocks) + Owned(made);
      label L1:
      dst, lost := Keep(id, src, made);
      ghost var s2 := All(blocks) + dst.Repr();
      forall x | x in s2 && x !in s0 ensures !old(allocated(x)) {
        if x !in s1 { assert !old@L1(allocated(x)); }
      }
    }

    /** The caller's message with a new ID, through the engine. */
    method CallLabelled(engine: CacheModel.Engine, src: Message)
        returns (id: string, status: Status, made: Message?)
      requires With(src) && nextId < LLONG_MAX
      modifies this`nextId, src.Repr(), mem
      ensures With(src) && With(made) && Disjoint(src.Repr(), Owned(made))
      ensures Value() == old(Value()) && nextId == old(nextId) + 1 && id == Id(idRange, old(nextId))
      ensures var given := CacheModel.PutIdIn(old(src.Value()), id);
        CacheModel.IdOf(given) == id && engine(given) == CacheModel.Reply(status, src.Value(), ValueOf(made))
      ensures SameBalance(old(mem.live), old(All(blocks) + src.Repr()),
                          mem.live, All(blocks) + src.Repr() + Owned(made))
      ensures fresh(src.Repr() + Owned(made) - old(src.Repr()))
    {
      hide Message.Valid, Message.Value, Message.Repr, Owns, EntriesVal, All, CacheModel.PutIdIn, CacheModel.IdOf, Id;
      id := Id(idRange, nextId);
      CacheModel.PutIsFound(src.Value(), id);
      Outside(src);
      PutId(src, id);
      SelfOutside();
      Outside(src);
      nextId := nextId + 1;
      var given: Msg;
      status, made, given := CallOut(engine, src);
    }

    /** `encrypt_message_with_full_input` and `encrypt_message_for_self_with_full_input`. What the
        engine makes on an error is lost. */
    method FullInput(engine: CacheModel.Engine, src: Message)
        returns (result: CacheModel.Result, dst: Message?, ghost lost: set<object>, ghost made: Message?)
      requires With(src) && nextId < LLONG_MAX
      modifies this, src.Repr(), mem
      ensures With(src) && With(dst) && Disjoint(src.Repr(), Owned(dst))
      ensures var (s, out) := CacheModel.StepFullInput(old(State()), old(src.Value()), engine);
        && State() == s && result == out.result
        && out.handle == Some(src.Value()) && out.dst == ValueOf(dst)
      ensures Disjoint(lost, All(blocks) + src.Repr() + Owned(dst))
      ensures result in {CacheModel.Returned(Ok), CacheModel.Returned(Unencrypted)}
        ==> (lost != {} ==> Id(idRange, old(nextId)) in old(Value()))
      ensures result !in {CacheModel.Returned(Ok), CacheModel.Returned(Unencrypted)}
        ==> lost == Owned(made) && (made != null ==> made.Valid())
            && ValueOf(made) == engine(CacheModel.PutIdIn(old(src.Value()), Id(idRange, old(nextId)))).dst
      ensures SameBalance(old(mem.live), old(All(blocks) + src.Repr()),
                          mem.live, All(blocks) + src.Repr() + Owned(dst) + lost)
      ensures fresh(All(blocks) + src.Repr() + Owned(dst) - old(All(blocks) + src.Repr()))
    {
      hide Message.Valid, Message.Value, Message.Repr, Owns, EntriesVal, All, SlimCopy, Id;
      hide CacheModel.PutIdIn, CacheModel.Emplace, CacheModel.IdOf;
      Outside(src);
      ghost var s0 := All(blocks) + src.Repr();
      var id, status, m := CallLabelled(engine, src);
      made := m;
      result := CacheModel.Returned(status);
      if status != Ok && status != Unencrypted {
        return result, null, Owned(made), made;
      }
      SelfOutside();
      if m != null { Outside(m); }
      ghost var s1 := All(blocks) + src.Repr() + Owned(m);
      label L1:
      dst, lost := LabelAndKeep(id, src, m);
      ghost var s2 := All(blocks) + src.Repr() + Owned(dst);
      forall x | x in s2 && x !in s0 ensures !old(allocated(x)) {
        if x !in s1 { assert !old@L1(allocated(x)); }
      }
    }
  }
}
