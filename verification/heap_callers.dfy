/** The message cache with its callers: besides the entries there are the messages callers hold, before,
    during and after their calls. */
module HeapCallers {
  import opened Common
  import opened Messages
  import opened CacheIds
  import opened HeapLists
  import opened HeapMessages
  import opened HeapEngine
  import opened HeapEntries
  import opened HeapStore
  import opened HeapPool
  import opened HeapCache
  import CacheModel

  class Callers {
    const c: MessageCache
    var pool: Pool
    ghost var own: Holdings
    // blocks the code has let go of without freeing them
    ghost var lost: set<object>

    /** Every live block belongs to one entry of the cache, or to one message in the slots `p`, or to one
        of two more messages, or is lost; none belongs to two of these. */
    ghost predicate Around(p: Pool, b: Holdings, x: Message?, y: Message?)
      reads this, c, All(c.blocks), All(b), c.mem, x, Owned(x), y, Owned(y)
    {
      && c.Valid() && (x != null ==> x.Valid()) && (y != null ==> y.Valid())
      && Holds(p, b)
      && Accounted(c.mem.live, All(c.blocks), Owned(x), Owned(y), All(b), lost)
    }

    ghost predicate Valid()
      reads this, c, All(c.blocks), All(own), c.mem
    {
      Around(pool, own, null, null)
    }

    ghost function Held(): map<nat, Msg>
      requires Holds(pool, own)
      reads this, All(own)
    {
      PoolVal(pool, own)
    }

    constructor (c: MessageCache)
      requires c.With(null) && c.mem.live == All(c.blocks)
      ensures Valid() && this.c == c && Held() == map[] && lost == {}
      ensures pool == map[] && All(own) == {}
    {
      this.c := c;
      pool, own, lost := map[], map[], {};
      new;
      NoneHeld();
    }

    lemma Apart(m: Message)
      requires m.Valid()
      ensures (this as object) !in m.Repr() && (c as object) !in m.Repr() && (c.mem as object) !in m.Repr()
      ensures m in m.Repr()
    {
    }

    lemma PoolApart(p: Pool, b: Holdings)
      requires Holds(p, b)
      ensures (this as object) !in All(b) && (c as object) !in All(b) && (c.mem as object) !in All(b)
    {
      hide Message.Valid;
      forall k | k in b
        ensures (this as object) !in b[k] && (c as object) !in b[k] && (c.mem as object) !in b[k]
      {
        OneHeld(p, b, k);
        Apart(p[k]);
      }
    }

    lemma CacheApart()
      requires c.Valid()
      ensures (this as object) !in All(c.blocks) && (c as object) !in All(c.blocks)
      ensures (c.mem as object) !in All(c.blocks)
    {
      hide Message.Valid;
      c.SelfOutside();
      forall id | id in c.blocks ensures (this as object) !in c.blocks[id] {
        OneEntry(c.cache, c.blocks, id);
        Apart(c.cache[id].src);
        if c.cache[id].dst != null { Apart(c.cache[id].dst); }
      }
    }

    /** The message in a slot, or null. */
    function Slot(k: nat): Message?
      reads this
    {
      if k in pool then pool[k] else null
    }

    lemma InSlot(k: nat)
      requires Valid()
      ensures k in pool <==> k in Held()
      ensures k in pool ==> pool[k].Valid() && Held()[k] == pool[k].Value()
    {
      hide Message.Valid, Message.Value;
      if k in pool { OneHeld(pool, own, k); }
    }

    /** The ID a caller reads from its message. */
    method IdAt(k: nat) returns (id: string)
      requires Valid() && k in pool
      ensures Valid() && c.State() == old(c.State()) && Held() == old(Held())
      ensures k in Held() && id == CacheModel.IdOf(Held()[k])
    {
      hide Message.Valid, Message.Value, Message.Repr, Owns, EntriesVal, Accounted, Holds, PoolVal;
      InSlot(k);
      id := CacheIdOf(pool[k]);
    }

    /** A message about to be passed to a call, and the slots around it. */
    lemma TakeOut(p: Pool, b: Holdings, k: nat, x: Message?)
      requires Around(p, b, x, null)
      ensures var m := if k in p then p[k] else null;
        && Around(p - {k}, b - {k}, m, x) && Around(p - {k}, b - {k}, x, m)
        && PoolVal(p - {k}, b - {k}) == PoolVal(p, b) - {k}
        && ValueOf(m) == Get(PoolVal(p, b), k)
        && (k in p <==> k in b) && (k in b ==> b[k] == Owned(m))
        && All(b) == All(b - {k}) + Owned(m)
    {
      hide Message.Valid, Message.Value, Message.Repr, Owns, EntriesVal, All, Accounted, Others;
      if k in p {
        Leaves(p, b, k);
        PickAccounts(c.mem.live, All(c.blocks), Owned(x), p[k].Repr(), All(b), All(b - {k}), lost);
      } else {
        EmptySlot(p, b, k);
        assert All(b) + {} == All(b);
        PickAccounts(c.mem.live, All(c.blocks), Owned(x), {}, All(b), All(b), lost);
      }
    }

    /** And back, or to a slot that is free. */
    lemma PutIn(p: Pool, b: Holdings, k: nat, m: Message?, y: Message?)
      requires Around(p, b, m, y) && k !in p
      ensures var p', b' := if m == null then p else p[k := m], if m == null then b else b[k := m.Repr()];
        && Around(p', b', y, null)
        && PoolVal(p', b') == Put(PoolVal(p, b), k, ValueOf(m))
        && All(b') == All(b) + Owned(m)
    {
      hide Message.Valid, Message.Value, Message.Repr, Owns, EntriesVal, All, Accounted, Others;
      PutAccounts(c.mem.live, All(c.blocks), Owned(m), Owned(y), All(b), lost);
      if m != null {
        OwnsItself(m);
        Joins(p, b, k, m);
      } else {
        EmptySlot(p, b, k);
        assert All(b) + {} == All(b);
      }
    }

    /** After a call: the caller's message has other blocks now, and the result goes to a free slot. */
    method Settle(of: nat, m: Message?, to: nat, dst: Message?)
      requires Around(pool - {of}, own - {of}, m, dst) && to !in pool && of != to && m == Slot(of)
      modifies this`pool, this`own
      ensures Valid() && c.State() == old(c.State()) && c.blocks == old(c.blocks)
      ensures Held() == Put(Put(old(PoolVal(pool - {of}, own - {of})), of, old(ValueOf(m))), to, old(ValueOf(dst)))
      ensures All(own) == old(All(own - {of}) + Owned(m) + Owned(dst))
      ensures pool == if dst == null then old(pool) else old(pool)[to := dst]
    {
      hide Message.Valid, Message.Value, Message.Repr, Owns, EntriesVal, All, Accounted, Holds, PoolVal, Put;
      ghost var p, b := pool - {of}, own - {of};
      PutIn(p, b, of, m, dst);
      assert of in pool ==> pool == p[of := pool[of]];
      assert of !in pool ==> p == pool;
      ghost var b1 := if m == null then b else b[of := m.Repr()];
      PutIn(pool, b1, to, dst, null);
      ghost var b2 := if dst == null then b1 else b1[to := dst.Repr()];
      var p2 := if dst == null then pool else pool[to := dst];
      PoolApart(p2, b2);
      CacheApart();
      pool, own := p2, b2;
    }

    // ----- the calls, with the message out of the slots `p` -----

    method EncryptOut(m: Message, engine: CacheModel.Engine, ghost p: Pool, ghost b: Holdings)
        returns (result: CacheModel.Result, dst: Message?)
      requires Around(p, b, m, null)
      modifies c`cache, c`blocks, All(c.blocks), m.Repr(), c.mem
      ensures Around(p, b, m, dst) && PoolVal(p, b) == old(PoolVal(p, b))
      ensures var (s, out) := CacheModel.StepEncrypt(old(c.State()), old(m.Value()), engine);
        c.State() == s && result == out.result && out.handle == Some(m.Value()) && out.dst == ValueOf(dst)
      ensures fresh(All(c.blocks) + m.Repr() + Owned(dst) - old(All(c.blocks) + m.Repr()))
    {
      hide Message.Valid, Message.Value, Message.Repr, Owns, EntriesVal, All, Accounted, Holds, PoolVal;
      hide CacheModel.StepEncrypt;
      PoolApart(p, b);
      CacheApart();
      Apart(m);
      ghost var live, a, h := c.mem.live, All(c.blocks), m.Repr();
      AccountedApart(live, a, h, {}, All(b), lost);
      result, dst := c.Encrypt(engine, m);
      StepKeeps(live, a, h, All(b), lost, c.mem.live, All(c.blocks), m.Repr(), Owned(dst));
    }

    method DecryptOut(m: Message?, engine: CacheModel.Engine, full: bool, ghost p: Pool, ghost b: Holdings)
        returns (result: CacheModel.Result, dst: Message?)
      requires Around(p, b, m, null)
      modifies c`cache, c`blocks, All(c.blocks), Owned(m), c.mem
      ensures Around(p, b, m, dst) && PoolVal(p, b) == old(PoolVal(p, b))
      ensures var (s, out) := CacheModel.StepDecrypt(old(c.State()), old(ValueOf(m)), engine, full);
        c.State() == s && result == out.result && out.handle == ValueOf(m) && out.dst == ValueOf(dst)
      ensures fresh(All(c.blocks) + Owned(m) + Owned(dst) - old(All(c.blocks) + Owned(m)))
    {
      hide Message.Valid, Message.Value, Message.Repr, Owns, EntriesVal, All, Accounted, Holds, PoolVal;
      hide CacheModel.StepDecrypt;
      PoolApart(p, b);
      CacheApart();
      if m != null { Apart(m); }
      ghost var live, a, h := c.mem.live, All(c.blocks), Owned(m);
      AccountedApart(live, a, h, {}, All(b), lost);
      result, dst := c.Decrypt(engine, m, full);
      StepKeeps(live, a, h, All(b), lost, c.mem.live, All(c.blocks), Owned(m), Owned(dst));
    }

    method EncodeOut(one: int, m: Message?, encoder: CacheModel.Encoder, ghost p: Pool, ghost b: Holdings)
        returns (result: CacheModel.Result)
      requires Around(p, b, m, null)
      modifies this`lost, c`cache, c`blocks, All(c.blocks), c.mem
      ensures Around(p, b, m, null) && PoolVal(p, b) == old(PoolVal(p, b))
      ensures ValueOf(m) == old(ValueOf(m)) && Owned(m) == old(Owned(m))
      ensures var (s, out) := CacheModel.StepEncode(old(c.State()), one, old(ValueOf(m)), encoder);
        c.State() == s && result == out.result
      ensures result.Returned? ==> lost == old(lost)
      ensures fresh(All(c.blocks) - old(All(c.blocks)))
    {
      hide Message.Valid, Message.Value, Message.Repr, Owns, EntriesVal, All, Accounted, Holds, PoolVal;
      hide CacheModel.StepEncode;
      PoolApart(p, b);
      CacheApart();
      if m != null { Apart(m); }
      ghost var live, a, h, more := c.mem.live, All(c.blocks), Owned(m), {};
      AccountedApart(live, a, h, {}, All(b), lost);
      result, more := c.MimeEncode(one, m, encoder);
      StepLoses(live, a, h, All(b), lost, c.mem.live, All(c.blocks), Owned(m), more);
      LoseMore(p, b, m, null, more);
    }

    method FullInputOut(m: Message, engine: CacheModel.Engine, ghost p: Pool, ghost b: Holdings)
        returns (result: CacheModel.Result, dst: Message?)
      requires Around(p, b, m, null) && c.nextId < LLONG_MAX
      modifies this`lost, c, m.Repr(), c.mem
      ensures Around(p, b, m, dst) && PoolVal(p, b) == old(PoolVal(p, b))
      ensures var (s, out) := CacheModel.StepFullInput(old(c.State()), old(m.Value()), engine);
        c.State() == s && result == out.result && out.handle == Some(m.Value()) && out.dst == ValueOf(dst)
      ensures lost == old(lost) || Id(c.idRange, old(c.nextId)) in old(c.Value())
        || result !in {CacheModel.Returned(Ok), CacheModel.Returned(Unencrypted)}
      ensures fresh(All(c.blocks) + m.Repr() + Owned(dst) - old(All(c.blocks) + m.Repr()))
    {
      hide Message.Valid, Message.Value, Message.Repr, Owns, EntriesVal, All, Accounted, Holds, PoolVal;
      hide CacheModel.StepFullInput, Id;
      PoolApart(p, b);
      CacheApart();
      Apart(m);
      ghost var live, a, h, more, made := c.mem.live, All(c.blocks), m.Repr(), {}, null;
      AccountedApart(live, a, h, {}, All(b), lost);
      result, dst, more, made := c.FullInput(engine, m);
      StepAccounts(live, a, h, All(b), lost, c.mem.live, All(c.blocks), m.Repr(), Owned(dst), more);
      LoseMore(p, b, m, dst, more);
    }

    method DecodeOut(status: Status, parsed: Msg, ghost p: Pool, ghost b: Holdings)
        returns (result: CacheModel.Result, dst: Message?)
      requires Around(p, b, null, null) && c.nextId < LLONG_MAX
      modifies this`lost, c, c.mem
      ensures Around(p, b, null, dst) && PoolVal(p, b) == old(PoolVal(p, b))
      ensures var (s, out) := CacheModel.StepDecode(old(c.State()), status, parsed);
        c.State() == s && result == out.result && out.dst == ValueOf(dst)
      ensures lost == old(lost) || Id(c.idRange, old(c.nextId)) in old(c.Value())
      ensures fresh(All(c.blocks) + Owned(dst) - old(All(c.blocks)))
    {
      hide Message.Valid, Message.Value, Message.Repr, Owns, EntriesVal, All, Accounted, Holds, PoolVal;
      hide CacheModel.StepDecode, Id;
      PoolApart(p, b);
      CacheApart();
      ghost var live, a, more := c.mem.live, All(c.blocks), {};
      AccountedApart(live, a, {}, {}, All(b), lost);
      result, dst, more := c.MimeDecode(status, parsed);
      NothingTaken(live, a, c.mem.live, All(c.blocks), Owned(dst), more);
      StepAccounts(live, a, {}, All(b), lost, c.mem.live, All(c.blocks), {}, Owned(dst), more);
      LoseMore(p, b, null, dst, more);
    }

    method ReleaseOut(id: string, m: Message?, ghost p: Pool, ghost b: Holdings)
      requires Around(p, b, m, null)
      modifies c`cache, c`blocks, c.mem
      ensures Around(p, b, m, null) && PoolVal(p, b) == old(PoolVal(p, b)) && ValueOf(m) == old(ValueOf(m))
      ensures c.State() == old(c.State()).(cache := CacheModel.Erase(old(c.Value()), id))
      ensures All(c.blocks) <= old(All(c.blocks))
    {
      hide Message.Valid, Message.Value, Message.Repr, Owns, EntriesVal, All, Accounted, Holds, PoolVal;
      PoolApart(p, b);
      CacheApart();
      if m != null { Apart(m); }
      ghost var live, a := c.mem.live, All(c.blocks);
      AccountedApart(live, a, Owned(m), {}, All(b), lost);
      c.Release(id);
      Beside(Owned(m), live, a, c.mem.live, All(c.blocks));
      assert All(c.blocks) + Owned(m) + {} == All(c.blocks) + Owned(m);
      StepKeeps(live, a, Owned(m), All(b), lost, c.mem.live, All(c.blocks), Owned(m), {});
    }

    /** Blocks nobody has. */
    ghost method LoseMore(p: Pool, b: Holdings, m: Message?, d: Message?, more: set<object>)
      requires c.Valid() && (m != null ==> m.Valid()) && (d != null ==> d.Valid()) && Holds(p, b)
      requires Accounted(c.mem.live, All(c.blocks), Owned(m), Owned(d), All(b), lost + more)
      modifies this`lost
      ensures Around(p, b, m, d) && PoolVal(p, b) == old(PoolVal(p, b)) && c.State() == old(c.State())
      ensures ValueOf(m) == old(ValueOf(m)) && ValueOf(d) == old(ValueOf(d)) && Owned(m) == old(Owned(m))
      ensures Owned(d) == old(Owned(d)) && lost == old(lost) + more
    {
      hide Message.Valid, Message.Value, Message.Repr, Owns, EntriesVal, All, Accounted, Holds, PoolVal;
      PoolApart(p, b);
      CacheApart();
      if m != null { Apart(m); }
      if d != null { Apart(d); }
      lost := lost + more;
    }

    // ----- the calls on slots -----

    /** encrypt_message or encrypt_message_for_self on a message that is held. */
    method Encrypt(of: nat, engine: CacheModel.Engine, to: nat) returns (result: CacheModel.Result)
      requires Valid() && of in pool && to !in pool
      modifies this`pool, this`own, c`cache, c`blocks, All(c.blocks), All(own), c.mem
      ensures Valid() && of in old(Held())
      ensures var (s, out) := CacheModel.StepEncrypt(old(c.State()), old(Held())[of], engine);
        && c.State() == s && result == out.result
        && Held() == Put(Put(old(Held()) - {of}, of, out.handle), to, out.dst)
      ensures pool.Keys <= old(pool).Keys + {to}
      ensures lost == old(lost)
      ensures fresh(All(c.blocks) + All(own) - old(All(c.blocks) + All(own)))
    {
      hide Message.Valid, Message.Value, Message.Repr, Owns, EntriesVal, All, Accounted, Holds, PoolVal;
      hide CacheModel.StepEncrypt, Put;
      PoolApart(pool, own);
      CacheApart();
      var m := pool[of];
      TakeOut(pool, own, of, null);
      var dst: Message?;
      result, dst := EncryptOut(m, engine, pool - {of}, own - {of});
      Settle(of, m, to, dst);
    }

    /** `decrypt_message` on a message that is held, or on null. */
    method Decrypt(of: nat, engine: CacheModel.Engine, full: bool, to: nat) returns (result: CacheModel.Result)
      requires Valid() && of != to && to !in pool
      modifies this`pool, this`own, c`cache, c`blocks, All(c.blocks), All(own), c.mem
      ensures Valid()
      ensures var (s, out) := CacheModel.StepDecrypt(old(c.State()), Get(old(Held()), of), engine, full);
        && c.State() == s && result == out.result
        && Held() == Put(Put(old(Held()) - {of}, of, out.handle), to, out.dst)
      ensures pool.Keys <= old(pool).Keys + {to}
      ensures lost == old(lost)
      ensures fresh(All(c.blocks) + All(own) - old(All(c.blocks) + All(own)))
    {
      hide Message.Valid, Message.Value, Message.Repr, Owns, EntriesVal, All, Accounted, Holds, PoolVal;
      hide CacheModel.StepDecrypt, Put;
      PoolApart(pool, own);
      CacheApart();
      var m := Slot(of);
      TakeOut(pool, own, of, null);
      var dst: Message?;
      result, dst := DecryptOut(m, engine, full, pool - {of}, own - {of});
      Settle(of, m, to, dst);
    }

    /** encrypt_message_with_full_input or encrypt_message_for_self_with_full_input. */
    method FullInput(of: nat, engine: CacheModel.Engine, to: nat) returns (result: CacheModel.Result)
      requires Valid() && c.nextId < LLONG_MAX && of in pool && to !in pool
      modifies this, c, All(own), c.mem
      ensures Valid() && of in old(Held())
      ensures var (s, out) := CacheModel.StepFullInput(old(c.State()), old(Held())[of], engine);
        && c.State() == s && result == out.result
        && Held() == Put(Put(old(Held()) - {of}, of, out.handle), to, out.dst)
      ensures lost == old(lost) || Id(c.idRange, old(c.nextId)) in old(c.Value())
        || result !in {CacheModel.Returned(Ok), CacheModel.Returned(Unencrypted)}
      ensures pool.Keys <= old(pool).Keys + {to}
      ensures fresh(All(c.blocks) + All(own) - old(All(c.blocks) + All(own)))
    {
      hide Message.Valid, Message.Value, Message.Repr, Owns, EntriesVal, All, Accounted, Holds, PoolVal;
      hide CacheModel.StepFullInput, Put, Id;
      PoolApart(pool, own);
      CacheApart();
      var m := pool[of];
      TakeOut(pool, own, of, null);
      var dst: Message?;
      result, dst := FullInputOut(m, engine, pool - {of}, own - {of});
      Settle(of, m, to, dst);
    }

    /** `mime_encode_message`; the message stays as it is. */
    method MimeEncode(one: int, of: nat, encoder: CacheModel.Encoder) returns (result: CacheModel.Result)
      requires Valid()
      modifies this`lost, c`cache, c`blocks, All(c.blocks), c.mem
      ensures Valid() && Held() == old(Held()) && pool == old(pool)
      ensures var (s, out) := CacheModel.StepEncode(old(c.State()), one, Get(old(Held()), of), encoder);
        c.State() == s && result == out.result
      ensures result.Returned? ==> lost == old(lost)
      ensures fresh(All(c.blocks) + All(own) - old(All(c.blocks) + All(own)))
    {
      hide Message.Valid, Message.Value, Message.Repr, Owns, EntriesVal, All, Accounted, Holds, PoolVal;
      hide CacheModel.StepEncode;
      PoolApart(pool, own);
      CacheApart();
      var m := Slot(of);
      TakeOut(pool, own, of, null);
      result := EncodeOut(one, m, encoder, pool - {of}, own - {of});
      StillThere(of);
      PutBackSame(old(Held()), of);
    }

    /** A message that was taken out only to be looked at. */
    lemma StillThere(k: nat)
      requires Around(pool - {k}, own - {k}, Slot(k), null)
      requires if k in pool then k in own && own[k] == pool[k].Repr() else k !in own
      ensures Valid() && Held() == Put(PoolVal(pool - {k}, own - {k}), k, ValueOf(Slot(k)))
    {
      hide Message.Valid, Message.Value, Message.Repr, Owns, EntriesVal, All, Accounted, Holds, PoolVal;
      PutIn(pool - {k}, own - {k}, k, Slot(k), null);
      if k in pool {
        assert (pool - {k})[k := pool[k]] == pool && (own - {k})[k := own[k]] == own;
      } else {
        assert pool - {k} == pool && own - {k} == own;
      }
    }

    /** `mime_decode_message`. */
    method MimeDecode(status: Status, parsed: Msg, to: nat) returns (result: CacheModel.Result)
      requires Valid() && c.nextId < LLONG_MAX && to !in pool
      modifies this, c, c.mem
      ensures Valid()
      ensures var (s, out) := CacheModel.StepDecode(old(c.State()), status, parsed);
        && c.State() == s && result == out.result && Held() == Put(old(Held()), to, out.dst)
      ensures lost == old(lost) || Id(c.idRange, old(c.nextId)) in old(c.Value())
      ensures pool.Keys <= old(pool).Keys + {to}
      ensures fresh(All(c.blocks) + All(own) - old(All(c.blocks) + All(own)))
    {
      hide Message.Valid, Message.Value, Message.Repr, Owns, EntriesVal, All, Accounted, Holds, PoolVal;
      hide CacheModel.StepDecode, Put, Id;
      PoolApart(pool, own);
      CacheApart();
      var dst: Message?;
      result, dst := DecodeOut(status, parsed, pool, own);
      Receive(to, dst);
    }

    /** A message goes to a free slot. */
    method Receive(to: nat, m: Message?)
      requires Around(pool, own, null, m) && to !in pool
      modifies this`pool, this`own
      ensures Valid() && c.State() == old(c.State()) && c.blocks == old(c.blocks)
      ensures Held() == Put(old(Held()), to, old(ValueOf(m)))
      ensures All(own) == old(All(own) + Owned(m))
      ensures pool == if m == null then old(pool) else old(pool)[to := m]
    {
      hide Message.Valid, Message.Value, Message.Repr, Owns, EntriesVal, All, Accounted, Holds, PoolVal;
      hide Put;
      SwapOut(m);
      PutIn(pool, own, to, m, null);
      ghost var b := if m == null then own else own[to := m.Repr()];
      var p := if m == null then pool else pool[to := m];
      PoolApart(p, b);
      CacheApart();
      pool, own := p, b;
    }

    lemma SwapOut(m: Message?)
      requires Around(pool, own, null, m)
      ensures Around(pool, own, m, null)
    {
    }

    method Release(id: string)
      requires Valid()
      modifies c`cache, c`blocks, c.mem
      ensures Valid() && Held() == old(Held())
      ensures c.State() == old(c.State()).(cache := CacheModel.Erase(old(c.Value()), id))
      ensures All(c.blocks) <= old(All(c.blocks)) && pool == old(pool) && own == old(own) && lost == old(lost)
    {
      PoolApart(pool, own);
      CacheApart();
      ReleaseOut(id, null, pool, own);
    }

    // ----- what callers do with their messages -----

    /** A message of the caller's own making. */
    method Write(v: Msg, to: nat)
      requires Valid() && to !in pool
      modifies this`pool, this`own, c.mem
      ensures Valid() && c.State() == old(c.State()) && c.blocks == old(c.blocks)
      ensures Held() == old(Held())[to := v] && lost == old(lost)
      ensures pool.Keys <= old(pool).Keys + {to}
      ensures fresh(All(c.blocks) + All(own) - old(All(c.blocks) + All(own)))
    {
      hide Message.Valid, Message.Value, Message.Repr, Owns, EntriesVal, All, Accounted, Holds, PoolVal;
      PoolApart(pool, own);
      CacheApart();
      ghost var live, a := c.mem.live, All(c.blocks);
      AccountedApart(live, a, {}, {}, All(own), lost);
      var m := BuildMessage(v, c.mem);
      BuildAccounts(live, a, {}, All(own), lost, m.Repr());
      Receive(to, m);
    }

    /** The caller changes a message it holds. */
    method Edit(of: nat, edit: Msg -> Msg)
      requires Valid() && of in pool
      modifies this`own, All(own), c.mem
      ensures Valid() && c.State() == old(c.State()) && c.blocks == old(c.blocks)
      ensures of in old(Held()) && Held() == old(Held())[of := edit(old(Held())[of])]
      ensures pool == old(pool) && lost == old(lost)
      ensures fresh(All(c.blocks) + All(own) - old(All(c.blocks) + All(own)))
    {
      hide Message.Valid, Message.Value, Message.Repr, Owns, EntriesVal, All, Accounted, Holds, PoolVal;
      hide Put;
      PoolApart(pool, own);
      CacheApart();
      var m := pool[of];
      TakeOut(pool, own, of, null);
      PoolApart(pool - {of}, own - {of});
      Apart(m);
      ghost var live, a, h, o := c.mem.live, All(c.blocks), m.Repr(), All(own - {of});
      AccountedApart(live, a, h, {}, o, lost);
      var v := ReadMessage(m);
      Rewrite(m, edit(v), c.mem);
      EditAccounts(live, a, h, o, lost, c.mem.live, m.Repr());
      Resettle(of, m);
      PutBackValue(old(Held()), of, edit(v));
    }

    method Resettle(of: nat, m: Message)
      requires Around(pool - {of}, own - {of}, m, null) && of in pool && m == pool[of]
      modifies this`own
      ensures Valid() && c.State() == old(c.State()) && c.blocks == old(c.blocks)
      ensures Held() == Put(old(PoolVal(pool - {of}, own - {of})), of, Some(old(m.Value())))
      ensures All(own) == old(All(own - {of}) + m.Repr())
    {
      hide Message.Valid, Message.Value, Message.Repr, Owns, EntriesVal, All, Accounted, Holds, PoolVal;
      hide Put;
      PutIn(pool - {of}, own - {of}, of, m, null);
      assert (pool - {of})[of := pool[of]] == pool;
      ghost var b := (own - {of})[of := m.Repr()];
      PoolApart(pool, b);
      CacheApart();
      own := b;
    }

    /** The caller frees a message. */
    method Drop(of: nat)
      requires Valid() && of in pool
      modifies this`pool, this`own, c.mem
      ensures Valid() && c.State() == old(c.State()) && c.blocks == old(c.blocks)
      ensures Held() == old(Held()) - {of} && pool == old(pool) - {of}
      ensures All(own) <= old(All(own)) && lost == old(lost)
    {
      hide Message.Valid, Message.Value, Message.Repr, Owns, EntriesVal, All, Accounted, Holds, PoolVal;
      PoolApart(pool, own);
      CacheApart();
      var m := pool[of];
      TakeOut(pool, own, of, null);
      PoolApart(pool - {of}, own - {of});
      Apart(m);
      ghost var live, a, h, o := c.mem.live, All(c.blocks), m.Repr(), All(own - {of});
      AccountedApart(live, a, h, {}, o, lost);
      FreeMessage(m, c.mem);
      DropAccounts(live, a, h, {}, o, lost);
      pool, own := pool - {of}, own - {of};
    }

    // ----- the parts of calls, on slots -----

    /** The first lock section of encrypting and decrypting. */
    method TakeAt(k: nat, id: string)
      requires Valid() && k in pool && id in c.cache
      modifies this`own, c`blocks, All(c.blocks), All(own), c.mem
      ensures Valid() && k in old(Held()) && id in old(c.Value()) && pool == old(pool)
      ensures var (cache, full) := CacheModel.Take(old(c.Value()), id, old(Held())[k]);
        c.State() == old(c.State()).(cache := cache) && Held() == old(Held())[k := full]
      ensures fresh(All(c.blocks) + All(own) - old(All(c.blocks) + All(own)))
      ensures lost == old(lost)
    {
      hide Message.Valid, Message.Value, Message.Repr, Owns, EntriesVal, All, Accounted, Holds, PoolVal;
      hide CacheModel.Take, Put;
      LookUp(c.cache, c.blocks, id);
      PoolApart(pool, own);
      CacheApart();
      var m := pool[k];
      TakeOut(pool, own, k, null);
      PoolApart(pool - {k}, own - {k});
      Apart(m);
      ghost var live, a, h, o := c.mem.live, All(c.blocks), m.Repr(), All(own - {k});
      AccountedApart(live, a, h, {}, o, lost);
      c.Take(id, m);
      NoOther(All(c.blocks), m.Repr());
      StepKeeps(live, a, h, o, lost, c.mem.live, All(c.blocks), m.Repr(), {});
      PutBackValue(old(Held()), k, m.Value());
      Resettle(k, m);
    }

    /** The second lock section, of decrypting with full output. */
    method GiveBackAt(k: nat, id: string)
      requires Valid() && k in pool && id in c.cache
      modifies this`own, c`blocks, All(c.blocks), All(own), c.mem
      ensures Valid() && k in old(Held()) && id in old(c.Value()) && pool == old(pool)
      ensures var (cache, slim) := CacheModel.GiveBack(old(c.Value()), id, old(Held())[k]);
        c.State() == old(c.State()).(cache := cache) && Held() == old(Held())[k := slim]
      ensures fresh(All(c.blocks) + All(own) - old(All(c.blocks) + All(own)))
      ensures lost == old(lost)
    {
      hide Message.Valid, Message.Value, Message.Repr, Owns, EntriesVal, All, Accounted, Holds, PoolVal;
      hide CacheModel.GiveBack, Put;
      LookUp(c.cache, c.blocks, id);
      PoolApart(pool, own);
      CacheApart();
      var m := pool[k];
      TakeOut(pool, own, k, null);
      PoolApart(pool - {k}, own - {k});
      Apart(m);
      ghost var live, a, h, o := c.mem.live, All(c.blocks), m.Repr(), All(own - {k});
      AccountedApart(live, a, h, {}, o, lost);
      c.GiveBack(id, m);
      NoOther(All(c.blocks), m.Repr());
      StepKeeps(live, a, h, o, lost, c.mem.live, All(c.blocks), m.Repr(), {});
      PutBackValue(old(Held()), k, m.Value());
      Resettle(k, m);
    }

    /** The lock section of encoding, on the slim copy. */
    method TakeWhichAt(one: int, k: nat, id: string)
      requires Valid() && k in pool && id in c.cache && (one == CacheModel.MSG_DST ==> c.cache[id].dst != null)
      modifies this`own, c`blocks, All(c.blocks), All(own), c.mem
      ensures Valid() && k in old(Held()) && id in old(c.Value()) && pool == old(pool)
      ensures one == CacheModel.MSG_DST ==> old(c.Value())[id].dst.Some?
      ensures var (cache, full) :=
          if one == CacheModel.MSG_DST then CacheModel.TakeDst(old(c.Value()), id, old(Held())[k])
          else CacheModel.Take(old(c.Value()), id, old(Held())[k]);
        c.State() == old(c.State()).(cache := cache) && Held() == old(Held())[k := full]
      ensures fresh(All(c.blocks) + All(own) - old(All(c.blocks) + All(own)))
      ensures lost == old(lost)
    {
      hide Message.Valid, Message.Value, Message.Repr, Owns, EntriesVal, All, Accounted, Holds, PoolVal;
      hide CacheModel.Take, CacheModel.TakeDst, Put;
      LookUp(c.cache, c.blocks, id);
      PoolApart(pool, own);
      CacheApart();
      var m := pool[k];
      TakeOut(pool, own, k, null);
      PoolApart(pool - {k}, own - {k});
      Apart(m);
      ghost var live, a, h, o := c.mem.live, All(c.blocks), m.Repr(), All(own - {k});
      AccountedApart(live, a, h, {}, o, lost);
      c.TakeWhich(one, id, m);
      NoOther(All(c.blocks), m.Repr());
      StepKeeps(live, a, h, o, lost, c.mem.live, All(c.blocks), m.Repr(), {});
      PutBackValue(old(Held()), k, m.Value());
      Resettle(k, m);
    }

    /** correctAttachmentsOrder. */
    method ReorderAt(k: nat)
      requires Valid() && k in pool
      modifies this`own, All(own)
      ensures Valid() && k in old(Held()) && pool == old(pool)
      ensures c.State() == old(c.State()) && c.blocks == old(c.blocks)
      ensures Held() == old(Held())[k := Reordered(old(Held())[k])] && All(own) == old(All(own))
      ensures fresh(All(c.blocks) + All(own) - old(All(c.blocks) + All(own)))
      ensures lost == old(lost)
    {
      hide Message.Valid, Message.Value, Message.Repr, Owns, EntriesVal, All, Accounted, Holds, PoolVal;
      hide Put, Reordered;
      PoolApart(pool, own);
      CacheApart();
      var m := pool[k];
      TakeOut(pool, own, k, null);
      PoolApart(pool - {k}, own - {k});
      Apart(m);
      AccountedApart(c.mem.live, All(c.blocks), m.Repr(), {}, All(own - {k}), lost);
      c.Reorder(m);
      PutBackValue(old(Held()), k, m.Value());
      Resettle(k, m);
    }

    /** The engine call; what the engine makes goes to a free slot. */
    method EngineAt(engine: CacheModel.Engine, k: nat, to: nat) returns (status: Status, given: Msg)
      requires Valid() && k in pool && to !in pool
      modifies this`pool, this`own, All(own), c.mem
      ensures Valid() && k in old(Held())
      ensures c.State() == old(c.State()) && c.blocks == old(c.blocks)
      ensures given == old(Held())[k]
      ensures var reply := engine(given);
        && status == reply.status && Held() == Put(old(Held())[k := reply.src], to, reply.dst)
        && pool.Keys == old(pool).Keys + (if reply.dst.Some? then {to} else {})
      ensures fresh(All(c.blocks) + All(own) - old(All(c.blocks) + All(own)))
      ensures lost == old(lost)
    {
      hide Message.Valid, Message.Value, Message.Repr, Owns, EntriesVal, All, Accounted, Holds, PoolVal;
      hide Put;
      PoolApart(pool, own);
      CacheApart();
      var m := pool[k];
      TakeOut(pool, own, k, null);
      PoolApart(pool - {k}, own - {k});
      Apart(m);
      ghost var live, a, h, o := c.mem.live, All(c.blocks), m.Repr(), All(own - {k});
      AccountedApart(live, a, h, {}, o, lost);
      var dst: Message?;
      status, dst, given := c.CallOut(engine, m);
      StepKeeps(live, a, h, o, lost, c.mem.live, All(c.blocks), m.Repr(), Owned(dst));
      PutBackValue(old(Held()), k, m.Value());
      Settle(k, m, to, dst);
    }

    /** A slim copy of what is in a slot, or null of nothing, goes to a free one. */
    method CopyAt(k: nat, id: string, full: bool, to: nat)
      requires Valid() && k != to && to !in pool
      modifies this`pool, this`own, c.mem
      ensures Valid() && c.State() == old(c.State()) && c.blocks == old(c.blocks)
      ensures Held() == Put(old(Held()), to, SlimCopyOpt(Get(old(Held()), k), id, full))
      ensures pool.Keys == old(pool).Keys + (if k in old(pool) then {to} else {})
      ensures fresh(All(c.blocks) + All(own) - old(All(c.blocks) + All(own)))
      ensures lost == old(lost)
    {
      hide Message.Valid, Message.Value, Message.Repr, Owns, EntriesVal, All, Accounted, Holds, PoolVal;
      hide Put, SlimCopy;
      PoolApart(pool, own);
      CacheApart();
      var m := Slot(k);
      TakeOut(pool, own, k, null);
      PoolApart(pool - {k}, own - {k});
      if m != null { Apart(m); }
      ghost var live, a, h, o := c.mem.live, All(c.blocks), Owned(m), All(own - {k});
      AccountedApart(live, a, h, {}, o, lost);
      var dst := c.CopyOut(m, id, full);
      BuildAccounts(live, a, h, o, lost, Owned(dst));
      PutBackSame(old(Held()), k);
      Settle(k, m, to, dst);
    }

    /** The encoder gets the copy without the ID, which is freed then. */
    method EncodeAt(encoder: CacheModel.Encoder, k: nat) returns (status: Status, given: Msg)
      requires Valid() && k in pool
      modifies this`pool, this`own, All(own), c.mem
      ensures Valid() && k in old(Held()) && pool == old(pool) - {k}
      ensures c.State() == old(c.State()) && c.blocks == old(c.blocks)
      ensures given == CacheModel.RemoveIdFrom(old(Held())[k]) && status == encoder(given)
      ensures Held() == old(Held()) - {k}
      ensures fresh(All(c.blocks) + All(own) - old(All(c.blocks) + All(own)))
      ensures lost == old(lost)
    {
      hide Message.Valid, Message.Value, Message.Repr, Owns, EntriesVal, All, Accounted, Holds, PoolVal;
      hide CacheModel.RemoveIdFrom;
      PoolApart(pool, own);
      CacheApart();
      var m := pool[k];
      TakeOut(pool, own, k, null);
      PoolApart(pool - {k}, own - {k});
      Apart(m);
      ghost var live, a, h, o := c.mem.live, All(c.blocks), m.Repr(), All(own - {k});
      AccountedApart(live, a, h, {}, o, lost);
      status, given := EncodeAndFree(encoder, m, c.mem);
      DropAccounts(live, a, h, {}, o, lost);
      pool, own := pool - {k}, own - {k};
    }

    /** The second lock section; the engine's result becomes the entry's destination. */
    method SecondAt(k: nat, made: nat, id: string)
      requires Valid() && k in pool && k != made && id in c.cache
      modifies this`pool, this`own, c`cache, c`blocks, All(c.blocks), All(own), c.mem
      ensures Valid() && k in old(Held()) && id in old(c.Value()) && pool == old(pool) - {made}
      ensures var (back, slim) := CacheModel.GiveBack(old(c.Value()), id, old(Held())[k]);
        && c.State() == old(c.State()).(cache := CacheModel.SetDst(back, id, Get(old(Held()), made)))
        && Held() == (old(Held()) - {made})[k := slim]
      ensures fresh(All(c.blocks) + All(own) - old(All(c.blocks) + All(own)))
      ensures lost == old(lost)
    {
      hide Message.Valid, Message.Value, Message.Repr, Owns, EntriesVal, All, Accounted, Holds, PoolVal;
      hide CacheModel.GiveBack, CacheModel.SetDst, Put;
      LookUp(c.cache, c.blocks, id);
      PoolApart(pool, own);
      CacheApart();
      var m, full := pool[k], Slot(made);
      ghost var p1, b1 := pool - {k}, own - {k};
      TakeOut(pool, own, k, null);
      TakeOut(p1, b1, made, m);
      ghost var p2, b2 := p1 - {made}, b1 - {made};
      PoolApart(p2, b2);
      Apart(m);
      if full != null { Apart(full); }
      ghost var live, a, h, f, o := c.mem.live, All(c.blocks), m.Repr(), Owned(full), All(b2);
      AccountedApart(live, a, h, f, o, lost);
      c.SecondSection(id, m, full);
      UseAccounts(live, a, h, f, o, lost, c.mem.live, All(c.blocks), m.Repr());
      OtherWayRound(old(Held()), k, made, m.Value());
      assert pool - {k} - {made} == p2 && own - {k} - {made} == b2;
      UseUp(k, made, m);
    }

    method UseUp(k: nat, made: nat, m: Message)
      requires Around(pool - {k} - {made}, own - {k} - {made}, m, null) && k in pool && m == pool[k] && k != made
      modifies this`pool, this`own
      ensures Valid() && c.State() == old(c.State()) && c.blocks == old(c.blocks) && pool == old(pool) - {made}
      ensures Held() == Put(old(PoolVal(pool - {k} - {made}, own - {k} - {made})), k, Some(old(m.Value())))
      ensures All(own) == old(All(own - {k} - {made}) + m.Repr())
    {
      hide Message.Valid, Message.Value, Message.Repr, Owns, EntriesVal, All, Accounted, Holds, PoolVal;
      hide Put;
      PutIn(pool - {k} - {made}, own - {k} - {made}, k, m, null);
      assert (pool - {k} - {made})[k := pool[k]] == pool - {made};
      ghost var b := (own - {k} - {made})[k := m.Repr()];
      PoolApart(pool - {made}, b);
      CacheApart();
      pool, own := pool - {made}, b;
    }

    /** The code drops its pointer to a message without freeing it. */
    method LoseAt(k: nat)
      requires Valid() && k in pool
      modifies this`pool, this`own, this`lost
      ensures Valid() && Held() == old(Held()) - {k} && pool == old(pool) - {k}
      ensures c.State() == old(c.State()) && c.blocks == old(c.blocks)
      ensures lost == old(lost) + old(pool[k].Repr()) && All(own) <= old(All(own))
    {
      hide Message.Valid, Message.Value, Message.Repr, Owns, EntriesVal, All, Accounted, Holds, PoolVal;
      PoolApart(pool, own);
      CacheApart();
      var m := pool[k];
      TakeOut(pool, own, k, null);
      PoolApart(pool - {k}, own - {k});
      Apart(m);
      LoseAccounts(c.mem.live, All(c.blocks), m.Repr(), All(own - {k}), lost);
      pool, own, lost := pool - {k}, own - {k}, lost + m.Repr();
    }

    /** The lock section of encoding as it ends: on a taken content, or with the copy lost or freed. */
    method TakeOrNot(one: int, k: nat, id: string) returns (end: Option<CacheModel.Result>)
      requires Valid() && k in pool
      modifies this, c`blocks, All(c.blocks), All(own), c.mem
      ensures Valid() && k in old(Held()) && pool == if end.Some? then old(pool) - {k} else old(pool)
      ensures end == if id !in old(c.Value()) then Some(CacheModel.Thrown)
        else if one == CacheModel.MSG_DST && old(c.Value())[id].dst.None? then Some(CacheModel.Returned(IllegalValue))
        else None
      ensures end.Some? ==> c.State() == old(c.State()) && Held() == old(Held()) - {k}
      ensures end.None? ==>
        var (cache, full) := if one == CacheModel.MSG_DST then CacheModel.TakeDst(old(c.Value()), id, old(Held())[k])
                             else CacheModel.Take(old(c.Value()), id, old(Held())[k]);
        c.State() == old(c.State()).(cache := cache) && Held() == old(Held())[k := full]
      ensures lost == old(lost) || end == Some(CacheModel.Thrown)
      ensures fresh(All(c.blocks) + All(own) - old(All(c.blocks) + All(own)))
    {
      hide Message.Valid, Message.Value, Message.Repr, Owns, EntriesVal, All, Accounted, Holds, PoolVal;
      hide CacheModel.Take, CacheModel.TakeDst;
      InSlot(k);
      LookUp(c.cache, c.blocks, id);
      if id !in c.cache {
        LoseAt(k);
        end := Some(CacheModel.Thrown);
      } else if one == CacheModel.MSG_DST && c.cache[id].dst == null {
        Drop(k);
        end := Some(CacheModel.Returned(IllegalValue));
      } else {
        TakeWhichAt(one, k, id);
        end := None;
      }
    }

    /** The slim copy that is to be encoded, and the lock section. */
    method CopyAndTake(one: int, k: nat, part: nat, id: string) returns (end: Option<CacheModel.Result>)
      requires Valid() && k in pool && part !in pool
      modifies this, c`blocks, All(c.blocks), All(own), c.mem
      ensures Valid() && k in old(Held()) && pool.Keys == old(pool).Keys + (if end.Some? then {} else {part})
      ensures end == if id !in old(c.Value()) then Some(CacheModel.Thrown)
        else if one == CacheModel.MSG_DST && old(c.Value())[id].dst.None? then Some(CacheModel.Returned(IllegalValue))
        else None
      ensures end.Some? ==> c.State() == old(c.State()) && Held() == old(Held())
      ensures end.None? ==>
        var copy := SlimCopy(old(Held())[k], "", false);
        var (cache, full) := if one == CacheModel.MSG_DST then CacheModel.TakeDst(old(c.Value()), id, copy)
                             else CacheModel.Take(old(c.Value()), id, copy);
        c.State() == old(c.State()).(cache := cache) && Held() == old(Held())[part := full]
      ensures lost == old(lost) || end == Some(CacheModel.Thrown)
      ensures fresh(All(c.blocks) + All(own) - old(All(c.blocks) + All(own)))
    {
      hide Message.Valid, Message.Value, Message.Repr, Owns, EntriesVal, All, Accounted, Holds, PoolVal;
      hide CacheModel.Take, CacheModel.TakeDst, SlimCopy;
      InSlot(k);
      InSlot(part);
      ghost var s0 := All(c.blocks) + All(own);
      CopyAt(k, "", false, part);
      InSlot(part);
      ghost var s1 := All(c.blocks) + All(own);
      label L1:
      end := TakeOrNot(one, part, id);
      ghost var s2 := All(c.blocks) + All(own);
      forall x | x in s2 && x !in s0 ensures !old(allocated(x)) {
        if x !in s1 { assert !old@L1(allocated(x)); }
      }
    }

    /** The engine call of decrypting and encrypting, and the slim copy of its result. */
    method AnswerAt(engine: CacheModel.Engine, k: nat, id: string, full: bool, made: nat, to: nat)
        returns (status: Status, given: Msg)
      requires Valid() && k in pool && made !in pool && to !in pool && made != to
      modifies this`pool, this`own, All(own), c.mem
      ensures Valid() && k in old(Held())
      ensures c.State() == old(c.State()) && c.blocks == old(c.blocks) && lost == old(lost)
      ensures given == old(Held())[k]
      ensures var reply := engine(given);
        && status == reply.status
        && Held() == Put(Put(old(Held())[k := reply.src], made, reply.dst), to, SlimCopyOpt(reply.dst, id, full))
        && pool.Keys == old(pool).Keys + (if reply.dst.Some? then {made, to} else {})
      ensures fresh(All(c.blocks) + All(own) - old(All(c.blocks) + All(own)))
    {
      hide Message.Valid, Message.Value, Message.Repr, Owns, EntriesVal, All, Accounted, Holds, PoolVal;
      hide SlimCopy;
      InSlot(k);
      InSlot(made);
      InSlot(to);
      ghost var s0 := All(c.blocks) + All(own);
      status, given := EngineAt(engine, k, made);
      InSlot(made);
      ghost var s1 := All(c.blocks) + All(own);
      label L1:
      CopyAt(made, id, full, to);
      ghost var s2 := All(c.blocks) + All(own);
      forall x | x in s2 && x !in s0 ensures !old(allocated(x)) {
        if x !in s1 { assert !old@L1(allocated(x)); }
      }
    }

    /** The attachments put in order, and that. */
    method ReorderAndAnswerAt(engine: CacheModel.Engine, k: nat, id: string, full: bool, made: nat, to: nat)
        returns (status: Status, given: Msg)
      requires Valid() && k in pool && made !in pool && to !in pool && made != to
      modifies this`pool, this`own, All(own), c.mem
      ensures Valid() && k in old(Held())
      ensures c.State() == old(c.State()) && c.blocks == old(c.blocks) && lost == old(lost)
      ensures given == Reordered(old(Held())[k])
      ensures var reply := engine(given);
        && status == reply.status
        && Held() == Put(Put(old(Held())[k := reply.src], made, reply.dst), to, SlimCopyOpt(reply.dst, id, full))
        && pool.Keys == old(pool).Keys + (if reply.dst.Some? then {made, to} else {})
      ensures fresh(All(c.blocks) + All(own) - old(All(c.blocks) + All(own)))
    {
      hide Message.Valid, Message.Value, Message.Repr, Owns, EntriesVal, All, Accounted, Holds, PoolVal;
      hide SlimCopyOpt, Put, Reordered;
      InSlot(k);
      ghost var s0 := All(c.blocks) + All(own);
      ReorderAt(k);
      ghost var s1 := All(c.blocks) + All(own);
      label L1:
      status, given := AnswerAt(engine, k, id, full, made, to);
      ghost var s2 := All(c.blocks) + All(own);
      forall x | x in s2 && x !in s0 ensures !old(allocated(x)) {
        if x !in s1 { assert !old@L1(allocated(x)); }
      }
      SetTwice(old(Held()), k, given, engine(given).src);
    }

    /** The same where the engine's result goes to the caller as it is. */
    method ReorderAndCallAt(engine: CacheModel.Engine, k: nat, to: nat) returns (status: Status, given: Msg)
      requires Valid() && k in pool && to !in pool
      modifies this`pool, this`own, All(own), c.mem
      ensures Valid() && k in old(Held())
      ensures c.State() == old(c.State()) && c.blocks == old(c.blocks) && lost == old(lost)
      ensures given == Reordered(old(Held())[k])
      ensures var reply := engine(given);
        && status == reply.status && Held() == Put(old(Held())[k := reply.src], to, reply.dst)
        && pool.Keys == old(pool).Keys + (if reply.dst.Some? then {to} else {})
      ensures fresh(All(c.blocks) + All(own) - old(All(c.blocks) + All(own)))
    {
      hide Message.Valid, Message.Value, Message.Repr, Owns, EntriesVal, All, Accounted, Holds, PoolVal;
      hide Put, Reordered;
      InSlot(k);
      ghost var s0 := All(c.blocks) + All(own);
      ReorderAt(k);
      ghost var s1 := All(c.blocks) + All(own);
      label L1:
      status, given := EngineAt(engine, k, to);
      ghost var s2 := All(c.blocks) + All(own);
      forall x | x in s2 && x !in s0 ensures !old(allocated(x)) {
        if x !in s1 { assert !old@L1(allocated(x)); }
      }
      SetTwice(old(Held()), k, given, engine(given).src);
    }
  }
}
