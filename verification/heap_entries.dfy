/** One entry of the message cache in the heap, and the moves of content between it and a caller's
    message (src/message_cache.cc). */
module HeapEntries {
  import opened Common
  import opened Messages
  import opened CacheModel
  import opened HeapLists
  import opened HeapMessages
  import opened HeapEngine

  /** The two pointers the cache keeps. */
  datatype CacheEntry = CacheEntry(src: Message, dst: Message?)

  /** The entry owns the blocks `b`: those of its source and those of its destination, apart. */
  ghost predicate EntryOk(e: CacheEntry, b: set<object>)
    reads b
  {
    && e.src in b && MessageIn(e.src, b)
    && (e.dst != null ==> e.dst in b && MessageIn(e.dst, b) && Disjoint(e.src.Repr(), e.dst.Repr()))
    && b == e.src.Repr() + Owned(e.dst)
  }

  ghost predicate MessageIn(m: Message, b: set<object>)
    requires m in b
    reads b
  {
    m.Repr() <= b && m.Valid()
  }

  ghost function EntryVal(e: CacheEntry, b: set<object>): Entry
    requires EntryOk(e, b)
    reads b
  {
    Entry(e.src.Value(), if e.dst != null then Some(e.dst.Value()) else None)
  }

  ghost function ValueOf(m: Message?): Option<Msg>
    reads m, if m == null then {} else Blocks(m.blobs), if m == null then {} else Blocks(m.refs)
    reads if m == null then {} else Blocks(m.fields)
  {
    if m == null then None else Some(m.Value())
  }

  /** Two owners, apart from each other, that own live blocks only. */
  ghost predicate Apart(a: set<object>, b: set<object>, live: set<object>) {
    Disjoint(a, b) && a <= live && b <= live
  }

  /** Between two moments the owners have kept, freed or allocated what is theirs and nothing else. */
  ghost predicate SameBalance(live: set<object>, owned: set<object>, live': set<object>, owned': set<object>) {
    owned' <= live' && live' - owned' == live - owned
  }

  /** swapContent(handle, e.src): the content of the entry's source goes to the caller's message. */
  method TakeFrom(e: CacheEntry, ghost b: set<object>, handle: Message, mem: Memory) returns (ghost b': set<object>)
    requires EntryOk(e, b) && handle.Valid() && Apart(b, handle.Repr(), mem.live)
    modifies handle, e.src, mem
    ensures EntryOk(e, b') && handle.Valid() && Apart(b', handle.Repr(), mem.live)
    ensures (handle.Value(), EntryVal(e, b').src) == SwapContent(old(handle.Value()), old(EntryVal(e, b)).src)
    ensures EntryVal(e, b').dst == old(EntryVal(e, b)).dst
    ensures SameBalance(old(mem.live), b + old(handle.Repr()), mem.live, b' + handle.Repr())
    ensures b' + handle.Repr() <= b + old(handle.Repr())
  {
    hide Message.Valid, Message.Value, Message.Repr;
    ValidOwnsSelf(handle, mem);
    ValidOwnsSelf(e.src, mem);
    if e.dst != null { ValidOwnsSelf(e.dst, mem); }
    ghost var hc, hr, sc, sr, d := handle.content, handle.rest, e.src.content, e.src.rest, Owned(e.dst);
    ghost var live := mem.live;
    SwapContentBlocks(handle, e.src, mem);
    ValidOwnsSelf(handle, mem);
    ValidOwnsSelf(e.src, mem);
    Swapped(live, hc, hr, sc, sr, d);
    b' := e.src.Repr() + Owned(e.dst);
  }

  /** The blocks around a swap: `hc` and `hr` are the caller's content and rest, `sc` and `sr` the
      entry's, `d` the other message of the entry. */
  lemma Swapped(live: set<object>, hc: set<object>, hr: set<object>, sc: set<object>, sr: set<object>, d: set<object>)
    requires Disjoint(hc, hr) && Disjoint(sc, sr) && Disjoint(sc + sr, d) && Apart(sc + sr + d, hc + hr, live)
    ensures Apart(sr + d, sc + hr, live - hc) && Disjoint(sr, d)
    ensures SameBalance(live, (sc + sr + d) + (hc + hr), live - hc, (sr + d) + (sc + hr))
  {
  }

  /** swapContent(e.src, handle): the content of the caller's message goes back to the entry. */
  method GiveBackTo(e: CacheEntry, ghost b: set<object>, handle: Message, mem: Memory) returns (ghost b': set<object>)
    requires EntryOk(e, b) && handle.Valid() && Apart(b, handle.Repr(), mem.live)
    modifies handle, e.src, mem
    ensures EntryOk(e, b') && handle.Valid() && Apart(b', handle.Repr(), mem.live)
    ensures (EntryVal(e, b').src, handle.Value()) == SwapContent(old(EntryVal(e, b)).src, old(handle.Value()))
    ensures EntryVal(e, b').dst == old(EntryVal(e, b)).dst
    ensures SameBalance(old(mem.live), b + old(handle.Repr()), mem.live, b' + handle.Repr())
    ensures b' + handle.Repr() <= b + old(handle.Repr())
  {
    hide Message.Valid, Message.Value, Message.Repr;
    ValidOwnsSelf(handle, mem);
    ValidOwnsSelf(e.src, mem);
    if e.dst != null { ValidOwnsSelf(e.dst, mem); }
    ghost var hc, hr, sc, sr, d := handle.content, handle.rest, e.src.content, e.src.rest, Owned(e.dst);
    ghost var live := mem.live;
    SwapContentBlocks(e.src, handle, mem);
    ValidOwnsSelf(handle, mem);
    ValidOwnsSelf(e.src, mem);
    SwappedBack(live, hc, hr, sc, sr, d);
    b' := e.src.Repr() + Owned(e.dst);
  }

  lemma SwappedBack(live: set<object>, hc: set<object>, hr: set<object>, sc: set<object>, sr: set<object>,
                    d: set<object>)
    requires Disjoint(hc, hr) && Disjoint(sc, sr) && Disjoint(sc + sr, d) && Apart(sc + sr + d, hc + hr, live)
    ensures Apart(hc + sr + d, hr, live - sc) && Disjoint(hc + sr, d)
    ensures SameBalance(live, (sc + sr + d) + (hc + hr), live - sc, (hc + sr + d) + hr)
  {
  }

  /** The destination of an entry is freed and replaced by a message the entry did not own. */
  method ReplaceDst(e: CacheEntry, ghost b: set<object>, dst: Message?, mem: Memory)
      returns (e': CacheEntry, ghost b': set<object>)
    requires EntryOk(e, b) && (dst != null ==> dst.Valid()) && Apart(b, Owned(dst), mem.live)
    modifies mem
    ensures e' == e.(dst := dst) && EntryOk(e', b') && b' <= mem.live
    ensures EntryVal(e', b').src == old(EntryVal(e, b)).src
    ensures EntryVal(e', b').dst == if dst != null then Some(dst.Value()) else None
    ensures SameBalance(old(mem.live), b + Owned(dst), mem.live, b')
    ensures b' <= b + Owned(dst)
  {
    hide Message.Valid, Message.Value, Message.Repr;
    ValidOwnsSelf(e.src, mem);
    if e.dst != null { ValidOwnsSelf(e.dst, mem); }
    if dst != null { ValidOwnsSelf(dst, mem); }
    FreeMessage(e.dst, mem);
    e' := e.(dst := dst);
    b' := e.src.Repr() + Owned(dst);
  }

  /** The content of the entry's destination goes to a message of the caller's. */
  method TakeFromDst(e: CacheEntry, ghost b: set<object>, handle: Message, mem: Memory) returns (ghost b': set<object>)
    requires EntryOk(e, b) && e.dst != null && handle.Valid() && Apart(b, handle.Repr(), mem.live)
    modifies handle, e.dst, mem
    ensures EntryOk(e, b') && handle.Valid() && Apart(b', handle.Repr(), mem.live)
    ensures EntryVal(e, b').dst.Some?
    ensures (handle.Value(), EntryVal(e, b').dst.value)
      == SwapContent(old(handle.Value()), old(EntryVal(e, b)).dst.value)
    ensures EntryVal(e, b').src == old(EntryVal(e, b)).src
    ensures SameBalance(old(mem.live), b + old(handle.Repr()), mem.live, b' + handle.Repr())
    ensures b' + handle.Repr() <= b + old(handle.Repr())
  {
    hide Message.Valid, Message.Value, Message.Repr;
    ValidOwnsSelf(handle, mem);
    ValidOwnsSelf(e.src, mem);
    ValidOwnsSelf(e.dst, mem);
    ghost var hc, hr, sc, sr, d := handle.content, handle.rest, e.dst.content, e.dst.rest, e.src.Repr();
    ghost var live := mem.live;
    SwapContentBlocks(handle, e.dst, mem);
    ValidOwnsSelf(handle, mem);
    ValidOwnsSelf(e.dst, mem);
    Swapped(live, hc, hr, sc, sr, d);
    b' := e.src.Repr() + e.dst.Repr();
  }

  /** An entry is released: both its messages are freed. */
  method ReleaseEntry(e: CacheEntry, ghost b: set<object>, mem: Memory)
    requires EntryOk(e, b) && b <= mem.live
    modifies mem
    ensures mem.live == old(mem.live) - b
  {
    hide Message.Valid, Message.Value, Message.Repr;
    ValidOwnsSelf(e.src, mem);
    if e.dst != null { ValidOwnsSelf(e.dst, mem); }
    FreeMessage(e.src, mem);
    FreeMessage(e.dst, mem);
  }

  /** removeCacheID, mime_encode_message and free_message on a slim copy with its content. */
  method EncodeAndFree(encoder: Encoder, part: Message, mem: Memory) returns (status: Status, given: Msg)
    requires part.Valid() && part.Repr() <= mem.live
    modifies part.Repr(), mem
    ensures given == RemoveIdFrom(old(part.Value())) && status == encoder(given)
    ensures mem.live == old(mem.live) - old(part.Repr())
  {
    hide Message.Valid, Message.Value;
    ghost var live, content, rest := mem.live, part.content, part.rest;
    ValidOwnsSelf(part, mem);
    RemoveCacheId(part, mem);
    ghost var live1, rest1 := mem.live, part.rest;
    given := ReadMessage(part);
    status := encoder(given);
    FreeMessage(part, mem);
    Gone(live, content, rest, live1, rest1);
  }

  lemma Gone(live: set<object>, content: set<object>, rest: set<object>, live1: set<object>, rest1: set<object>)
    requires live1 - rest1 == live - rest
    ensures live1 - (content + rest1) == live - (content + rest)
  {
    assert live1 - (content + rest1) == (live1 - rest1) - content;
  }
}
