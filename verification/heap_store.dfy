/** All the entries of the message cache in the heap: which blocks belong to which entry, and what
    remains of that when one entry changes (src/message_cache.cc). */
module HeapStore {
  import opened Common
  import opened CacheModel
  import opened HeapMessages
  import opened HeapEntries

  type Entries = map<string, CacheEntry>

  /** The blocks of every entry. */
  type BlockMap = map<string, set<object>>

  ghost function All<K(!new)>(b: map<K, set<object>>): set<object> {
    set id, o | id in b && o in b[id] :: o
  }

  /** No block belongs to two entries. */
  ghost predicate Separate<K(!new)>(b: map<K, set<object>>) {
    forall x, y :: x in b && y in b && x != y ==> Disjoint(b[x], b[y])
  }

  ghost predicate Owns(c: Entries, b: BlockMap)
    reads All(b)
  {
    && c.Keys == b.Keys
    && Separate(b)
    && forall id :: id in c ==> (BlocksOf(b, id); EntryOk(c[id], b[id]))
  }

  ghost function EntriesVal(c: Entries, b: BlockMap): Cache
    requires Owns(c, b)
    reads All(b)
  {
    map id | id in c :: (BlocksOf(b, id); EntryVal(c[id], b[id]))
  }

  lemma BlocksOf<K(!new)>(b: map<K, set<object>>, id: K)
    requires id in b
    ensures b[id] <= All(b)
  {
  }

  /** The blocks of all entries but one. */
  ghost function Others<K(!new)>(b: map<K, set<object>>, id: K): set<object> {
    All(b - {id})
  }

  lemma SplitOff<K(!new)>(b: map<K, set<object>>, id: K)
    requires id in b && Separate(b)
    ensures All(b) == Others(b, id) + b[id] && Disjoint(Others(b, id), b[id])
    ensures Separate(b - {id})
  {
    forall o ensures o in All(b) <==> o in Others(b, id) + b[id] {
      if o in All(b) && o !in b[id] {
        var x :| x in b && o in b[x];
        assert x in b - {id} && o in (b - {id})[x];
      }
      if o in Others(b, id) {
        var x :| x in b - {id} && o in (b - {id})[x];
        assert o in b[x];
      }
    }
    forall o | o in Others(b, id) ensures o !in b[id] {
      var x :| x in b - {id} && o in (b - {id})[x];
      assert Disjoint(b[x], b[id]);
    }
  }

  /** The map with the blocks of one entry replaced or added. */
  lemma PutBack<K(!new)>(b: map<K, set<object>>, id: K, blocks: set<object>)
    requires Separate(b - {id}) && Disjoint(Others(b, id), blocks)
    ensures Separate(b[id := blocks]) && All(b[id := blocks]) == Others(b, id) + blocks
  {
    var c := b[id := blocks];
    assert c - {id} == b - {id};
    forall x, y | x in c && y in c && x != y ensures Disjoint(c[x], c[y]) {
      if x != id { BlocksOf(b - {id}, x); }
      if y != id { BlocksOf(b - {id}, y); }
      if x != id && y != id { assert x in b - {id} && y in b - {id}; }
    }
    forall o ensures o in All(c) <==> o in Others(b, id) + blocks {
      if o in All(c) && o !in blocks {
        var x :| x in c && o in c[x];
        assert x in b - {id} && o in (b - {id})[x];
      }
      if o in Others(b, id) {
        var x :| x in b - {id} && o in (b - {id})[x];
        assert o in c[x];
      }
      if o in blocks { assert id in c && o in c[id]; }
    }
  }

  lemma OneEntry(c: Entries, b: BlockMap, id: string)
    requires Owns(c, b) && id in c
    ensures id in b && b[id] <= All(b) && EntryOk(c[id], b[id])
    ensures id in EntriesVal(c, b) && EntriesVal(c, b)[id] == EntryVal(c[id], b[id])
  {
  }

  /** All entries but one. Nothing of them changes as long as their blocks do not. */
  lemma WithoutOne(c: Entries, b: BlockMap, id: string)
    requires Owns(c, b)
    ensures Owns(c - {id}, b - {id})
    ensures EntriesVal(c - {id}, b - {id}) == EntriesVal(c, b) - {id}
  {
    hide EntryOk, EntryVal;
    forall x | x in c - {id} ensures EntryOk((c - {id})[x], (b - {id})[x]) { OneEntry(c, b, x); }
  }

  /** One entry and the rest. */
  lemma Isolate(c: Entries, b: BlockMap, id: string)
    requires Owns(c, b) && id in c
    ensures id in b && EntryOk(c[id], b[id])
    ensures c[id].src in b[id] && (c[id].dst != null ==> c[id].dst in b[id])
    ensures All(b) == Others(b, id) + b[id] && Disjoint(Others(b, id), b[id])
    ensures Owns(c - {id}, b - {id})
    ensures EntriesVal(c - {id}, b - {id}) == EntriesVal(c, b) - {id}
    ensures id in EntriesVal(c, b) && EntriesVal(c, b)[id] == EntryVal(c[id], b[id])
  {
    OneEntry(c, b, id);
    SplitOff(b, id);
    WithoutOne(c, b, id);
  }

  /** What the lookups of the cache see of its value. */
  lemma LookUp(c: Entries, b: BlockMap, id: string)
    requires Owns(c, b)
    ensures id in c <==> id in EntriesVal(c, b)
    ensures id in c ==> (c[id].dst == null <==> EntriesVal(c, b)[id].dst == None)
    ensures id in c ==> c[id].src in All(b) && (c[id].dst != null ==> c[id].dst in All(b))
  {
  }

  lemma EraseNothing(c: Cache, id: string)
    requires id !in c
    ensures c - {id} == c
  {
  }

  lemma NotThere(c: Entries, b: BlockMap, id: string)
    requires Owns(c, b) && id !in c
    ensures c - {id} == c && b - {id} == b && EntriesVal(c, b) - {id} == EntriesVal(c, b)
  {
    hide EntryOk, EntryVal;
  }

  lemma PutAgain(c: Cache, id: string, e: Entry)
    ensures (c - {id})[id := e] == c[id := e]
  {
  }

  /** One entry joins the others. */
  lemma Rejoin(c: Entries, b: BlockMap, id: string, e: CacheEntry, blocks: set<object>)
    requires Owns(c - {id}, b - {id}) && EntryOk(e, blocks) && Disjoint(Others(b, id), blocks)
    ensures Owns(c[id := e], b[id := blocks])
    ensures EntriesVal(c[id := e], b[id := blocks]) == EntriesVal(c - {id}, b - {id})[id := EntryVal(e, blocks)]
    ensures All(b[id := blocks]) == Others(b, id) + blocks
  {
    hide EntryOk, EntryVal;
    var c', b' := c[id := e], b[id := blocks];
    PutBack(b, id, blocks);
    forall x | x in c' ensures x in b' && EntryOk(c'[x], b'[x]) {
      if x != id { OneEntry(c - {id}, b - {id}, x); }
    }
    assert c'.Keys == (c - {id}).Keys + {id} && b'.Keys == (b - {id}).Keys + {id};
  }

  /** One entry and a caller's message exchange blocks or free them; the others look on. */
  lemma Balanced(others: set<object>, live: set<object>, b: set<object>, h: set<object>,
                 live': set<object>, b': set<object>, h': set<object>)
    requires Disjoint(others, b) && Apart(others + b, h, live) && Apart(b', h', live')
    requires SameBalance(live, b + h, live', b' + h') && b' + h' <= b + h
    ensures Disjoint(others, b') && Apart(others + b', h', live')
    ensures SameBalance(live, others + b + h, live', others + b' + h')
    ensures others + b' + h' <= others + b + h
  {
    OthersStay(live, live', b + h, b' + h', others);
    assert others + (b + h) == others + b + h && others + (b' + h') == others + b' + h';
  }

  /** Blocks `s` become blocks `s'` and `d'`; the owner of others looks on. */
  lemma LooksOn(others: set<object>, live: set<object>, s: set<object>, live': set<object>, s': set<object>,
                d': set<object>)
    requires Apart(others, s, live)
    requires s' <= live' && d' <= live' && live' - s' - d' == live - s
    ensures Apart(others, s', live') && Apart(others, d', live')
    ensures SameBalance(live, others + s, live', others + s' + d')
  {
    assert s' + d' <= live' && live' - (s' + d') == live - s;
    forall x | x in others ensures x in live' && x !in s' && x !in d' { assert x in live - s; }
    OthersStay(live, live', s, s' + d', others);
    assert others + (s' + d') == others + s' + d';
  }

  /** Others beside owners who only free or exchange. */
  lemma Beside(others: set<object>, live: set<object>, owned: set<object>, live': set<object>, owned': set<object>)
    requires others <= live && Disjoint(others, owned) && SameBalance(live, owned, live', owned') && owned' <= owned
    ensures others <= live' && Disjoint(others, owned')
    ensures SameBalance(live, owned + others, live', owned' + others)
  {
    OthersStay(live, live', owned, owned', others);
    assert others + owned == owned + others && others + owned' == owned' + others;
  }

  /** First the cache and the caller's message exchange blocks, then the cache takes over `f`. */
  lemma BothHalves(live: set<object>, a: set<object>, r: set<object>, f: set<object>,
                   live1: set<object>, a1: set<object>, r1: set<object>, live2: set<object>, a2: set<object>)
    requires Apart(a, r, live) && Apart(a, f, live) && Disjoint(r, f)
    requires Apart(a1, r1, live1) && SameBalance(live, a + r, live1, a1 + r1) && a1 + r1 <= a + r
    requires SameBalance(live1, a1 + f, live2, a2) && a2 <= a1 + f
    ensures Apart(a2, r1, live2) && a2 + r1 <= a + r + f
    ensures SameBalance(live, a + r + f, live2, a2 + r1)
  {
    Beside(f, live, a + r, live1, a1 + r1);
    Beside(r1, live1, a1 + f, live2, a2);
    assert a1 + r1 + f == a1 + f + r1;
  }

  /** The engine call, and the second section with the copy `d` for the caller beside it. */
  lemma AnswerAndBack(live: set<object>, a: set<object>, r: set<object>,
                      live1: set<object>, r1: set<object>, f: set<object>, d: set<object>,
                      live2: set<object>, a2: set<object>, r2: set<object>)
    requires SameBalance(live, a + r, live1, a + r1 + f + d)
    requires Disjoint(d, a + r1 + f)
    requires SameBalance(live1, a + r1 + f, live2, a2 + r2) && a2 + r2 <= a + r1 + f
    ensures d <= live2 && Disjoint(d, a2 + r2)
    ensures SameBalance(live, a + r, live2, a2 + r2 + d)
  {
    Beside(d, live1, a + r1 + f, live2, a2 + r2);
  }

  /** A message is freed; the owner of others looks on. */
  lemma FreedBeside(others: set<object>, r: set<object>, live: set<object>)
    requires Apart(others, r, live)
    ensures others <= live - r && SameBalance(live, others + r, live - r, others)
  {
  }

  /** A copy `p` is made, exchanges content with the cache, and is freed; `o` is beside all that. */
  lemma CopyUsedUp(live: set<object>, a: set<object>, o: set<object>, p: set<object>,
                   live1: set<object>, a1: set<object>, p1: set<object>, live2: set<object>, a2: set<object>)
    requires Apart(a, o, live) && Disjoint(p, live)
    requires SameBalance(live + p, a + p, live1, a1 + p1) && a1 + p1 <= a + p
    requires SameBalance(live1, a1 + p1, live2, a2) && a2 <= a1
    ensures Apart(a2, o, live2) && SameBalance(live, a + o, live2, a2 + o)
  {
    assert live + p - (a + p) == live - a;
    Beside(o, live + p, a + p, live2, a2);
    assert live + p - (a + p + o) == live - (a + o);
  }

  /** Two copies are made; one goes into the cache together with `f`, or both are lost. */
  lemma Kept(live: set<object>, a: set<object>, r: set<object>, f: set<object>, d: set<object>, c: set<object>,
             a1: set<object>, lost: set<object>)
    requires a + r + f <= live && Disjoint(d + c, live) && Disjoint(d, c)
    requires Disjoint(r, a + f) && Disjoint(lost, a1) && a1 + lost == a + (c + f)
    ensures Disjoint(a1, r) && Disjoint(a1, d) && Disjoint(lost, a1 + r + d) && a1 + r + d + lost <= live + d + c
    ensures SameBalance(live, a + r + f, live + d + c, a1 + r + d + lost)
  {
  }
}
