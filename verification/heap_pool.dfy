/** Messages that callers hold between and during calls: which blocks belong to which of them. */
module HeapPool {
  import opened Common
  import opened Messages
  import opened HeapMessages
  import opened HeapEntries
  import opened HeapStore

  /** Pointers to messages, by the slot they are held in. */
  type Pool = map<nat, Message>

  type Holdings = map<nat, set<object>>

  ghost predicate IsHeld(m: Message, b: set<object>)
    reads b
  {
    m in b && m.Repr() == b && m.Valid()
  }

  /** Every message held is valid, and no block belongs to two of them. */
  ghost predicate Holds(p: Pool, b: Holdings)
    reads All(b)
  {
    && p.Keys == b.Keys
    && Separate(b)
    && forall k :: k in p ==> (BlocksOf(b, k); IsHeld(p[k], b[k]))
  }

  ghost function PoolVal(p: Pool, b: Holdings): map<nat, Msg>
    requires Holds(p, b)
    reads All(b)
  {
    map k | k in p :: (BlocksOf(b, k); p[k].Value())
  }

  /** A slot with a message, or without one. */
  function Put(pool: map<nat, Msg>, k: nat, v: Option<Msg>): map<nat, Msg> {
    if v.None? then pool - {k} else pool[k := v.value]
  }

  function Get(pool: map<nat, Msg>, k: nat): Option<Msg> {
    if k in pool then Some(pool[k]) else None
  }

  lemma PutBackValue(pool: map<nat, Msg>, k: nat, v: Msg)
    ensures Put(pool - {k}, k, Some(v)) == pool[k := v]
  {
  }

  lemma OtherWayRound(pool: map<nat, Msg>, k: nat, other: nat, v: Msg)
    requires k != other
    ensures Put(pool - {k} - {other}, k, Some(v)) == (pool - {other})[k := v]
  {
  }

  lemma NoOther(a: set<object>, x: set<object>)
    ensures a + x + {} == a + x
  {
  }

  lemma SetTwice(pool: map<nat, Msg>, k: nat, v: Msg, w: Msg)
    ensures pool[k := v][k := w] == pool[k := w]
  {
  }

  lemma PutBackSame(pool: map<nat, Msg>, k: nat)
    ensures Put(pool - {k}, k, Get(pool, k)) == pool
  {
  }

  lemma OneHeld(p: Pool, b: Holdings, k: nat)
    requires Holds(p, b) && k in p
    ensures k in b && IsHeld(p[k], b[k]) && b[k] <= All(b)
    ensures k in PoolVal(p, b) && PoolVal(p, b)[k] == p[k].Value()
  {
    BlocksOf(b, k);
  }

  /** One message leaves the pool. */
  lemma Leaves(p: Pool, b: Holdings, k: nat)
    requires Holds(p, b) && k in p
    ensures k in b && IsHeld(p[k], b[k])
    ensures All(b) == Others(b, k) + b[k] && Disjoint(Others(b, k), b[k])
    ensures Holds(p - {k}, b - {k}) && All(b - {k}) == Others(b, k)
    ensures PoolVal(p - {k}, b - {k}) == PoolVal(p, b) - {k}
    ensures k in PoolVal(p, b) && PoolVal(p, b)[k] == p[k].Value()
  {
    hide IsHeld, Message.Value;
    OneHeld(p, b, k);
    SplitOff(b, k);
    forall x | x in p - {k} ensures IsHeld((p - {k})[x], (b - {k})[x]) { OneHeld(p, b, x); }
  }

  /** One message joins it. */
  lemma Joins(p: Pool, b: Holdings, k: nat, m: Message)
    requires Holds(p, b) && k !in p && m.Valid() && m in m.Repr() && Disjoint(All(b), m.Repr())
    ensures Holds(p[k := m], b[k := m.Repr()])
    ensures All(b[k := m.Repr()]) == All(b) + m.Repr()
    ensures PoolVal(p[k := m], b[k := m.Repr()]) == PoolVal(p, b)[k := m.Value()]
  {
    hide Message.Value, Message.Valid, Message.Repr;
    assert b - {k} == b;
    PutBack(b, k, m.Repr());
    var p', b' := p[k := m], b[k := m.Repr()];
    forall x | x in p' ensures x in b' && IsHeld(p'[x], b'[x]) {
      if x != k { OneHeld(p, b, x); }
    }
    assert p'.Keys == p.Keys + {k} && b'.Keys == b.Keys + {k};
  }

  lemma NoneHeld()
    ensures Holds(map[], map[]) && PoolVal(map[], map[]) == map[] && All<nat>(map[]) == {}
  {
  }

  lemma EmptySlot(p: Pool, b: Holdings, k: nat)
    requires Holds(p, b) && k !in p
    ensures k !in b && p - {k} == p && b - {k} == b
    ensures k !in PoolVal(p, b) && PoolVal(p, b) - {k} == PoolVal(p, b)
  {
    hide IsHeld, Message.Value, Separate;
  }

  // ----- whose the live blocks are -----

  /** Those of the cache, of two messages that are out of the pool, of the pool, and those nobody has. */
  ghost predicate Accounted(live: set<object>, a: set<object>, x: set<object>, y: set<object>, o: set<object>,
                            lost: set<object>)
  {
    && Disjoint(a, x) && Disjoint(a, y) && Disjoint(x, y) && Disjoint(o, lost)
    && Disjoint(a + x + y, o + lost)
    && live == a + x + y + (o + lost)
  }

  lemma PickAccounts(live: set<object>, a: set<object>, x: set<object>, m: set<object>, o: set<object>, o': set<object>,
                     lost: set<object>)
    requires Accounted(live, a, x, {}, o, lost) && o == o' + m && Disjoint(o', m)
    ensures Accounted(live, a, x, m, o', lost) && Accounted(live, a, m, x, o', lost)
  {
    assert a + x + m + (o' + lost) == a + x + {} + (o + lost);
    assert a + m + x == a + x + m;
  }

  lemma PutAccounts(live: set<object>, a: set<object>, m: set<object>, y: set<object>, o: set<object>,
                    lost: set<object>)
    requires Accounted(live, a, m, y, o, lost)
    ensures Disjoint(o, m) && Accounted(live, a, y, {}, o + m, lost)
  {
    assert a + m + y + (o + lost) == a + y + {} + ((o + m) + lost);
  }

  /** A step of the cache and at most one message out of the pool; the pool stays what it was. */
  lemma StepAccounts(live: set<object>, a: set<object>, x: set<object>, o: set<object>, lost: set<object>,
                     live': set<object>, a': set<object>, x': set<object>, y': set<object>, more: set<object>)
    requires Accounted(live, a, x, {}, o, lost) && SameBalance(live, a + x, live', a' + x' + y' + more)
    requires Disjoint(a', x') && Disjoint(a', y') && Disjoint(x', y') && Disjoint(more, a' + x' + y')
    ensures Accounted(live', a', x', y', o, lost + more)
  {
    var rest, now := o + lost, a' + x' + y' + more;
    assert live == (a + x) + rest;
    assert live' - now == rest;
    assert live' == now + rest && Disjoint(now, rest);
    assert now + rest == a' + x' + y' + (o + (lost + more));
  }

  lemma StepKeeps(live: set<object>, a: set<object>, x: set<object>, o: set<object>, lost: set<object>,
                  live': set<object>, a': set<object>, x': set<object>, y': set<object>)
    requires Accounted(live, a, x, {}, o, lost) && SameBalance(live, a + x, live', a' + x' + y')
    requires Disjoint(a', x') && Disjoint(a', y') && Disjoint(x', y')
    ensures Accounted(live', a', x', y', o, lost)
  {
    assert a' + x' + y' + {} == a' + x' + y' && lost + {} == lost;
    StepAccounts(live, a, x, o, lost, live', a', x', y', {});
  }

  lemma StepLoses(live: set<object>, a: set<object>, x: set<object>, o: set<object>, lost: set<object>,
                  live': set<object>, a': set<object>, x': set<object>, more: set<object>)
    requires Accounted(live, a, x, {}, o, lost) && SameBalance(live, a + x, live', a' + x' + more)
    requires Disjoint(a', x') && Disjoint(more, a' + x')
    ensures Accounted(live', a', x', {}, o, lost + more)
  {
    assert a' + x' + {} + more == a' + x' + more;
    StepAccounts(live, a, x, o, lost, live', a', x', {}, more);
  }

  lemma NothingTaken(live: set<object>, a: set<object>, live': set<object>, a': set<object>, d: set<object>,
                     more: set<object>)
    requires SameBalance(live, a, live', a' + d + more)
    ensures SameBalance(live, a + {}, live', a' + d + {} + more)
  {
    assert a + {} == a && a' + d + {} + more == a' + d + more;
  }

  /** The same with both messages given, of which the second is used up. */
  lemma UseAccounts(live: set<object>, a: set<object>, x: set<object>, y: set<object>, o: set<object>,
                    lost: set<object>,
                    live': set<object>, a': set<object>, x': set<object>)
    requires Accounted(live, a, x, y, o, lost) && SameBalance(live, a + x + y, live', a' + x') && Disjoint(a', x')
    ensures Accounted(live', a', x', {}, o, lost)
  {
    var rest, now := o + lost, a' + x';
    assert live == (a + x + y) + rest;
    assert live' - now == rest;
    assert live' == now + rest && Disjoint(now, rest);
    assert now + rest == a' + x' + {} + (o + lost);
  }

  lemma BuildAccounts(live: set<object>, a: set<object>, x: set<object>, o: set<object>, lost: set<object>,
                      d: set<object>)
    requires Accounted(live, a, x, {}, o, lost) && Disjoint(d, live)
    ensures Accounted(live + d, a, x, d, o, lost)
  {
    assert a + x + d + (o + lost) == (a + x + {} + (o + lost)) + d;
  }

  lemma EditAccounts(live: set<object>, a: set<object>, x: set<object>, o: set<object>, lost: set<object>,
                     live': set<object>, x': set<object>)
    requires Accounted(live, a, x, {}, o, lost) && x' <= live' && live' - x' == live - x
    ensures Accounted(live', a, x', {}, o, lost)
  {
    LooksOn(a, live, x, live', x', {});
    assert a + x' + {} == a + x';
    StepKeeps(live, a, x, o, lost, live', a, x', {});
  }

  lemma DropAccounts(live: set<object>, a: set<object>, x: set<object>, y: set<object>, o: set<object>,
                     lost: set<object>)
    requires Accounted(live, a, x, y, o, lost)
    ensures Accounted(live - x, a, y, {}, o, lost)
  {
    assert live - x == a + y + {} + (o + lost);
  }

  lemma LoseAccounts(live: set<object>, a: set<object>, x: set<object>, o: set<object>, lost: set<object>)
    requires Accounted(live, a, x, {}, o, lost)
    ensures Accounted(live, a, {}, {}, o, lost + x)
  {
    assert a + x + {} + (o + lost) == a + {} + {} + (o + (lost + x));
  }

  /** What is accounted for is live and apart. */
  lemma AccountedApart(live: set<object>, a: set<object>, x: set<object>, y: set<object>, o: set<object>,
                       lost: set<object>)
    requires Accounted(live, a, x, y, o, lost)
    ensures Apart(a, x, live) && Apart(a, y, live) && Disjoint(x, y)
    ensures Disjoint(o, a) && Disjoint(o, x) && Disjoint(o, y) && o <= live
  {
  }
}
