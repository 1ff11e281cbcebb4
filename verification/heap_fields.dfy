/** The cache ID in the linked list of optional fields (src/message_cache.cc). */
module HeapFields {
  import opened Common
  import opened OptFields
  import opened HeapLists

  type FieldNode = Node<Option<Pair>>

  lemma {:induction false} FindFrom(fields: Fields, i: nat)
    requires i <= |fields| && forall j :: 0 <= j < i ==> fields[j] != None && !IsId(fields[j])
    ensures i < |fields| && IsId(fields[i]) ==> FindId(fields) == i
    ensures i == |fields| || fields[i] == None ==> FindId(fields) == |fields|
  {
    FindSkips(fields[..i], fields[i..]);
    assert fields == fields[..i] + fields[i..];
    if i < |fields| { assert fields[i..][0] == fields[i]; }
  }

  /** `cacheID`: walk to the first ID. */
  method FindField(head: Node?<Option<Pair>>, ghost nodes: seq<FieldNode>) returns (cid: string)
    requires Chain(head, nodes)
    ensures cid == CacheId(Values(nodes))
  {
    var spl := head;
    ghost var i := 0;
    while spl != null && spl.value != None
      invariant 0 <= i <= |nodes| && spl == NodeAt(nodes, i)
      invariant forall j :: 0 <= j < i ==> nodes[j].value != None && !IsId(nodes[j].value)
      decreases |nodes| - i
    {
      if spl.value.value.key == Some(CACHE_ID) {
        FindFrom(Values(nodes), i);
        return if spl.value.value.value.Some? then spl.value.value.value.value else "";
      }
      spl := spl.next;
      i := i + 1;
    }
    FindFrom(Values(nodes), i);
    cid := "";
  }

  /** `putCacheID`: a new list in the place of an empty one, a new head otherwise. */
  method PutField(head: Node?<Option<Pair>>, ghost nodes: seq<FieldNode>, cid: string, mem: Memory)
      returns (first: Node<Option<Pair>>, ghost put: seq<FieldNode>)
    requires Chain(head, nodes) && Blocks(nodes) <= mem.live
    modifies mem
    ensures Chain(first, put) && Values(put) == PutId(Values(nodes), cid)
    ensures Blocks(put) <= mem.live && mem.live - Blocks(put) == old(mem.live) - Blocks(nodes)
    ensures fresh(Blocks(put) - Blocks(nodes))
  {
    if head == null || head.value == None {
      FreeList(head, nodes, mem);
      first := new Node(IdField(cid), null);
      put := [first];
    } else {
      first := new Node(IdField(cid), head);
      put := [first] + nodes;
    }
    mem.Alloc(first);
  }

  /** The list past node `i`. */
  lemma Bypassed(head: Node?<Option<Pair>>, nodes: seq<FieldNode>, i: nat)
    requires 0 < i < |nodes| && head == nodes[0]
    requires forall k :: 0 <= k < |nodes| && k != i - 1 && k != i ==> nodes[k].next == NodeAt(nodes, k + 1)
    requires nodes[i - 1].next == NodeAt(nodes, i + 1)
    requires forall j, k :: 0 <= j < k < |nodes| ==> nodes[j] != nodes[k]
    ensures Chain(head, nodes[..i] + nodes[i + 1..])
  {
  }

  /** Free one node, cut off from the rest of its list. */
  method Detach(spl: FieldNode, mem: Memory)
    requires spl in mem.live
    modifies spl`next, mem
    ensures mem.live == old(mem.live) - {spl}
  {
    spl.next := null;
    BlocksOne(spl);
    FreeList(spl, [spl], mem);
  }

  /** Unlink the node at `i`, which is not the first, and free it. */
  method Unlink(ghost head: Node?<Option<Pair>>, ghost nodes: seq<FieldNode>, ghost i: nat, prev: FieldNode,
                spl: FieldNode, mem: Memory) returns (ghost left: seq<FieldNode>)
    requires Chain(head, nodes) && spl in mem.live
    requires 0 < i < |nodes| && prev == nodes[i - 1] && spl == nodes[i]
    modifies prev`next, spl`next, mem
    ensures left == nodes[..i] + nodes[i + 1..] && Chain(head, left)
    ensures Values(left) == old(Values(nodes[..i] + nodes[i + 1..]))
    ensures mem.live == old(mem.live) - {spl}
  {
    hide Values, Blocks;
    var next := spl.next;
    left := nodes[..i] + nodes[i + 1..];
    Detach(spl, mem);
    prev.next := next;
    Bypassed(head, nodes, i);
  }

  /** The list without the first ID, when that is node `i`. */
  lemma Without(nodes: seq<FieldNode>, i: nat)
    requires i < |nodes| && IsId(nodes[i].value)
    requires forall j :: 0 <= j < i ==> nodes[j].value != None && !IsId(nodes[j].value)
    requires forall j, k :: 0 <= j < k < |nodes| ==> nodes[j] != nodes[k]
    ensures var left := nodes[..i] + nodes[i + 1..];
      && Values(left) == RemoveId(Values(nodes))
      && Blocks(left) == Blocks(nodes) - {nodes[i]}
      && nodes[i] in Blocks(nodes)
  {
    hide Values, Blocks;
    FindFrom(Values(nodes), i);
    ValuesWithout(nodes, i);
    BlocksWithout(nodes, i);
  }

  lemma ValuesWithout(nodes: seq<FieldNode>, i: nat)
    requires i < |nodes|
    ensures Values(nodes[..i] + nodes[i + 1..]) == Values(nodes)[..i] + Values(nodes)[i + 1..]
  {
    hide Values;
    var left := nodes[..i] + nodes[i + 1..];
    forall k | 0 <= k < |left| ensures Values(left)[k] == (Values(nodes)[..i] + Values(nodes)[i + 1..])[k] {
      assert left[k] == if k < i then nodes[k] else nodes[k + 1];
    }
  }

  lemma BlocksWithout(nodes: seq<FieldNode>, i: nat)
    requires i < |nodes| && forall j, k :: 0 <= j < k < |nodes| ==> nodes[j] != nodes[k]
    ensures Blocks(nodes[..i] + nodes[i + 1..]) == Blocks(nodes) - {nodes[i]} && nodes[i] in Blocks(nodes)
  {
    var left := nodes[..i] + nodes[i + 1..];
    forall n | n in nodes && n != nodes[i] ensures n in left {
      var k :| 0 <= k < |nodes| && nodes[k] == n;
      assert left[if k < i then k else k - 1] == n;
    }
    forall k | 0 <= k < |left| ensures left[k] in nodes && left[k] != nodes[i] {
      assert left[k] == if k < i then nodes[k] else nodes[k + 1];
    }
  }

  lemma NoIdToRemove(nodes: seq<FieldNode>, i: nat)
    requires i <= |nodes| && (i == |nodes| || nodes[i].value == None)
    requires forall j :: 0 <= j < i ==> nodes[j].value != None && !IsId(nodes[j].value)
    ensures RemoveId(Values(nodes)) == Values(nodes)
  {
    FindFrom(Values(nodes), i);
  }

  /** The first branch of `removeCacheID`: the ID is the first element. */
  method RemoveFirst(head: Node<Option<Pair>>, ghost nodes: seq<FieldNode>, mem: Memory)
      returns (first: Node?<Option<Pair>>, ghost left: seq<FieldNode>)
    requires Chain(head, nodes) && Blocks(nodes) <= mem.live && IsId(head.value)
    modifies head`next, mem
    ensures Chain(first, left) && Values(left) == RemoveId(old(Values(nodes)))
    ensures Blocks(left) <= Blocks(nodes) && Blocks(left) <= mem.live
    ensures mem.live - Blocks(left) == old(mem.live) - Blocks(nodes)
  {
    hide Values, RemoveId, Blocks, Chain;
    SplitFirst(head, nodes);
    first, left := head.next, nodes[1..];
    Detach(head, mem);
  }

  /** The list without its first node, when that is an ID. */
  lemma SplitFirst(head: Node<Option<Pair>>, nodes: seq<FieldNode>)
    requires Chain(head, nodes) && IsId(head.value)
    ensures nodes != [] && head == nodes[0] && head !in nodes[1..] && Chain(head.next, nodes[1..])
    ensures Values(nodes[1..]) == RemoveId(Values(nodes))
    ensures Blocks(nodes[1..]) == Blocks(nodes) - {head} && head in Blocks(nodes)
  {
    hide Values, RemoveId, Blocks, Chain;
    ChainTail(head, nodes);
    Without(nodes, 0);
    assert nodes[1..] == nodes[..0] + nodes[0 + 1..];
  }

  lemma ChainTail(head: Node<Option<Pair>>, nodes: seq<FieldNode>)
    requires Chain(head, nodes)
    ensures nodes != [] && head == nodes[0] && head !in nodes[1..] && Chain(head.next, nodes[1..])
    ensures forall i, j :: 0 <= i < j < |nodes| ==> nodes[i] != nodes[j]
  {
    var rest := nodes[1..];
    forall i | 0 <= i < |rest| ensures rest[i] != head && rest[i].next == NodeAt(rest, i + 1) {
      assert rest[i] == nodes[i + 1];
    }
  }

  lemma BlocksOne(n: FieldNode)
    ensures Blocks([n]) == {n}
  {
  }

  /** The second branch: go through the list. The predecessor is there when it is needed. */
  method RemoveLater(head: Node?<Option<Pair>>, ghost nodes: seq<FieldNode>, mem: Memory)
      returns (ghost left: seq<FieldNode>)
    requires Chain(head, nodes) && Blocks(nodes) <= mem.live && (head != null ==> !IsId(head.value))
    modifies nodes, mem
    ensures Chain(head, left) && Values(left) == RemoveId(old(Values(nodes)))
    ensures Blocks(left) <= Blocks(nodes) && Blocks(left) <= mem.live
    ensures mem.live - Blocks(left) == old(mem.live) - Blocks(nodes)
  {
    hide Values, RemoveId, Blocks;
    var prev: Node?<Option<Pair>> := null;
    var spl := head;
    ghost var i := 0;
    while spl != null && spl.value != None
      invariant 0 <= i <= |nodes| && spl == NodeAt(nodes, i)
      invariant i > 0 ==> prev == nodes[i - 1]
      invariant forall j :: 0 <= j < i ==> nodes[j].value != None && !IsId(nodes[j].value)
      decreases |nodes| - i
    {
      if spl.value.value.key == Some(CACHE_ID) {
        Without(nodes, i);
        left := Unlink(head, nodes, i, prev, spl, mem);
        return;
      }
      prev := spl;
      spl := spl.next;
      i := i + 1;
    }
    NoIdToRemove(nodes, i);
    left := nodes;
  }

  /** `removeCacheID`: take the first ID out of the list, wherever it is. */
  method RemoveField(head: Node?<Option<Pair>>, ghost nodes: seq<FieldNode>, mem: Memory)
      returns (first: Node?<Option<Pair>>, ghost left: seq<FieldNode>)
    requires Chain(head, nodes) && Blocks(nodes) <= mem.live
    modifies nodes, mem
    ensures Chain(first, left) && Values(left) == RemoveId(old(Values(nodes)))
    ensures Blocks(left) <= Blocks(nodes) && Blocks(left) <= mem.live
    ensures mem.live - Blocks(left) == old(mem.live) - Blocks(nodes)
  {
    if head != null && head.value != None && head.value.value.key == Some(CACHE_ID) {
      first, left := RemoveFirst(head, nodes, mem);
    } else {
      left := RemoveLater(head, nodes, mem);
      first := head;
    }
  }
}
