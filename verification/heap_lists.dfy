/** The C heap under the message cache: which blocks are allocated, and the linked lists in it
    (stringpair_list_t, bloblist_t, message_ref_list). */
module HeapLists {
  /** The allocator. A block may be freed only while it is live, so nothing is freed twice. */
  class Memory {
    ghost var live: set<object>

    constructor ()
      ensures live == {}
    {
      live := {};
    }

    ghost method Alloc(x: object)
      requires x !in live
      modifies this
      ensures live == old(live) + {x}
    {
      live := live + {x};
    }

    method Free(ghost x: object)
      requires x in live
      modifies this
      ensures live == old(live) - {x}
    {
      live := live - {x};
    }
  }

  /** A string in a block of its own. */
  class Text {
    const text: string

    constructor (text: string)
      ensures this.text == text
    {
      this.text := text;
    }
  }

  class Node<T> {
    var value: T
    var next: Node?<T>

    constructor (value: T, next: Node?<T>)
      ensures this.value == value && this.next == next
    {
      this.value := value;
      this.next := next;
    }
  }

  /** `nodes` are the nodes of the list at `head`, in order. */
  ghost predicate Chain<T>(head: Node?<T>, nodes: seq<Node<T>>)
    reads nodes
  {
    && head == NodeAt(nodes, 0)
    && (forall i :: 0 <= i < |nodes| ==> nodes[i].next == NodeAt(nodes, i + 1))
    && (forall i, j :: 0 <= i < j < |nodes| ==> nodes[i] != nodes[j])
  }

  ghost function NodeAt<T>(nodes: seq<Node<T>>, i: nat): Node?<T> {
    if i < |nodes| then nodes[i] else null
  }

  ghost function Values<T>(nodes: seq<Node<T>>): (r: seq<T>)
    reads nodes
    ensures |r| == |nodes|
    ensures forall i :: 0 <= i < |nodes| ==> r[i] == nodes[i].value
  {
    if nodes == [] then [] else [nodes[0].value] + Values(nodes[1..])
  }

  ghost function Blocks<T>(nodes: seq<Node<T>>): set<Node<T>> {
    set n | n in nodes
  }

  lemma BlocksSnoc<T>(nodes: seq<Node<T>>, n: Node<T>)
    ensures Blocks(nodes + [n]) == Blocks(nodes) + {n}
  {
  }

  /** Free a whole list. */
  method FreeList<T>(head: Node?<T>, ghost nodes: seq<Node<T>>, mem: Memory)
    requires Chain(head, nodes) && Blocks(nodes) <= mem.live
    modifies mem
    ensures mem.live == old(mem.live) - Blocks(nodes)
  {
    var curr := head;
    ghost var i := 0;
    while curr != null
      invariant 0 <= i <= |nodes| && curr == NodeAt(nodes, i)
      invariant mem.live == old(mem.live) - Blocks(nodes[..i])
      decreases |nodes| - i
    {
      var next := curr.next;
      assert nodes[..i + 1] == nodes[..i] + [nodes[i]];
      assert curr !in nodes[..i];
      BlocksSnoc(nodes[..i], nodes[i]);
      mem.Free(curr);
      curr := next;
      i := i + 1;
    }
    assert nodes[..i] == nodes;
  }

  /** `copy`, from `dst`, has the values of as many nodes of the original. */
  ghost predicate Copied<T>(nodes: seq<Node<T>>, dst: Node?<T>, copy: seq<Node<T>>)
    reads nodes, copy
  {
    && Chain(dst, copy) && |copy| <= |nodes|
    && forall k :: 0 <= k < |copy| ==> copy[k].value == nodes[k].value
  }

  lemma CopiedMore<T>(nodes: seq<Node<T>>, dst: Node<T>, copy: seq<Node<T>>, n: Node<T>)
    requires 0 < |copy| < |nodes| && n !in copy && dst == copy[0]
    requires n.value == nodes[|copy|].value && n.next == null && copy[|copy| - 1].next == n
    requires forall i :: 0 <= i < |copy| - 1 ==> copy[i].next == copy[i + 1]
    requires forall i, j :: 0 <= i < j < |copy| ==> copy[i] != copy[j]
    requires forall k :: 0 <= k < |copy| ==> copy[k].value == nodes[k].value
    ensures Copied(nodes, dst, copy + [n])
  {
  }

  /** Hang a copy of the next node after the last one. */
  method CopyNext<T>(ghost nodes: seq<Node<T>>, ghost dst: Node<T>, ghost copy: seq<Node<T>>, d: Node<T>, s: Node<T>,
                     mem: Memory) returns (n: Node<T>)
    requires 0 < |copy| < |nodes| && d == copy[|copy| - 1] && s == nodes[|copy|]
    requires Copied(nodes, dst, copy) && Blocks(copy) !! Blocks(nodes)
    modifies d`next, mem
    ensures fresh(n) && n !in old(mem.live) && mem.live == old(mem.live) + {n}
    ensures Copied(nodes, dst, copy + [n])
  {
    n := new Node(s.value, null);
    d.next := n;
    mem.Alloc(n);
    CopiedMore(nodes, dst, copy, n);
  }

  lemma ChainAt<T>(head: Node?<T>, nodes: seq<Node<T>>, i: nat)
    requires Chain(head, nodes) && i < |nodes|
    ensures head == nodes[0] && nodes[i].next == if i + 1 < |nodes| then nodes[i + 1] else null
  {
  }

  lemma CopiedAll<T>(nodes: seq<Node<T>>, dst: Node?<T>, copy: seq<Node<T>>)
    requires Copied(nodes, dst, copy) && |copy| == |nodes|
    ensures Chain(dst, copy) && Values(copy) == Values(nodes)
  {
  }

  lemma CopiedOne<T>(nodes: seq<Node<T>>, d: Node<T>)
    requires nodes != [] && d.value == nodes[0].value && d.next == null
    ensures Copied(nodes, d, [d])
  {
  }

  lemma CopiedNone<T>(src: Node?<T>, nodes: seq<Node<T>>)
    requires src == null && Chain(src, nodes)
    ensures nodes == [] && Chain<T>(null, []) && Values<T>([]) == Values(nodes)
  {
  }

  lemma ChainNonEmpty<T>(head: Node?<T>, nodes: seq<Node<T>>)
    requires head != null && Chain(head, nodes)
    ensures nodes != []
  {
  }

  /** A fresh list with the same values: the loop of `dup(message_ref_list)`. */
  method CopyList<T>(src: Node?<T>, ghost nodes: seq<Node<T>>, mem: Memory)
      returns (dst: Node?<T>, ghost copy: seq<Node<T>>)
    requires Chain(src, nodes)
    modifies mem
    ensures Chain(dst, copy) && fresh(Blocks(copy)) && Blocks(copy) !! old(mem.live)
    ensures Values(copy) == Values(nodes)
    ensures mem.live == old(mem.live) + Blocks(copy)
  {
    hide Chain, Copied, Values, NodeAt;
    if src == null {
      CopiedNone(src, nodes);
      return null, [];
    }
    ChainNonEmpty(src, nodes);
    ChainAt(src, nodes, 0);
    var d := new Node(src.value, null);
    dst, copy := d, [d];
    mem.Alloc(d);
    var s := src;
    CopiedOne(nodes, d);
    while s.next != null
      invariant 0 < |copy| <= |nodes| && d == copy[|copy| - 1] && s == nodes[|copy| - 1]
      invariant Copied(nodes, dst, copy) && Chain(src, nodes)
      invariant fresh(Blocks(copy)) && Blocks(copy) !! old(mem.live)
      invariant mem.live == old(mem.live) + Blocks(copy)
      decreases |nodes| - |copy|
    {
      ChainAt(src, nodes, |copy| - 1);
      s := s.next;
      assert d in Blocks(copy);
      d := CopyNext(nodes, dst, copy, d, s, mem);
      BlocksSnoc(copy, d);
      copy := copy + [d];
    }
    ChainAt(src, nodes, |copy| - 1);
    CopiedAll(nodes, dst, copy);
  }

  /** A new head in front of a fresh list. */
  method Prepend<T>(value: T, head: Node?<T>, ghost nodes: seq<Node<T>>, mem: Memory)
      returns (first: Node<T>, ghost longer: seq<Node<T>>)
    requires Chain(head, nodes)
    modifies mem
    ensures Chain(first, longer) && Values(longer) == [value] + Values(nodes)
    ensures fresh(first) && first !in old(mem.live)
    ensures Blocks(longer) == {first} + Blocks(nodes)
    ensures mem.live == old(mem.live) + {first}
  {
    first := new Node(value, head);
    mem.Alloc(first);
    longer := [first] + nodes;
    assert Blocks(longer) == {first} + Blocks(nodes);
  }

  /** A fresh list with the given values, as foreign code builds them. */
  method BuildList<T>(values: seq<T>, mem: Memory) returns (head: Node?<T>, ghost nodes: seq<Node<T>>)
    modifies mem
    ensures Chain(head, nodes) && fresh(Blocks(nodes)) && Blocks(nodes) !! old(mem.live)
    ensures Values(nodes) == values
    ensures mem.live == old(mem.live) + Blocks(nodes)
  {
    hide Blocks, Chain, Values;
    head, nodes := null, [];
    EmptyList<T>();
    for i := |values| downto 0
      invariant Chain(head, nodes) && fresh(Blocks(nodes)) && Blocks(nodes) !! old(mem.live)
      invariant Values(nodes) == values[i..]
      invariant mem.live == old(mem.live) + Blocks(nodes)
    {
      var first, longer := Prepend(values[i], head, nodes, mem);
      head, nodes := first, longer;
      assert values[i..] == [values[i]] + values[i + 1..];
    }
  }

  lemma EmptyList<T>()
    ensures Chain<T>(null, []) && Values<T>([]) == [] && Blocks<T>([]) == {}
  {
  }
}
