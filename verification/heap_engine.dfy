/** The engine as the message cache relies on it: it may rewrite the message it is given, blocks
    included, and make another, for which it may use blocks of the first; it touches no other message.
    The bodies are one such engine, which rebuilds everything; the contracts are all that is used of
    it. */
module HeapEngine {
  import opened Common
  import opened OptFields
  import opened Messages
  import opened CacheModel
  import opened HeapLists
  import opened HeapFields
  import opened HeapMessages

  method BuildParts(v: Msg, mem: Memory)
      returns (longmsg: Text?, formatted: Text?, attachments: Node?<Blob>, referedBy: Node?<int>,
               optFields: Node?<Option<Pair>>, ghost p: Parts)
    modifies mem
    ensures PartsAt(longmsg, formatted, attachments, referedBy, optFields, p)
    ensures Content(TextOf(longmsg), TextOf(formatted), Values(p.blobs)) == v.content
    ensures Values(p.refs) == v.referedBy && Values(p.fields) == v.optFields
    ensures fresh(PartBlocks(p)) && PartBlocks(p) !! old(mem.live) && mem.live == old(mem.live) + PartBlocks(p)
  {
    hide Chain, Values, Blocks;
    ghost var blobs: seq<Node<Blob>>;
    ghost var refs: seq<Node<int>>;
    ghost var fields: seq<FieldNode>;
    ghost var content: set<object>;
    longmsg, formatted, attachments, blobs, content := BuildContent(v.content, mem);
    referedBy, refs := BuildList(v.referedBy, mem);
    optFields, fields := BuildList(v.optFields, mem);
    p := Parts(content, blobs, refs, fields);
  }

  method BuildContent(c: Content, mem: Memory)
      returns (longmsg: Text?, formatted: Text?, attachments: Node?<Blob>, ghost blobs: seq<Node<Blob>>,
               ghost blocks: set<object>)
    modifies mem
    ensures ContentAt(longmsg, formatted, attachments, blobs, blocks)
    ensures Content(TextOf(longmsg), TextOf(formatted), Values(blobs)) == c
    ensures fresh(blocks) && blocks !! old(mem.live) && mem.live == old(mem.live) + blocks
  {
    hide Chain, Values, Blocks;
    longmsg := DupText(c.longmsg, mem);
    formatted := DupText(c.longmsgFormatted, mem);
    attachments, blobs := BuildList(c.attachments, mem);
    blocks := TextBlocks(longmsg) + TextBlocks(formatted) + Blocks(blobs);
  }

  method BuildMessage(v: Msg, mem: Memory) returns (m: Message)
    modifies mem
    ensures m.Valid() && m.Value() == v
    ensures fresh(m.Repr()) && m.Repr() !! old(mem.live) && mem.live == old(mem.live) + m.Repr()
  {
    hide PartsAt, Values, Blocks, Message.Valid;
    var longmsg, formatted, attachments, referedBy, optFields, p := BuildParts(v, mem);
    m := new Message.Assemble(v.header, longmsg, formatted, attachments, referedBy, optFields, p, mem);
    assert m.Repr() == PartBlocks(p) + {m};
  }

  method ReadList<T>(head: Node?<T>, ghost nodes: seq<Node<T>>) returns (values: seq<T>)
    requires Chain(head, nodes)
    ensures values == Values(nodes)
  {
    values := [];
    var curr := head;
    while curr != null
      invariant |values| <= |nodes| && curr == NodeAt(nodes, |values|)
      invariant values == Values(nodes)[..|values|]
      decreases |nodes| - |values|
    {
      values := values + [curr.value];
      curr := curr.next;
    }
  }

  method ReadMessage(m: Message) returns (v: Msg)
    requires m.Valid()
    ensures v == m.Value()
  {
    var attachments := ReadList(m.attachments, m.blobs);
    var referedBy := ReadList(m.referedBy, m.refs);
    var optFields := ReadList(m.optFields, m.fields);
    v := Msg(m.header, Content(TextOf(m.longmsg), TextOf(m.longmsgFormatted), attachments), referedBy, optFields);
  }

  /** `message_dup`: all of a message. */
  method DupMessage(m: Message, mem: Memory) returns (d: Message)
    requires m.Valid()
    modifies mem
    ensures d.Valid() && d.Value() == m.Value()
    ensures fresh(d.Repr()) && d.Repr() !! old(mem.live) && mem.live == old(mem.live) + d.Repr()
  {
    hide Message.Valid, ContentAt, RestAt;
    var v := ReadMessage(m);
    d := BuildMessage(v, mem);
  }

  /** Everything a message owns but itself is freed and made anew. */
  method Rewrite(m: Message, v: Msg, mem: Memory)
    requires m.Valid() && m.Repr() <= mem.live
    modifies m, mem
    ensures m.Valid() && m.Value() == v
    ensures m.Repr() <= mem.live && mem.live - m.Repr() == old(mem.live) - old(m.Repr())
    ensures fresh(m.Repr() - {m}) && m in m.Repr()
  {
    hide Chain, Values, Blocks, ContentAt, TextBlocks;
    FreeParts(m, mem);
    var longmsg, formatted, attachments, referedBy, optFields, p := BuildParts(v, mem);
    SetParts(m, v.header, longmsg, formatted, attachments, referedBy, optFields, p);
    Rebuilt(m, old(mem.live), old(m.Repr()), PartBlocks(p), mem.live);
  }

  lemma Rebuilt(m: Message, before: set<object>, owned: set<object>, built: set<object>, after: set<object>)
    requires owned <= before && m in owned && built !! before
    requires after == before - (owned - {m}) + built
    ensures after - (built + {m}) == before - owned && built + {m} <= after
  {
  }

  method FreeParts(m: Message, mem: Memory)
    requires m.Valid() && m.Repr() <= mem.live
    modifies mem
    ensures mem.live == old(mem.live) - (m.Repr() - {m})
  {
    FreeContent(m.longmsg, m.longmsgFormatted, m.attachments, m.blobs, m.content, mem);
    FreeList(m.referedBy, m.refs, mem);
    FreeList(m.optFields, m.fields, mem);
  }

  method SetParts(m: Message, header: Header, longmsg: Text?, formatted: Text?, attachments: Node?<Blob>,
                  referedBy: Node?<int>, optFields: Node?<Option<Pair>>, ghost p: Parts)
    requires PartsAt(longmsg, formatted, attachments, referedBy, optFields, p) && m !in PartBlocks(p)
    modifies m
    ensures m.Valid() && m.Repr() == PartBlocks(p) + {m}
    ensures m.Value() == Msg(header, Content(TextOf(longmsg), TextOf(formatted), Values(p.blobs)),
                             Values(p.refs), Values(p.fields))
  {
    hide Chain, Values, Blocks, ContentAt, RestAt;
    ghost var rest := Self(m) + Blocks(p.refs) + Blocks(p.fields);
    PartsOwned(m, longmsg, formatted, attachments, referedBy, optFields, p);
    SetMembers(m, header, longmsg, formatted, attachments, referedBy, optFields, p, rest);
  }

  method SetMembers(m: Message, header: Header, longmsg: Text?, formatted: Text?, attachments: Node?<Blob>,
                    referedBy: Node?<int>, optFields: Node?<Option<Pair>>, ghost p: Parts, ghost rest: set<object>)
    modifies m
    ensures m.header == header && m.longmsg == longmsg && m.longmsgFormatted == formatted
    ensures m.attachments == attachments && m.referedBy == referedBy && m.optFields == optFields
    ensures m.blobs == p.blobs && m.refs == p.refs && m.fields == p.fields
    ensures m.content == p.content && m.rest == rest
  {
    m.header := header;
    m.longmsg, m.longmsgFormatted, m.attachments := longmsg, formatted, attachments;
    m.referedBy, m.optFields := referedBy, optFields;
    m.blobs, m.refs, m.fields := p.blobs, p.refs, p.fields;
    m.content, m.rest := p.content, rest;
  }

  lemma PartsOwned(m: Message, longmsg: Text?, formatted: Text?, attachments: Node?<Blob>, referedBy: Node?<int>,
                   optFields: Node?<Option<Pair>>, p: Parts)
    requires PartsAt(longmsg, formatted, attachments, referedBy, optFields, p) && m !in PartBlocks(p)
    ensures var rest := Self(m) + Blocks(p.refs) + Blocks(p.fields);
      && RestAt(m, referedBy, p.refs, optFields, p.fields, rest)
      && p.content !! rest && p.content + rest == PartBlocks(p) + {m} && m in rest
      && Blocks(p.blobs) <= p.content && Blocks(p.refs) <= rest && Blocks(p.fields) <= rest
  {
  }

  /** A call into the engine with `src`. */
  method CallEngine(engine: Engine, src: Message, mem: Memory) returns (status: Status, dst: Message?, given: Msg)
    requires src.Valid() && src.Repr() <= mem.live
    modifies src.Repr(), mem
    ensures src.Valid() && given == old(src.Value())
    ensures var r := engine(old(src.Value()));
      && status == r.status && src.Value() == r.src
      && (dst == null <==> r.dst == None)
      && (dst != null ==> dst.Valid() && dst.Value() == r.dst.value)
    ensures dst != null ==> dst.Repr() !! src.Repr() && dst.Repr() <= mem.live
    ensures src.Repr() <= mem.live && fresh(src.Repr() + Owned(dst) - old(src.Repr()))
    ensures mem.live - src.Repr() - Owned(dst) == old(mem.live) - old(src.Repr())
  {
    hide Message.Valid, Message.Value;
    given := ReadMessage(src);
    var r := engine(given);
    status := r.status;
    OwnsItself(src);
    Rewrite(src, r.src, mem);
    dst := null;
    if r.dst.Some? {
      dst := BuildMessage(r.dst.value, mem);
    }
  }

  ghost function Owned(m: Message?): set<object>
    reads m
  {
    if m == null then {} else m.Repr()
  }
}
