/** Messages in the C heap, and the operations that move and relink their blocks in place
    (src/message_cache.cc). */
module HeapMessages {
  import opened Common
  import opened OptFields
  import opened Messages
  import opened HeapLists
  import opened HeapFields

  ghost function TextBlocks(t: Text?): set<object> {
    if t == null then {} else {t}
  }

  function TextOf(t: Text?): Option<string> {
    if t == null then None else Some(t.text)
  }

  /** A content and the blocks it consists of. */
  ghost predicate ContentAt(longmsg: Text?, formatted: Text?, attachments: Node?<Blob>, blobs: seq<Node<Blob>>,
                            blocks: set<object>)
    reads blobs
  {
    && blocks == TextBlocks(longmsg) + TextBlocks(formatted) + Blocks(blobs)
    && Chain(attachments, blobs)
    && (longmsg != null ==> longmsg != formatted)
  }

  ghost function Self(m: Message): set<object> {
    {m}
  }

  ghost predicate Disjoint(a: set<object>, b: set<object>) {
    a !! b
  }

  /** The blocks of everything but the content. */
  ghost predicate RestAt(m: Message, referedBy: Node?<int>, refs: seq<Node<int>>, optFields: Node?<Option<Pair>>,
                         fields: seq<FieldNode>, blocks: set<object>)
    reads refs, fields
  {
    && blocks == Self(m) + Blocks(refs) + Blocks(fields)
    && Self(m) !! Blocks(refs) && Self(m) !! Blocks(fields) && Disjoint(Blocks(refs), Blocks(fields))
    && Chain(referedBy, refs)
    && Chain(optFields, fields)
  }

  /** A `message`. Its body texts, attachments, optional fields and message references are blocks
      of their own; the members in `header` are values, copied in full. */
  class Message {
    var header: Header
    var longmsg: Text?
    var longmsgFormatted: Text?
    var attachments: Node?<Blob>
    var referedBy: Node?<int>
    var optFields: Node?<Option<Pair>>

    // the nodes of the three lists
    ghost var blobs: seq<Node<Blob>>
    ghost var refs: seq<Node<int>>
    ghost var fields: seq<FieldNode>
    // the blocks that hold the content, and those that hold all else
    ghost var content: set<object>
    ghost var rest: set<object>

    /** Everything free_message frees. */
    ghost function Repr(): set<object>
      reads this
    {
      content + rest
    }

    ghost predicate Valid()
      reads this, Repr()
    {
      && this in rest && content !! rest
      && Blocks(blobs) <= content && Blocks(refs) <= rest && Blocks(fields) <= rest
      && ContentAt(longmsg, longmsgFormatted, attachments, blobs, content)
      && RestAt(this, referedBy, refs, optFields, fields, rest)
    }

    ghost function ContentValue(): Content
      reads this, blobs
    {
      Content(TextOf(longmsg), TextOf(longmsgFormatted), Values(blobs))
    }

    ghost function Value(): Msg
      reads this, blobs, refs, fields
    {
      Msg(header, ContentValue(), Values(refs), Values(fields))
    }

    /** A message of these parts. */
    constructor Assemble(header: Header, longmsg: Text?, formatted: Text?, attachments: Node?<Blob>,
                         referedBy: Node?<int>, optFields: Node?<Option<Pair>>, ghost p: Parts, mem: Memory)
      requires PartsAt(longmsg, formatted, attachments, referedBy, optFields, p)
      modifies mem
      ensures Valid() && mem.live == old(mem.live) + {this}
      ensures Value() == Msg(header, Content(TextOf(longmsg), TextOf(formatted), Values(p.blobs)),
                             Values(p.refs), Values(p.fields))
      ensures content == p.content && rest == Self(this) + Blocks(p.refs) + Blocks(p.fields)
    {
      this.header := header;
      this.longmsg, this.longmsgFormatted, this.attachments := longmsg, formatted, attachments;
      this.referedBy, this.optFields := referedBy, optFields;
      this.blobs, this.refs, this.fields := p.blobs, p.refs, p.fields;
      this.content := p.content;
      this.rest := {this} + Blocks(p.refs) + Blocks(p.fields);
      new;
      mem.Alloc(this);
    }
  }

  /** A message is one of its own blocks. */
  lemma OwnsItself(m: Message)
    requires m.Valid()
    ensures m in m.Repr()
  {
  }

  /** And the memory is none. */
  lemma ValidOwnsSelf(m: Message, mem: Memory)
    requires m.Valid()
    ensures (mem as object) !in m.Repr()
    ensures m in m.rest && m in m.Repr() && Disjoint(m.content, m.rest) && m.Repr() == m.content + m.rest
    ensures forall n :: n in m.blobs ==> n in m.Repr()
    ensures forall n :: n in m.refs ==> n in m.Repr()
    ensures forall n :: n in m.fields ==> n in m.Repr()
  {
  }

  /** The nodes and blocks of the parts of a message. */
  datatype Parts = Parts(content: set<object>, blobs: seq<Node<Blob>>, refs: seq<Node<int>>, fields: seq<FieldNode>)

  ghost predicate PartsAt(longmsg: Text?, formatted: Text?, attachments: Node?<Blob>, referedBy: Node?<int>,
                          optFields: Node?<Option<Pair>>, p: Parts)
    reads p.blobs, p.refs, p.fields
  {
    && ContentAt(longmsg, formatted, attachments, p.blobs, p.content)
    && Chain(referedBy, p.refs) && Chain(optFields, p.fields)
    && Disjoint(p.content, Blocks(p.refs)) && Disjoint(p.content, Blocks(p.fields))
    && Disjoint(Blocks(p.refs), Blocks(p.fields))
  }

  ghost function PartBlocks(p: Parts): set<object> {
    p.content + Blocks(p.refs) + Blocks(p.fields)
  }

  /** `new_message`: everything but the direction is null or zero. */
  function NewHeader(dir: int): Header {
    Header(dir, None, None, 0, 0, None, None, None, [], [], [], [], [], 0, [], [], None, 0, None, 0, 0)
  }

  /** `free` on a string: nothing happens to null. */
  method FreeText(t: Text?, mem: Memory)
    requires TextBlocks(t) <= mem.live
    modifies mem
    ensures mem.live == old(mem.live) - TextBlocks(t)
  {
    if t != null {
      mem.Free(t);
    }
  }

  /** `strdup`, which passes null on. */
  method DupText(t: Option<string>, mem: Memory) returns (r: Text?)
    modifies mem
    ensures TextOf(r) == t && fresh(TextBlocks(r)) && TextBlocks(r) !! old(mem.live)
    ensures mem.live == old(mem.live) + TextBlocks(r)
  {
    if t.None? {
      return null;
    }
    r := new Text(t.value);
    mem.Alloc(r);
  }

  /** The three frees of a content. */
  method FreeContent(longmsg: Text?, formatted: Text?, attachments: Node?<Blob>, ghost blobs: seq<Node<Blob>>,
                     ghost blocks: set<object>, mem: Memory)
    requires ContentAt(longmsg, formatted, attachments, blobs, blocks) && blocks <= mem.live
    modifies mem
    ensures mem.live == old(mem.live) - blocks
  {
    FreeText(longmsg, mem);
    FreeText(formatted, mem);
    FreeList(attachments, blobs, mem);
  }

  /** `free_message`: each of the message's blocks once, and nothing else. */
  method FreeMessage(m: Message?, mem: Memory)
    requires m != null ==> m.Valid() && m.Repr() <= mem.live
    modifies mem
    ensures mem.live == old(mem.live) - (if m != null then m.Repr() else {})
  {
    if m == null {
      return;
    }
    FreeContent(m.longmsg, m.longmsgFormatted, m.attachments, m.blobs, m.content, mem);
    FreeList(m.referedBy, m.refs, mem);
    FreeList(m.optFields, m.fields, mem);
    mem.Free(m);
  }

  method MoveLongmsg(part: Message, full: Message, mem: Memory)
    requires part != full && TextBlocks(part.longmsg) <= mem.live
    modifies part`longmsg, full`longmsg, mem
    ensures part.longmsg == old(full.longmsg) && full.longmsg == null
    ensures mem.live == old(mem.live) - TextBlocks(old(part.longmsg))
  {
    FreeText(part.longmsg, mem);
    part.longmsg := full.longmsg;
    full.longmsg := null;
  }

  method MoveFormatted(part: Message, full: Message, mem: Memory)
    requires part != full && TextBlocks(part.longmsgFormatted) <= mem.live
    modifies part`longmsgFormatted, full`longmsgFormatted, mem
    ensures part.longmsgFormatted == old(full.longmsgFormatted) && full.longmsgFormatted == null
    ensures mem.live == old(mem.live) - TextBlocks(old(part.longmsgFormatted))
  {
    FreeText(part.longmsgFormatted, mem);
    part.longmsgFormatted := full.longmsgFormatted;
    full.longmsgFormatted := null;
  }

  method MoveAttachments(part: Message, full: Message, mem: Memory)
    requires part != full && Chain(part.attachments, part.blobs) && Blocks(part.blobs) <= mem.live
    modifies part`attachments, part`blobs, full`attachments, full`blobs, mem
    ensures part.attachments == old(full.attachments) && full.attachments == null
    ensures part.blobs == old(full.blobs) && full.blobs == []
    ensures mem.live == old(mem.live) - Blocks(old(part.blobs))
  {
    FreeList(part.attachments, part.blobs, mem);
    part.attachments, part.blobs := full.attachments, full.blobs;
    full.attachments, full.blobs := null, [];
  }

  /** What the parts of a content amount to. */
  lemma ContentParts(longmsg: Text?, formatted: Text?, attachments: Node?<Blob>, blobs: seq<Node<Blob>>,
                     blocks: set<object>)
    requires ContentAt(longmsg, formatted, attachments, blobs, blocks)
    ensures TextBlocks(longmsg) !! TextBlocks(formatted)
    ensures TextBlocks(longmsg) !! Blocks(blobs) && TextBlocks(formatted) !! Blocks(blobs)
    ensures Chain(attachments, blobs)
    ensures blocks == TextBlocks(longmsg) + TextBlocks(formatted) + Blocks(blobs)
  {
  }

  lemma NoContent()
    ensures ContentAt(null, null, null, [], {}) && Blocks<Blob>([]) == {} && Values<Blob>([]) == []
  {
  }

  method MoveContent(part: Message, full: Message, mem: Memory)
    requires part != full && part.content <= mem.live
    requires ContentAt(part.longmsg, part.longmsgFormatted, part.attachments, part.blobs, part.content)
    modifies part`longmsg, part`longmsgFormatted, part`attachments, part`blobs, part`content
    modifies full`longmsg, full`longmsgFormatted, full`attachments, full`blobs, full`content, mem
    ensures part.longmsg == old(full.longmsg) && full.longmsg == null
    ensures part.longmsgFormatted == old(full.longmsgFormatted) && full.longmsgFormatted == null
    ensures part.attachments == old(full.attachments) && full.attachments == null
    ensures part.blobs == old(full.blobs) && full.blobs == []
    ensures part.content == old(full.content) && full.content == {}
    ensures mem.live == old(mem.live) - old(part.content)
  {
    hide Chain, Values, Blocks, TextBlocks, ContentAt;
    ContentParts(part.longmsg, part.longmsgFormatted, part.attachments, part.blobs, part.content);
    MoveLongmsg(part, full, mem);
    MoveFormatted(part, full, mem);
    MoveAttachments(part, full, mem);
    part.content, full.content := full.content, {};
  }

  /** The content of `full` moves into `part`; what `part` held before is freed. */
  method SwapContentBlocks(part: Message, full: Message, mem: Memory)
    requires part.Valid() && full.Valid() && part.Repr() !! full.Repr()
    requires part.Repr() <= mem.live
    modifies part, full, mem
    ensures part.Valid() && full.Valid()
    ensures (part.Value(), full.Value()) == SwapContent(old(part.Value()), old(full.Value()))
    ensures part.content == old(full.content) && full.content == {}
    ensures part.rest == old(part.rest) && full.rest == old(full.rest)
    ensures mem.live == old(mem.live) - old(part.content)
  {
    hide Chain, Values, Blocks, TextBlocks, ContentAt, RestAt;
    NoContent();
    MoveContent(part, full, mem);
  }

  /** Relink the nodes of a list where there are exactly two of them, both with a MIME type, in the
      wrong order. */
  method Relink(bl: Node?<Blob>, ghost blobs: seq<Node<Blob>>)
      returns (head: Node?<Blob>, ghost relinked: seq<Node<Blob>>)
    requires Chain(bl, blobs)
    modifies blobs
    ensures Chain(head, relinked) && Blocks(relinked) == Blocks(blobs)
    ensures Values(relinked) == CorrectOrder(old(Values(blobs)))
  {
    head, relinked := bl, blobs;
    if bl != null && bl.next != null && bl.next.next == null {
      var one, two := bl.next, bl;
      assert blobs == [two, one];
      if !EmptyStr(two.value.mimeType) && !EmptyStr(one.value.mimeType)
         && two.value.mimeType.value == OCTET_STREAM && one.value.mimeType.value == PGP_ENCRYPTED
      {
        head, relinked := one, [one, two];
        one.next := two;
        two.next := null;
      }
    }
  }

  method CorrectAttachmentsOrder(m: Message)
    requires m.Valid()
    modifies m`attachments, m`blobs, m.blobs
    ensures m.Valid() && m.content == old(m.content) && m.rest == old(m.rest)
    ensures m.Value() == Reordered(old(m.Value()))
  {
    hide RestAt, Values, Chain, CorrectOrder, Blocks;
    m.attachments, m.blobs := Relink(m.attachments, m.blobs);
  }

  /** Replacing some of the blocks a message owns leaves its others live, and everybody else's. */
  lemma OthersStay(live: set<object>, live': set<object>, part: set<object>, part': set<object>, others: set<object>)
    requires others <= live && others !! part && others !! part'
    requires part' <= live' && live' - part' == live - part
    ensures others <= live' && live' - (others + part') == live - (others + part)
  {
    forall x | x in others ensures x in live' { assert x in live - part; }
    forall x ensures x in live' - (others + part') <==> x in live - (others + part) {
      assert x in live' - part' <==> x in live - part;
    }
  }

  /** `putCacheID`: the caller's message owns the new node; of an empty list the old ones are freed. */
  method PutCacheId(m: Message, cid: string, mem: Memory)
    requires m.Valid() && m.Repr() <= mem.live
    modifies m, mem
    ensures m.Valid() && m.Repr() <= mem.live && m.content == old(m.content)
    ensures m.Value() == old(m.Value()).(optFields := PutId(old(m.Value()).optFields, cid))
    ensures mem.live - m.rest == old(mem.live) - old(m.rest)
    ensures fresh(m.rest - old(m.rest))
  {
    hide Values, Chain, PutId, ContentAt, Blocks;
    var first, put := PutField(m.optFields, m.fields, cid, mem);
    OthersStay(old(mem.live), mem.live, Blocks(m.fields), Blocks(put), Self(m) + Blocks(m.refs));
    OthersStay(old(mem.live), mem.live, Blocks(m.fields), Blocks(put), m.content);
    m.optFields, m.fields := first, put;
    m.rest := Self(m) + Blocks(m.refs) + Blocks(put);
  }

  method CacheIdOf(m: Message) returns (cid: string)
    requires m.Valid()
    ensures cid == CacheId(m.Value().optFields)
  {
    cid := FindField(m.optFields, m.fields);
  }

  method RemoveCacheId(m: Message, mem: Memory)
    requires m.Valid() && m.Repr() <= mem.live
    modifies m`optFields, m`fields, m`rest, m.fields, mem
    ensures m.Valid() && m.Repr() <= mem.live && m.content == old(m.content)
    ensures m.Value() == old(m.Value()).(optFields := RemoveId(old(m.Value()).optFields))
    ensures mem.live - m.rest == old(mem.live) - old(m.rest)
    ensures m.rest <= old(m.rest)
  {
    hide Values, Chain, RemoveId, ContentAt, Blocks;
    ghost var fields, others := m.fields, Self(m) + Blocks(m.refs);
    var first, left := RemoveField(m.optFields, m.fields, mem);
    assert Values(m.blobs) == old(Values(m.blobs)) && Values(m.refs) == old(Values(m.refs));
    OthersStay(old(mem.live), mem.live, Blocks(fields), Blocks(left), others);
    OthersStay(old(mem.live), mem.live, Blocks(fields), Blocks(left), m.content);
    m.optFields, m.fields, m.rest := first, left, others + Blocks(left);
  }

  /** The texts of a slim copy. */
  method CopyTexts(src: Message, full: bool, mem: Memory) returns (longmsg: Text?, formatted: Text?)
    requires src.Valid()
    modifies mem
    ensures Content(TextOf(longmsg), TextOf(formatted), []) == Preview(src.Value(), full)
    ensures fresh(TextBlocks(longmsg) + TextBlocks(formatted))
    ensures (TextBlocks(longmsg) + TextBlocks(formatted)) !! old(mem.live)
    ensures mem.live == old(mem.live) + TextBlocks(longmsg) + TextBlocks(formatted)
    ensures longmsg == null || formatted == null
  {
    longmsg, formatted := null, null;
    if full {
      if !EmptyStr(TextOf(src.longmsg)) {
        longmsg := DupText(TextOf(src.longmsg), mem);
      } else if !EmptyStr(TextOf(src.longmsgFormatted)) {
        formatted := DupText(TextOf(src.longmsgFormatted), mem);
      }
    } else if EmptyStr(src.header.shortmsg) {
      if !EmptyStr(TextOf(src.longmsg)) {
        longmsg := DupText(Some("pEp"), mem);
      } else if !EmptyStr(TextOf(src.longmsgFormatted)) {
        formatted := DupText(Some("<pEp/>"), mem);
      }
    }
  }

  /** The optional fields of a slim copy, with the ID in front if one is given. */
  method CopyFields(src: Message, id: string, mem: Memory)
      returns (optFields: Node?<Option<Pair>>, ghost fields: seq<FieldNode>)
    requires src.Valid()
    modifies mem
    ensures Chain(optFields, fields)
    ensures Values(fields) == if id == "" then src.Value().optFields else [IdField(id)] + src.Value().optFields
    ensures fresh(Blocks(fields)) && Blocks(fields) !! old(mem.live)
    ensures mem.live == old(mem.live) + Blocks(fields)
  {
    hide Chain, Values, Blocks;
    optFields, fields := CopyList(src.optFields, src.fields, mem);
    if id != "" {
      var first, longer := Prepend(IdField(id), optFields, fields, mem);
      optFields, fields := first, longer;
    }
  }

  /** The lists of a slim copy. */
  method CopyLists(src: Message, id: string, mem: Memory)
      returns (referedBy: Node?<int>, optFields: Node?<Option<Pair>>, ghost refs: seq<Node<int>>,
               ghost fields: seq<FieldNode>)
    requires src.Valid()
    modifies mem
    ensures src.Valid() && src.Value() == old(src.Value())
    ensures Chain(referedBy, refs) && Chain(optFields, fields) && Disjoint(Blocks(refs), Blocks(fields))
    ensures Values(refs) == src.Value().referedBy
    ensures Values(fields) == if id == "" then src.Value().optFields else [IdField(id)] + src.Value().optFields
    ensures fresh(Blocks(refs)) && fresh(Blocks(fields))
    ensures Disjoint(Blocks(refs), old(mem.live)) && Disjoint(Blocks(fields), old(mem.live))
    ensures mem.live == old(mem.live) + Blocks(refs) + Blocks(fields)
  {
    hide Chain, Values, Blocks, ContentAt;
    referedBy, refs := CopyList(src.referedBy, src.refs, mem);
    optFields, fields := CopyFields(src, id, mem);
  }

  /** The blocks of a slim copy but for the message itself. */
  method CopyParts(src: Message, id: string, full: bool, mem: Memory)
      returns (longmsg: Text?, formatted: Text?, referedBy: Node?<int>, optFields: Node?<Option<Pair>>, ghost p: Parts)
    requires src.Valid()
    modifies mem
    ensures PartsAt(longmsg, formatted, null, referedBy, optFields, p)
    ensures Content(TextOf(longmsg), TextOf(formatted), Values(p.blobs)) == Preview(src.Value(), full)
    ensures Values(p.refs) == src.Value().referedBy
    ensures Values(p.fields) == if id == "" then src.Value().optFields else [IdField(id)] + src.Value().optFields
    ensures fresh(PartBlocks(p)) && PartBlocks(p) !! old(mem.live) && mem.live == old(mem.live) + PartBlocks(p)
  {
    hide Chain, Values, Blocks, TextBlocks, Preview, ContentAt, Message.Value;
    ValidOwnsSelf(src, mem);
    longmsg, formatted := CopyTexts(src, full, mem);
    ghost var texts := TextBlocks(longmsg) + TextBlocks(formatted);
    OnlyTexts(longmsg, formatted);
    ghost var refs: seq<Node<int>>;
    ghost var fields: seq<FieldNode>;
    referedBy, optFields, refs, fields := CopyLists(src, id, mem);
    p := Parts(texts, [], refs, fields);
  }

  lemma OnlyTexts(longmsg: Text?, formatted: Text?)
    requires longmsg == null || formatted == null
    ensures ContentAt(longmsg, formatted, null, [], TextBlocks(longmsg) + TextBlocks(formatted))
    ensures Values<Blob>([]) == []
  {
  }

  /** `empty_message_copy`. */
  method EmptyMessageCopy(src: Message, id: string, full: bool, mem: Memory) returns (dst: Message)
    requires src.Valid()
    modifies mem
    ensures dst.Valid() && dst.Value() == SlimCopy(src.Value(), id, full)
    ensures fresh(dst.Repr()) && dst.Repr() !! old(mem.live)
    ensures mem.live == old(mem.live) + dst.Repr()
  {
    hide PartsAt, Values, Blocks, Preview, Message.Valid, Message.Value, CopyHeader, SlimHeader;
    ValidOwnsSelf(src, mem);
    HeaderCopied(src);
    var longmsg, formatted, referedBy, optFields, p := CopyParts(src, id, full, mem);
    dst := new Message.Assemble(CopyHeader(src.header), longmsg, formatted, null, referedBy, optFields, p, mem);
    assert dst.Repr() == PartBlocks(p) + {dst};
  }

  lemma HeaderCopied(src: Message)
    ensures CopyHeader(src.header) == SlimHeader(src.Value().header)
  {
  }

  /** The members copied as values, one by one, into a new message of the same direction. */
  function CopyHeader(src: Header): Header {
    var dst := NewHeader(src.dir);
    Header(
      dst.dir,
      src.id,
      if !EmptyStr(src.shortmsg) then src.shortmsg else dst.shortmsg,
      src.rawmsgRef,
      src.rawmsgSize,
      src.sent,
      src.recv,
      src.from,
      src.to,
      src.cc,
      src.bcc,
      src.replyTo,
      src.inReplyTo,
      src.referingMsgRef,
      src.references,
      src.keywords,
      src.comments,
      src.encFormat,
      src.senderFpr,
      src.rating,
      dst.others)
  }
}
