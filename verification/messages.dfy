/** Messages as values: slim copies and the order of attachments (src/message_cache.cc). */
module Messages {
  import opened Common
  import opened OptFields

  datatype Identity = Identity(address: string, userId: string, username: string)

  datatype Blob = Blob(mimeType: Option<string>, filename: Option<string>, data: string)

  /** The members of the engine's `message` that are copied as values. A null string is None, a null
      list the empty sequence; references to other messages are the numbers of the messages referred
      to. `others` stands for whatever members of the struct this library does not copy. */
  datatype Header = Header(
    dir: int,
    id: Option<string>,
    shortmsg: Option<string>,
    rawmsgRef: int,
    rawmsgSize: nat,
    sent: Option<int>,
    recv: Option<int>,
    from: Option<Identity>,
    to: seq<Identity>,
    cc: seq<Identity>,
    bcc: seq<Identity>,
    replyTo: seq<Identity>,
    inReplyTo: seq<string>,
    referingMsgRef: int,
    references: seq<string>,
    keywords: seq<string>,
    comments: Option<string>,
    encFormat: int,
    senderFpr: Option<string>,
    rating: int,
    others: int)

  /** The three members the cache keeps for the caller. */
  datatype Content = Content(longmsg: Option<string>, longmsgFormatted: Option<string>, attachments: seq<Blob>)

  const NOTHING := Content(None, None, [])

  datatype Msg = Msg(header: Header, content: Content, referedBy: seq<int>, optFields: Fields)

  /** `part` takes the content of `full`; its own is freed. */
  function SwapContent(part: Msg, full: Msg): (Msg, Msg) {
    (part.(content := full.content), full.(content := NOTHING))
  }

  // ----- slim copies -----

  predicate EmptyStr(s: Option<string>) {
    s.None? || s.value == ""
  }

  function NonEmpty(s: Option<string>): Option<string> {
    if EmptyStr(s) then None else s
  }

  /** The content of the copy: with `full` the longer text there is, without it a placeholder where
      the subject is missing. */
  function Preview(m: Msg, full: bool): Content {
    if full then
      if !EmptyStr(m.content.longmsg) then Content(m.content.longmsg, None, [])
      else Content(None, NonEmpty(m.content.longmsgFormatted), [])
    else if !EmptyStr(m.header.shortmsg) then NOTHING
    else if !EmptyStr(m.content.longmsg) then Content(Some("pEp"), None, [])
    else if !EmptyStr(m.content.longmsgFormatted) then Content(None, Some("<pEp/>"), [])
    else NOTHING
  }

  function SlimHeader(h: Header): Header {
    h.(shortmsg := NonEmpty(h.shortmsg), others := 0)
  }

  /** `empty_message_copy`: no attachments, a preview for content, the ID in front if one is given,
      everything else as it is. */
  function SlimCopy(m: Msg, id: string, full: bool): Msg {
    Msg(SlimHeader(m.header), Preview(m, full), m.referedBy,
        if id == "" then m.optFields else [IdField(id)] + m.optFields)
  }

  function SlimCopyOpt(m: Option<Msg>, id: string, full: bool): Option<Msg> {
    if m.None? then None else Some(SlimCopy(m.value, id, full))
  }

  /** The convention that at least one of the three texts is given. */
  predicate HasText(m: Msg) {
    !EmptyStr(m.header.shortmsg) || !EmptyStr(m.content.longmsg) || !EmptyStr(m.content.longmsgFormatted)
  }

  /** The longer text there is, and only that. */
  predicate ShowsText(c: Msg, m: Msg) {
    if m.content.longmsg.Some? && m.content.longmsg.value != "" then
      c.content.longmsg == m.content.longmsg && c.content.longmsgFormatted == None
    else
      && c.content.longmsg == None
      && c.content.longmsgFormatted
         == if m.content.longmsgFormatted == Some("") then None else m.content.longmsgFormatted
  }

  /** No text, but a placeholder where the subject is missing and there is a text. */
  predicate ShowsPlaceholder(c: Msg, m: Msg) {
    var subject := m.header.shortmsg.Some? && m.header.shortmsg.value != "";
    var text := m.content.longmsg.Some? && m.content.longmsg.value != "";
    var formatted := m.content.longmsgFormatted.Some? && m.content.longmsgFormatted.value != "";
    && c.content.longmsg == (if !subject && text then Some("pEp") else None)
    && c.content.longmsgFormatted == (if !subject && !text && formatted then Some("<pEp/>") else None)
  }

  /** Of all else nothing is missing, but the empty subject is null, and attachments are left behind. */
  predicate Carries(c: Msg, m: Msg) {
    && c.header.(shortmsg := m.header.shortmsg, others := m.header.others) == m.header
    && c.header.shortmsg == (if m.header.shortmsg == Some("") then None else m.header.shortmsg)
    && c.header.others == 0
    && c.referedBy == m.referedBy
    && c.content.attachments == []
  }

  /** With the ID as a new first field, where one is given. */
  predicate CarriesFields(c: Msg, m: Msg, id: string) {
    if id == "" then c.optFields == m.optFields
    else
      && c.optFields != [] && c.optFields[1..] == m.optFields
      && c.optFields[0] == Some(Pair(Some("X-pEp-Adapter-Cache-ID"), Some(id)))
  }

  /** What a slim copy has of the original, member by member. It keeps the convention exactly when the
      original does, and a second copy of it changes nothing but for a second ID. */
  lemma SlimCopyContract(m: Msg, id: string, full: bool)
    ensures var c := SlimCopy(m, id, full);
      && Carries(c, m) && CarriesFields(c, m, id)
      && (if full then ShowsText(c, m) else ShowsPlaceholder(c, m))
      && (HasText(c) <==> HasText(m))
      && SlimCopy(c, "", full) == c
      && (id != "" ==> CacheId(c.optFields) == id)
  {
  }

  // ----- attachments -----

  const OCTET_STREAM := "application/octet-stream"
  const PGP_ENCRYPTED := "application/pgp-encrypted"

  /** The two parts of a PGP/MIME message, in the reverse of the order section 4 of RFC 3156 gives. */
  predicate Reversed(bl: seq<Blob>) {
    && |bl| == 2
    && bl[0].mimeType == Some("application/octet-stream") && bl[1].mimeType == Some("application/pgp-encrypted")
  }

  /** The order that section asks for: the control part, then the data part. */
  predicate InOrder(bl: seq<Blob>) {
    && |bl| == 2
    && bl[0].mimeType == Some("application/pgp-encrypted") && bl[1].mimeType == Some("application/octet-stream")
  }

  function CorrectOrder(bl: seq<Blob>): seq<Blob> {
    if |bl| == 2 && !EmptyStr(bl[0].mimeType) && !EmptyStr(bl[1].mimeType)
       && bl[0].mimeType.value == OCTET_STREAM && bl[1].mimeType.value == PGP_ENCRYPTED
    then [bl[1], bl[0]]
    else bl
  }

  /** The result is never reversed, is a permutation, differs only where the list was reversed and
      is then in the order asked for; doing it twice is doing it once. */
  lemma CorrectOrderContract(bl: seq<Blob>)
    ensures var r := CorrectOrder(bl);
      && !Reversed(r)
      && multiset(r) == multiset(bl)
      && (r != bl <==> Reversed(bl))
      && (Reversed(bl) ==> InOrder(r))
      && CorrectOrder(r) == r
  {
    if |bl| == 2 { assert bl == [bl[0]] + [bl[1]]; }
  }

  function Reordered(m: Msg): Msg {
    m.(content := m.content.(attachments := CorrectOrder(m.content.attachments)))
  }
}
