/** The message cache against a reference without one, and the round trip from MIME text to MIME text. */
module CacheTheorems {
  import opened Common
  import opened OptFields
  import opened CacheIds
  import opened Messages
  import opened CacheModel

  // ----- the reference: an application that keeps the full messages itself -----

  /** All the reference remembers of a message: its content, and the last result in full. */
  datatype Kept = Kept(content: Content, dst: Option<Msg>)

  datatype Direct = Direct(kept: map<string, Kept>, ids: Generator)

  function Abs(s: State): Direct {
    Direct(map id | id in s.cache :: Kept(s.cache[id].src.content, s.cache[id].dst), s.ids)
  }

  function DirectDecode(d: Direct, status: Status, parsed: Msg): (Direct, Output) {
    if status != Ok then (d, Output(Returned(status), None, None, None))
    else
      var id := Id(d.ids.range, d.ids.next);
      (Direct(d.kept[id := Kept(parsed.content, None)], d.ids.(next := d.ids.next + 1)),
       Output(Returned(Ok), None, None, Some(SlimCopy(PutIdIn(parsed, id), "", false))))
  }

  function DirectEncode(d: Direct, one: int, msg: Option<Msg>, encoder: Encoder): (Direct, Output) {
    if msg.None? || IdOf(msg.value) == "" || one !in {MSG_SRC, MSG_DST} then
      (d, Output(Returned(IllegalValue), None, msg, None))
    else if IdOf(msg.value) !in d.kept then (d, Output(Thrown, None, msg, None))
    else
      var k := d.kept[IdOf(msg.value)];
      if one == MSG_DST && k.dst.None? then (d, Output(Returned(IllegalValue), None, msg, None))
      else
        var content := if one == MSG_SRC then k.content else k.dst.value.content;
        var given := RemoveIdFrom(SlimCopy(msg.value, "", false).(content := content));
        (d.(kept := d.kept - {IdOf(msg.value)}), Output(Returned(encoder(given)), Some(given), msg, None))
  }

  function DirectDecrypt(d: Direct, msg: Option<Msg>, engine: Engine, full: bool): (Direct, Output) {
    if msg.None? || IdOf(msg.value) == "" then (d, Output(Returned(IllegalValue), None, msg, None))
    else if IdOf(msg.value) !in d.kept then (d, Output(Thrown, None, msg, None))
    else
      var id := IdOf(msg.value);
      var c := d.kept[id].content;
      var given := msg.value.(content := c.(attachments := CorrectOrder(c.attachments)));
      var reply := engine(given);
      (d.(kept := if full then d.kept - {id} else d.kept[id := Kept(reply.src.content, reply.dst)]),
       Output(Returned(reply.status), Some(given), Some(reply.src.(content := NOTHING)),
              if full then reply.dst else SlimCopyOpt(reply.dst, id, true)))
  }

  function DirectEncrypt(d: Direct, src: Msg, engine: Engine): (Direct, Output) {
    if IdOf(src) !in d.kept then (d, Output(Thrown, None, Some(src), None))
    else
      var given := src.(content := d.kept[IdOf(src)].content);
      var reply := engine(given);
      (d.(kept := d.kept[IdOf(src) := Kept(reply.src.content, reply.dst)]),
       Output(Returned(reply.status), Some(given), Some(reply.src.(content := NOTHING)),
              SlimCopyOpt(reply.dst, IdOf(src), false)))
  }

  function DirectFullInput(d: Direct, src: Msg, engine: Engine): (Direct, Output) {
    var id := Id(d.ids.range, d.ids.next);
    var ids := d.ids.(next := d.ids.next + 1);
    var reply := engine(PutIdIn(src, id));
    if reply.status !in {Ok, Unencrypted} then
      (d.(ids := ids), Output(Returned(reply.status), Some(PutIdIn(src, id)), Some(reply.src), None))
    else
      var dst := if reply.dst.None? then None else Some(PutIdIn(reply.dst.value, id));
      (Direct(d.kept[id := Kept(reply.src.content, dst)], ids),
       Output(Returned(reply.status), Some(PutIdIn(src, id)), Some(reply.src),
              Some(SlimCopy(if dst.Some? then dst.value else reply.src, "", false))))
  }

  /** Every operation calls the engine once, on the caller's message completed by its content, and
      remembers the content the engine leaves. */
  function DirectStep(d: Direct, call: Call): (Direct, Output) {
    match call
    case Decode(status, parsed) => DirectDecode(d, status, parsed)
    case Encode(one, msg, encoder) => DirectEncode(d, one, msg, encoder)
    case Decrypt(msg, engine, full) => DirectDecrypt(d, msg, engine, full)
    case Encrypt(src, engine) => DirectEncrypt(d, src, engine)
    case FullInput(src, engine) => DirectFullInput(d, src, engine)
    case Release(id) => (d.(kept := d.kept - {id}), Output(Returned(Ok), None, None, None))
  }

  function DirectRun(d: Direct, calls: seq<Call>): (Direct, seq<Output>)
    decreases |calls|
  {
    if calls == [] then (d, [])
    else
      var (next, out) := DirectStep(d, calls[0]);
      var (last, outs) := DirectRun(next, calls[1..]);
      (last, [out] + outs)
  }

  // ----- simulation -----

  lemma DecodeAgrees(s: State, status: Status, parsed: Msg)
    requires Fresh(s)
    ensures DirectDecode(Abs(s), status, parsed)
      == (Abs(StepDecode(s, status, parsed).0), StepDecode(s, status, parsed).1)
  {
    hide Id, IdOf;
    var id := Id(s.ids.range, s.ids.next);
    PutIsFound(parsed, id);
    assert DirectDecode(Abs(s), status, parsed).0.kept == Abs(StepDecode(s, status, parsed).0).kept;
  }

  lemma EncodeAgrees(s: State, one: int, msg: Option<Msg>, encoder: Encoder)
    ensures DirectEncode(Abs(s), one, msg, encoder)
      == (Abs(StepEncode(s, one, msg, encoder).0), StepEncode(s, one, msg, encoder).1)
  {
    assert DirectEncode(Abs(s), one, msg, encoder).0.kept == Abs(StepEncode(s, one, msg, encoder).0).kept;
  }

  lemma DecryptAgrees(s: State, msg: Option<Msg>, engine: Engine, full: bool)
    ensures DirectDecrypt(Abs(s), msg, engine, full)
      == (Abs(StepDecrypt(s, msg, engine, full).0), StepDecrypt(s, msg, engine, full).1)
  {
    assert DirectDecrypt(Abs(s), msg, engine, full).0.kept == Abs(StepDecrypt(s, msg, engine, full).0).kept;
  }

  lemma EncryptAgrees(s: State, src: Msg, engine: Engine)
    ensures DirectEncrypt(Abs(s), src, engine) == (Abs(StepEncrypt(s, src, engine).0), StepEncrypt(s, src, engine).1)
  {
    assert DirectEncrypt(Abs(s), src, engine).0.kept == Abs(StepEncrypt(s, src, engine).0).kept;
  }

  lemma FullInputAgrees(s: State, src: Msg, engine: Engine)
    requires Fresh(s)
    ensures DirectFullInput(Abs(s), src, engine)
      == (Abs(StepFullInput(s, src, engine).0), StepFullInput(s, src, engine).1)
  {
    hide Id, IdOf, PutIdIn;
    var id := Id(s.ids.range, s.ids.next);
    PutIsFound(src, id);
    assert DirectFullInput(Abs(s), src, engine).0.kept == Abs(StepFullInput(s, src, engine).0).kept;
  }

  lemma StepAgrees(s: State, call: Call)
    requires Fresh(s)
    ensures DirectStep(Abs(s), call) == (Abs(Step(s, call).0), Step(s, call).1)
  {
    match call
    case Decode(status, parsed) => DecodeAgrees(s, status, parsed);
    case Encode(one, msg, encoder) => EncodeAgrees(s, one, msg, encoder);
    case Decrypt(msg, engine, full) => DecryptAgrees(s, msg, engine, full);
    case Encrypt(src, engine) => EncryptAgrees(s, src, engine);
    case FullInput(src, engine) => FullInputAgrees(s, src, engine);
    case Release(id) => assert DirectStep(Abs(s), call).0.kept == Abs(Step(s, call).0).kept;
  }

  /** Over every run of calls, with whatever messages, engines and encoders: the cache hands the
      engine the same messages, returns the same results and holds the same content as the
      application that calls the engine on full messages. */
  lemma {:induction false} CacheAgreesWithDirectCalls(s: State, calls: seq<Call>)
    requires Fresh(s)
    ensures DirectRun(Abs(s), calls) == (Abs(Run(s, calls).0), Run(s, calls).1)
    decreases |calls|
  {
    if calls != [] {
      StepAgrees(s, calls[0]);
      StepKeepsFresh(s, calls[0]);
      CacheAgreesWithDirectCalls(Step(s, calls[0]).0, calls[1..]);
    }
  }

  // ----- what single calls do to the caller's message and to the entry -----

  /** The message the engine gets has the header of the caller's message and the content stored
      under its ID; afterwards the entry holds the content the engine left and the caller's message
      holds none; no other entry is touched. */
  lemma EncryptMovesContent(s: State, src: Msg, engine: Engine)
    requires IdOf(src) in s.cache
    ensures var (t, out) := StepEncrypt(s, src, engine);
      var e := s.cache[IdOf(src)];
      && out.given == Some(src.(content := e.src.content))
      && t.cache[IdOf(src)].src.content == engine(out.given.value).src.content
      && t.cache[IdOf(src)].src.(content := NOTHING) == e.src.(content := NOTHING)
      && t.cache[IdOf(src)].dst == engine(out.given.value).dst
      && out.handle.value.content == Content(None, None, [])
      && Erase(t.cache, IdOf(src)) == Erase(s.cache, IdOf(src))
  {
  }

  /** Decryption keeps the entry if and only if the full output was not asked for, whatever the engine
      says. What is kept is the content the engine left and its result; what is dropped is in no
      message the caller has, unless the engine put it into its result. */
  lemma DecryptKeepsEntryUnlessFull(s: State, msg: Msg, engine: Engine, full: bool)
    requires IdOf(msg) != "" && IdOf(msg) in s.cache
    ensures var (t, out) := StepDecrypt(s, Some(msg), engine, full);
      var reply := engine(out.given.value);
      && (IdOf(msg) in t.cache <==> !full)
      && (!full ==> t.cache[IdOf(msg)].src.content == reply.src.content && t.cache[IdOf(msg)].dst == reply.dst)
      && Erase(t.cache, IdOf(msg)) == Erase(s.cache, IdOf(msg))
      && out.result == Returned(reply.status)
      && out.given.value.content == Reordered(s.cache[IdOf(msg)].src).content
      && out.handle.value.content == Content(None, None, [])
      && (full ==> out.dst == reply.dst)
  {
    var (t, out) := StepDecrypt(s, Some(msg), engine, full);
    assert Erase(t.cache, IdOf(msg)) == Erase(s.cache, IdOf(msg));
  }

  /** Without full output the caller is shown the text the engine's message has, its subject and all
      other members, and its fields behind the ID. */
  lemma DecryptShowsText(s: State, msg: Msg, engine: Engine)
    requires IdOf(msg) != "" && IdOf(msg) in s.cache
    ensures var out := StepDecrypt(s, Some(msg), engine, false).1;
      var made := engine(out.given.value).dst;
      && (out.dst.Some? <==> made.Some?)
      && (made.Some? ==> ShowsText(out.dst.value, made.value) && Carries(out.dst.value, made.value)
                         && CarriesFields(out.dst.value, made.value, IdOf(msg)))
  {
    hide IdOf;
    var out := StepDecrypt(s, Some(msg), engine, false).1;
    var made := engine(out.given.value).dst;
    if made.Some? { SlimCopyContract(made.value, IdOf(msg), true); }
  }

  /** The message a call makes a slim copy of for the caller: the parsed one, the engine's result, or,
      where there is none of a full input, the caller's own; and the ID that is added to it. */
  function Original(s: State, call: Call): Option<(Msg, string)> {
    var id := Id(s.ids.range, s.ids.next);
    match call
    case Decode(status, parsed) =>
      if status == Ok then Some((parsed.(optFields := PutId(parsed.optFields, id)), "")) else None
    case Encrypt(src, engine) =>
      if IdOf(src) !in s.cache then None
      else
        var made := engine(src.(content := s.cache[IdOf(src)].src.content)).dst;
        if made.Some? then Some((made.value, IdOf(src))) else None
    case FullInput(src, engine) =>
      var reply := engine(src.(optFields := PutId(src.optFields, id)));
      if reply.status !in {Ok, Unencrypted} then None
      else if reply.dst.None? then Some((reply.src, ""))
      else Some((reply.dst.value.(optFields := PutId(reply.dst.value.optFields, id)), ""))
    case _ => None
  }

  /** All other calls show the caller no text: the subject or a placeholder, and all other members. */
  lemma OthersShowPlaceholder(s: State, call: Call)
    requires !call.Decrypt?
    ensures var out := Step(s, call).1;
      var original := Original(s, call);
      && (out.dst.Some? <==> original.Some?)
      && (original.Some? ==>
            && ShowsPlaceholder(out.dst.value, original.value.0) && Carries(out.dst.value, original.value.0)
            && CarriesFields(out.dst.value, original.value.0, original.value.1))
  {
    hide Id, SlimCopy, PutId, FindId;
    var original := Original(s, call);
    if original.Some? {
      if call.FullInput? { PutThenFindAndRemove(call.src.optFields, Id(s.ids.range, s.ids.next)); }
      SlimCopyContract(original.value.0, original.value.1, false);
    }
  }

  /** The key of the entry a call keeps: the generated one, or the one in the caller's message. */
  function KeyOf(s: State, call: Call): string {
    match call
    case Decrypt(msg, _, _) => if msg.Some? then IdOf(msg.value) else ""
    case Encrypt(src, _) => IdOf(src)
    case _ => Id(s.ids.range, s.ids.next)
  }

  /** The engine made no message of a full input and took the ID out of the source, or put another
      in front of it. */
  predicate EngineLosesKey(s: State, call: Call) {
    call.FullInput? &&
    var reply := call.engine(PutIdIn(call.src, KeyOf(s, call)));
    reply.dst.None? && IdOf(reply.src) != KeyOf(s, call)
  }

  /** A message returned by a call that keeps an entry carries the key of that entry as its first ID,
      except where the engine loses it. */
  lemma HandlesCarryKey(s: State, call: Call)
    requires Fresh(s)
    requires !(call.Decrypt? && call.full)
    ensures var (t, out) := Step(s, call);
      var key := KeyOf(s, call);
      out.dst.Some? ==> key in t.cache && (IdOf(out.dst.value) == key <==> !EngineLosesKey(s, call))
  {
    hide Id;
    var key := KeyOf(s, call);
    var (t, out) := Step(s, call);
    match call
    case Decode(status, parsed) => PutIsFound(parsed, key);
    case FullInput(src, engine) =>
      PutIsFound(src, key);
      var reply := engine(PutIdIn(src, key));
      if reply.dst.Some? { PutIsFound(reply.dst.value, key); }
    case _ =>
  }

  /** An engine that leaves a message unencrypted and its optional fields in a state of its own. */
  function Relabelling(fields: Fields): Engine {
    (m: Msg) => Reply(Unencrypted, m.(optFields := fields), None)
  }

  /** The inputs at which it fails: with such an engine the returned message leads to whatever entry
      the engine named, another caller's too, or to none. */
  lemma HandleLeadsElsewhere(s: State, src: Msg, other: string)
    requires Fresh(s) && other in s.cache
    ensures var (t, out) := StepFullInput(s, src, Relabelling([IdField(other)]));
      && out.dst.Some? && IdOf(out.dst.value) == other
      && other != KeyOf(s, FullInput(src, Relabelling([IdField(other)])))
      && t.cache[other] == s.cache[other]
    ensures var (t, out) := StepFullInput(s, src, Relabelling([]));
      out.dst.Some? && IdOf(out.dst.value) == ""
  {
    hide Id;
    PutIsFound(src, Id(s.ids.range, s.ids.next));
    assert FindId([IdField(other)]) == 0;
  }

  // ----- from MIME text to MIME text -----

  /** What a caller may do with a handle between decoding and encoding. */
  datatype Use = ToEncrypt(engine: Engine) | ToDecrypt(engine: Engine)

  function UseStep(s: State, h: Msg, use: Use): (State, Output) {
    match use
    case ToEncrypt(engine) => StepEncrypt(s, h, engine)
    case ToDecrypt(engine) => StepDecrypt(s, Some(h), engine, false)
  }

  /** A series of calls on the same handle. */
  function UseAll(s: State, h: Msg, uses: seq<Use>): (State, Msg)
    decreases |uses|
  {
    if uses == [] then (s, h)
    else
      var (t, out) := UseStep(s, h, uses[0]);
      UseAll(t, if out.handle.Some? then out.handle.value else h, uses[1..])
  }

  /** The engine functions leave the source message as it is. */
  ghost predicate LeavesSource(use: Use) {
    forall m: Msg :: use.engine(m).src == m
  }

  /** The attachments after these calls: a decryption corrects their order. */
  function OrderAfter(bl: seq<Blob>, uses: seq<Use>): seq<Blob> {
    if exists i :: 0 <= i < |uses| && uses[i].ToDecrypt? then CorrectOrder(bl) else bl
  }

  /** A message, held for the caller under `id` in the cache `rest` plus that one entry, with `h` as
      its handle and attachments `bl`. */
  predicate Held(rest: Cache, id: string, m: Msg, bl: seq<Blob>, s: State, h: Msg) {
    && id in s.cache && Erase(s.cache, id) == rest
    && s.cache[id].src.content == m.content.(attachments := bl)
    && h.(content := NOTHING) == SlimCopy(PutIdIn(m, id), "", false).(content := NOTHING)
  }

  lemma HeldId(rest: Cache, id: string, m: Msg, bl: seq<Blob>, s: State, h: Msg)
    requires Held(rest, id, m, bl, s, h)
    ensures IdOf(h) == id
  {
  }

  lemma UseKeepsHeld(rest: Cache, id: string, m: Msg, bl: seq<Blob>, s: State, h: Msg, use: Use)
    requires id != "" && Held(rest, id, m, bl, s, h) && LeavesSource(use)
    ensures var (t, out) := UseStep(s, h, use);
      out.handle.Some? && Held(rest, id, m, if use.ToDecrypt? then CorrectOrder(bl) else bl, t, out.handle.value)
  {
  }

  lemma OrderAfterNone(bl: seq<Blob>)
    ensures OrderAfter(bl, []) == bl
  {
  }

  lemma OrderAfterFirst(bl: seq<Blob>, uses: seq<Use>)
    requires uses != []
    ensures OrderAfter(bl, uses) == OrderAfter(if uses[0].ToDecrypt? then CorrectOrder(bl) else bl, uses[1..])
  {
  }

  lemma {:induction false} UsesKeepHeld(rest: Cache, id: string, m: Msg, bl: seq<Blob>, s: State, h: Msg,
                                        uses: seq<Use>)
    requires id != "" && Held(rest, id, m, bl, s, h)
    requires forall i :: 0 <= i < |uses| ==> LeavesSource(uses[i])
    ensures var (t, h') := UseAll(s, h, uses); Held(rest, id, m, OrderAfter(bl, uses), t, h')
    decreases |uses|
  {
    hide Held, UseStep, OrderAfter, LeavesSource, CorrectOrder;
    OrderAfterNone(bl);
    if uses != [] {
      UseKeepsHeld(rest, id, m, bl, s, h, uses[0]);
      var (t, out) := UseStep(s, h, uses[0]);
      var bl' := if uses[0].ToDecrypt? then CorrectOrder(bl) else bl;
      UsesKeepHeld(rest, id, m, bl', t, out.handle.value, uses[1..]);
      OrderAfterFirst(bl, uses);
    }
  }

  /** A parsed message as it comes out again: the empty subject and the empty list of optional
      fields as null, without what slim copies never carry. */
  function Normal(m: Msg, bl: seq<Blob>): Msg {
    var subject := if m.header.shortmsg == Some("") then None else m.header.shortmsg;
    Msg(m.header.(shortmsg := subject, others := 0), m.content.(attachments := bl), m.referedBy,
        if m.optFields == [] || m.optFields[0] == None then [] else m.optFields)
  }

  lemma DecodedIsHeld(s: State, m: Msg)
    requires Fresh(s)
    ensures var id := Id(s.ids.range, s.ids.next);
      var (t, out) := StepDecode(s, Ok, m);
      id != "" && out.dst.Some? && Held(s.cache, id, m, m.content.attachments, t, out.dst.value)
  {
  }

  /** Decoding a message, using its handle in any number of calls whose engine leaves the source
      alone, and encoding the source again: the encoder is given the parsed message, without the ID,
      and the cache is as it was before. */
  lemma RoundTrip(s: State, m: Msg, uses: seq<Use>, encoder: Encoder)
    requires Fresh(s)
    requires forall i :: 0 <= i < |uses| ==> LeavesSource(uses[i])
    ensures var (s1, decoded) := StepDecode(s, Ok, m);
      && decoded.dst.Some?
      && var (s2, h) := UseAll(s1, decoded.dst.value, uses);
         var (s3, encoded) := StepEncode(s2, MSG_SRC, Some(h), encoder);
         && encoded.given.Some?
         && (var out := encoded.given.value;
             && out.header.(shortmsg := m.header.shortmsg, others := m.header.others) == m.header
             && out.header.shortmsg == (if m.header.shortmsg == Some("") then None else m.header.shortmsg)
             && out.content.longmsg == m.content.longmsg
             && out.content.longmsgFormatted == m.content.longmsgFormatted
             && out.content.attachments == OrderAfter(m.content.attachments, uses)
             && out.referedBy == m.referedBy
             && out.optFields == (if m.optFields == [] || m.optFields[0] == None then [] else m.optFields))
         && encoded.result == Returned(encoder(encoded.given.value))
         && s3.cache == s.cache
  {
    hide Id, Held, StepDecode, UseAll, StepEncode, OrderAfter, LeavesSource;
    DecodedIsHeld(s, m);
    var id := Id(s.ids.range, s.ids.next);
    var (s1, decoded) := StepDecode(s, Ok, m);
    UsesKeepHeld(s.cache, id, m, m.content.attachments, s1, decoded.dst.value, uses);
    var (s2, h) := UseAll(s1, decoded.dst.value, uses);
    EncodeHeld(s.cache, id, m, OrderAfter(m.content.attachments, uses), s2, h, encoder);
  }

  lemma EncodeHeld(rest: Cache, id: string, m: Msg, bl: seq<Blob>, s: State, h: Msg, encoder: Encoder)
    requires id != "" && Held(rest, id, m, bl, s, h)
    ensures var (t, out) := StepEncode(s, MSG_SRC, Some(h), encoder);
      && out.given == Some(Normal(m, bl))
      && out.result == Returned(encoder(Normal(m, bl)))
      && t.cache == rest
  {
    hide IdOf, RemoveIdFrom, SlimCopy, PutIdIn, Held, Normal, Take;
    HeldId(rest, id, m, bl, s, h);
    TakenIsNormal(rest, id, m, bl, s, h);
  }

  lemma TakenIsNormal(rest: Cache, id: string, m: Msg, bl: seq<Blob>, s: State, h: Msg)
    requires id != "" && Held(rest, id, m, bl, s, h)
    ensures var (c, full) := Take(s.cache, id, SlimCopy(h, "", false));
      RemoveIdFrom(full) == Normal(m, bl) && Erase(c, id) == rest && id in s.cache
  {
    hide IdOf, RemoveId, PutId;
    PutThenFindAndRemove(m.optFields, id);
    var part := SlimCopy(h, "", false);
    assert part.(content := NOTHING) == SlimCopy(PutIdIn(m, id), "", false).(content := NOTHING);
    var (c, full) := Take(s.cache, id, part);
    assert full == part.(content := NOTHING).(content := m.content.(attachments := bl));
    assert Erase(c, id) == Erase(s.cache, id);
  }
}
