/** The message cache on values: its operations as they are composed of lock sections and engine
    calls, and what they amount to (src/message_cache.cc). */
module CacheModel {
  import opened Common
  import opened OptFields
  import opened CacheIds
  import opened Messages

  datatype Entry = Entry(src: Msg, dst: Option<Msg>)

  type Cache = map<string, Entry>

  datatype State = State(cache: Cache, ids: Generator)

  /** What an engine call leaves: its status, the source message and a new message or none. */
  datatype Reply = Reply(status: Status, src: Msg, dst: Option<Msg>)

  /** `::encrypt_message`, `::encrypt_message_for_self` or `::decrypt_message` with everything but
      the message fixed. It may do anything to the source message. */
  type Engine = Msg -> Reply

  /** `::mime_encode_message`, likewise. */
  type Encoder = Msg -> Status

  /** How a call ends: it returns, or `at` throws std::out_of_range. */
  datatype Result = Returned(status: Status) | Thrown

  /** What the caller and the engine see of a call: the outcome, the message the engine or the
      encoder was given, the caller's message afterwards, and the message returned through `dst`. */
  datatype Output = Output(result: Result, given: Option<Msg>, handle: Option<Msg>, dst: Option<Msg>)

  datatype Call =
    | Decode(status: Status, parsed: Msg)
    | Encode(one: int, msg: Option<Msg>, encoder: Encoder)
    | Decrypt(msg: Option<Msg>, engine: Engine, full: bool)
    // encrypt_message and encrypt_message_for_self, which differ in the engine function only
    | Encrypt(src: Msg, engine: Engine)
    | FullInput(src: Msg, engine: Engine)
    | Release(id: string)

  const MSG_SRC := 0
  const MSG_DST := 1

  function IdOf(m: Msg): string {
    CacheId(m.optFields)
  }

  function PutIdIn(m: Msg, id: string): Msg {
    m.(optFields := PutId(m.optFields, id))
  }

  function RemoveIdFrom(m: Msg): Msg {
    m.(optFields := RemoveId(m.optFields))
  }

  lemma PutIsFound(m: Msg, id: string)
    ensures IdOf(PutIdIn(m, id)) == id
    ensures IdOf(SlimCopy(PutIdIn(m, id), "", false)) == id
  {
  }

  // ----- the lock sections -----

  /** The content of the cached source moves into the caller's message. */
  function Take(c: Cache, id: string, handle: Msg): (Cache, Msg)
    requires id in c
  {
    var (h, cached) := SwapContent(handle, c[id].src);
    (c[id := c[id].(src := cached)], h)
  }

  /** The content of the caller's message moves back. */
  function GiveBack(c: Cache, id: string, handle: Msg): (Cache, Msg)
    requires id in c
  {
    var (cached, h) := SwapContent(c[id].src, handle);
    (c[id := c[id].(src := cached)], h)
  }

  function SetDst(c: Cache, id: string, dst: Option<Msg>): Cache
    requires id in c
  {
    c[id := c[id].(dst := dst)]
  }

  /** The content of the cached destination moves out. */
  function TakeDst(c: Cache, id: string, part: Msg): (Cache, Msg)
    requires id in c && c[id].dst.Some?
  {
    var (p, cached) := SwapContent(part, c[id].dst.value);
    (SetDst(c, id, Some(cached)), p)
  }

  function Erase(c: Cache, id: string): Cache {
    c - {id}
  }

  /** `emplace` does nothing when the key is there already. */
  function Emplace(c: Cache, id: string, e: Entry): Cache {
    if id in c then c else c[id := e]
  }

  /** No key is overwritten, and no other is touched. */
  lemma EmplaceContract(c: Cache, id: string, e: Entry)
    ensures var d := Emplace(c, id, e);
      && id in d && d[id] == (if id in c then c[id] else e)
      && d.Keys == c.Keys + {id} && forall x :: x in c ==> d[x] == c[x]
  {
  }

  // ----- the operations -----

  function StepDecode(s: State, status: Status, parsed: Msg): (State, Output) {
    if status != Ok then (s, Output(Returned(status), None, None, None))
    else
      var id := Id(s.ids.range, s.ids.next);
      var msg := PutIdIn(parsed, id);
      (State(Emplace(s.cache, IdOf(msg), Entry(msg, None)), s.ids.(next := s.ids.next + 1)),
       Output(Returned(status), None, None, Some(SlimCopy(msg, "", false))))
  }

  function StepEncode(s: State, one: int, msg: Option<Msg>, encoder: Encoder): (State, Output) {
    if msg.None? || IdOf(msg.value) == "" || (one != MSG_SRC && one != MSG_DST) then
      (s, Output(Returned(IllegalValue), None, msg, None))
    else
      var id := IdOf(msg.value);
      if id !in s.cache then (s, Output(Thrown, None, msg, None))
      else if one == MSG_DST && s.cache[id].dst.None? then
        (s, Output(Returned(IllegalValue), None, msg, None))
      else
        var part := SlimCopy(msg.value, "", false);
        var (cache, full) := if one == MSG_SRC then Take(s.cache, id, part) else TakeDst(s.cache, id, part);
        var given := RemoveIdFrom(full);
        (s.(cache := Erase(cache, id)), Output(Returned(encoder(given)), Some(given), msg, None))
  }

  function StepDecrypt(s: State, msg: Option<Msg>, engine: Engine, full: bool): (State, Output) {
    if msg.None? || IdOf(msg.value) == "" then (s, Output(Returned(IllegalValue), None, msg, None))
    else
      var id := IdOf(msg.value);
      if id !in s.cache then (s, Output(Thrown, None, msg, None))
      else
        var (taken, handle) := Take(s.cache, id, msg.value);
        var given := Reordered(handle);
        var reply := engine(given);
        var (back, slim) := GiveBack(taken, id, reply.src);
        var cache := if full then Erase(back, id) else SetDst(back, id, reply.dst);
        var dst := if full then reply.dst else SlimCopyOpt(reply.dst, id, true);
        (s.(cache := cache), Output(Returned(reply.status), Some(given), Some(slim), dst))
  }

  function StepEncrypt(s: State, src: Msg, engine: Engine): (State, Output) {
    var id := IdOf(src);
    if id !in s.cache then (s, Output(Thrown, None, Some(src), None))
    else
      var (taken, given) := Take(s.cache, id, src);
      var reply := engine(given);
      var (back, slim) := GiveBack(taken, id, reply.src);
      (s.(cache := SetDst(back, id, reply.dst)),
       Output(Returned(reply.status), Some(given), Some(slim), SlimCopyOpt(reply.dst, id, false)))
  }

  function StepFullInput(s: State, src: Msg, engine: Engine): (State, Output) {
    var id := Id(s.ids.range, s.ids.next);
    var ids := s.ids.(next := s.ids.next + 1);
    var given := PutIdIn(src, id);
    var reply := engine(given);
    if reply.status != Ok && reply.status != Unencrypted then
      (s.(ids := ids), Output(Returned(reply.status), Some(given), Some(reply.src), None))
    else
      var dst := if reply.dst.Some? then Some(PutIdIn(reply.dst.value, IdOf(given))) else None;
      var msg := if dst.Some? then dst.value else reply.src;
      (State(Emplace(s.cache, IdOf(given), Entry(reply.src, dst)), ids),
       Output(Returned(reply.status), Some(given), Some(reply.src), Some(SlimCopy(msg, "", false))))
  }

  function Step(s: State, call: Call): (State, Output) {
    match call
    case Decode(status, parsed) => StepDecode(s, status, parsed)
    case Encode(one, msg, encoder) => StepEncode(s, one, msg, encoder)
    case Decrypt(msg, engine, full) => StepDecrypt(s, msg, engine, full)
    case Encrypt(src, engine) => StepEncrypt(s, src, engine)
    case FullInput(src, engine) => StepFullInput(s, src, engine)
    case Release(id) => (s.(cache := Erase(s.cache, id)), Output(Returned(Ok), None, None, None))
  }

  function Run(s: State, calls: seq<Call>): (State, seq<Output>)
    decreases |calls|
  {
    if calls == [] then (s, [])
    else
      var (next, out) := Step(s, calls[0]);
      var (last, outs) := Run(next, calls[1..]);
      (last, [out] + outs)
  }

  // ----- fresh keys -----

  /** No ID the generator has yet to produce is in the cache, and the empty one is not. */
  ghost predicate Fresh(s: State) {
    && "" !in s.cache
    && (forall n: nat :: s.ids.next <= n ==> Id(s.ids.range, n) !in s.cache)
  }

  lemma StepKeepsFresh(s: State, call: Call)
    requires Fresh(s)
    ensures Fresh(Step(s, call).0)
  {
    var t := Step(s, call).0;
    var id := Id(s.ids.range, s.ids.next);
    assert forall x :: x in t.cache ==> x in s.cache || x == id by { KeysOfStep(s, call); }
    forall n: nat | t.ids.next <= n ensures Id(t.ids.range, n) !in t.cache {
      if id == Id(s.ids.range, n) && t.ids.next == s.ids.next + 1 { IdInjective(s.ids.range, s.ids.next, n); }
    }
  }

  lemma IdIsNotEmpty(g: Generator)
    ensures Id(g.range, g.next) != ""
  {
  }

  /** A call adds at most the key generated next, and then advances the generator. */
  lemma KeysOfStep(s: State, call: Call)
    ensures var t := Step(s, call).0;
      var id := Id(s.ids.range, s.ids.next);
      && t.ids.range == s.ids.range
      && (forall x :: x in t.cache ==> x in s.cache || (x == id && t.ids.next == s.ids.next + 1))
      && (t.ids.next == s.ids.next || t.ids.next == s.ids.next + 1)
      && id != ""
  {
    hide IdOf, PutIdIn, Id, SlimCopy;
    var id := Id(s.ids.range, s.ids.next);
    IdIsNotEmpty(s.ids);
    match call
    case Decode(status, parsed) => PutIsFound(parsed, id);
    case FullInput(src, engine) => PutIsFound(src, id);
    case _ =>
  }

  lemma {:induction false} RunKeepsFresh(s: State, calls: seq<Call>)
    requires Fresh(s)
    ensures Fresh(Run(s, calls).0)
    decreases |calls|
  {
    if calls != [] {
      StepKeepsFresh(s, calls[0]);
      RunKeepsFresh(Step(s, calls[0]).0, calls[1..]);
    }
  }
}
