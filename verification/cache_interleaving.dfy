/** Calls split at their lock sections, in any interleaving with at most one call on a cache ID at a
    time: for every ID a program of calls, one after the other (src/message_cache.cc). */
module CacheInterleaving {
  import opened Common
  import opened Messages
  import opened CacheModel

  datatype Task =
    | Decrypting(engine: Engine, full: bool)
    | Encrypting(engine: Engine)
    | Encoding(one: int, encoder: Encoder)
    | Releasing

  /** How far a call has come. */
  datatype Pc =
    | Begin    // before the first lock section
    | Out      // the content is out; before the engine call, which holds no lock
    | Called   // before the second lock section
    | Back     // full output: before the release
    | Done

  /** A call under way: its caller's message, the message it works on, and what it will return. */
  datatype Job = Job(
    task: Task,
    id: string,
    pc: Pc,
    handle: Msg,
    work: Msg,
    reply: Option<Msg>,   // the new message the engine made, until the cache has it
    given: Option<Msg>,
    out: Option<Msg>,
    result: Result)

  /** A call about to start, on a message that carries a live or a stale ID. */
  predicate Ready(j: Job) {
    && j.pc == Begin && j.work == j.handle
    && (j.task.Releasing? || (j.id == IdOf(j.handle) && j.id != ""))
    && j.given == None && j.out == None && j.reply == None && j.result == Returned(Ok)
    && (j.task.Encoding? ==> j.task.one in {MSG_SRC, MSG_DST})
  }

  function Fail(j: Job, result: Result): Job {
    j.(pc := Done, result := result)
  }

  /** The first lock section, which is all there is of a release. */
  function FirstSection(c: Cache, j: Job): (Cache, Job) {
    match j.task
    case Releasing => (Erase(c, j.id), j.(pc := Done))
    case Encoding(one, _) =>
      if j.id !in c then (c, Fail(j, Thrown))
      else if one == MSG_DST && c[j.id].dst.None? then (c, Fail(j, Returned(IllegalValue)))
      else
        var part := SlimCopy(j.handle, "", false);
        var (c', full) := if one == MSG_DST then TakeDst(c, j.id, part) else Take(c, j.id, part);
        (c', j.(work := full, pc := Out))
    case _ =>
      if j.id !in c then (c, Fail(j, Thrown))
      else
        var (c', full) := Take(c, j.id, j.handle);
        (c', j.(handle := full, work := full, pc := Out))
  }

  /** The call into the engine, between the sections. */
  function EngineCall(j: Job): Job {
    match j.task
    case Decrypting(engine, full) =>
      var given := Reordered(j.work);
      var r := engine(given);
      j.(pc := Called, handle := r.src, work := r.src, reply := if full then None else r.dst, given := Some(given),
         out := if full then r.dst else SlimCopyOpt(r.dst, j.id, true), result := Returned(r.status))
    case Encrypting(engine) =>
      var r := engine(j.work);
      j.(pc := Called, handle := r.src, work := r.src, reply := r.dst, given := Some(j.work),
         out := SlimCopyOpt(r.dst, j.id, false), result := Returned(r.status))
    case Encoding(_, encoder) =>
      var given := RemoveIdFrom(j.work);
      j.(pc := Called, work := j.handle, given := Some(given), result := Returned(encoder(given)))
    case Releasing => j.(pc := Done)
  }

  /** The second lock section; for encoding it is the release. */
  function SecondSection(c: Cache, j: Job): (Cache, Job) {
    if j.task.Encoding? then (Erase(c, j.id), j.(pc := Done))
    else if j.id !in c then (c, Fail(j, Thrown))
    else
      var (c', slim) := GiveBack(c, j.id, j.handle);
      var done := j.(handle := slim, work := slim, reply := None,
                     pc := if j.task.Decrypting? && j.task.full then Back else Done);
      (if j.task.Decrypting? && j.task.full then c' else SetDst(c', j.id, j.reply), done)
  }

  function JobStep(c: Cache, j: Job): (Cache, Job) {
    match j.pc
    case Begin => FirstSection(c, j)
    case Out => (c, EngineCall(j))
    case Called => SecondSection(c, j)
    case Back => (Erase(c, j.id), j.(pc := Done))
    case Done => (c, j)
  }

  /** What a caller does next with the message it holds: it edits it, and makes a call with it. */
  datatype Request = Request(task: Task, edit: Msg -> Msg)

  /** The next call under an ID. A request that is none, because the message no longer carries the ID
      or a wrong choice is to be encoded, is passed over. */
  function Start(id: string, handle: Msg, r: Request): Job {
    var m := r.edit(handle);
    var j := Job(r.task, id, Begin, m, m, None, None, None, Returned(Ok));
    if Ready(j) then j else j.(pc := Done)
  }

  /** A request is a call on the message as its caller edited it, if that carries the ID, which a release
      need not, and names one of the two messages to encode; else it only edits. */
  lemma StartContract(id: string, handle: Msg, r: Request)
    ensures var j := Start(id, handle, r);
      && j.id == id && j.task == r.task && j.handle == j.work == r.edit(handle)
      && j.pc == (if (r.task.Releasing? || (id == IdOf(r.edit(handle)) && id != ""))
                     && (r.task.Encoding? ==> r.task.one == 0 || r.task.one == 1) then Begin else Done)
      && j.reply == None && j.given == None && j.out == None && j.result == Returned(Ok)
  {
  }

  function OutputOf(j: Job): Output {
    Output(j.result, j.given, if j.task.Releasing? then None else Some(j.handle), j.out)
  }

  /** What a call has come to. */
  datatype Record = Record(task: Task, output: Output)

  /** The calls under one ID: the one under way or just over, those to come, and what became of the
      earlier ones. */
  datatype Line = Line(job: Job, rest: seq<Request>, told: seq<Record>)

  function LineStep(c: Cache, l: Line): (Cache, Line) {
    if l.job.pc != Done then
      var (d, j) := JobStep(c, l.job);
      (d, Line(j, l.rest, if j.pc == Done then l.told + [Record(j.task, OutputOf(j))] else l.told))
    else if l.rest != [] then (c, Line(Start(l.job.id, l.job.handle, l.rest[0]), l.rest[1..], l.told))
    else (c, l)
  }

  predicate Finished(l: Line) {
    l.job.pc == Done && l.rest == []
  }

  datatype World = World(cache: Cache, lines: seq<Line>)

  /** The schedule names the line that takes each step. */
  function Interleave(w: World, schedule: seq<nat>): World
    decreases |schedule|
  {
    if schedule == [] then w
    else if schedule[0] >= |w.lines| then Interleave(w, schedule[1..])
    else
      var i := schedule[0];
      var (c, l) := LineStep(w.cache, w.lines[i]);
      Interleave(World(c, w.lines[i := l]), schedule[1..])
  }

  /** At most one call on an ID at a time. */
  predicate DistinctIds(lines: seq<Line>) {
    forall i, j :: 0 <= i < j < |lines| ==> lines[i].job.id != lines[j].job.id
  }

  // ----- a call sees its own entry only -----

  function View(c: Cache, id: string): Option<Entry> {
    if id in c then Some(c[id]) else None
  }

  function Alone(v: Option<Entry>, id: string): Cache {
    if v.Some? then map[id := v.value] else map[]
  }

  /** `n` steps of a line that is alone with its entry. */
  function Iterate(v: Option<Entry>, l: Line, n: nat): (Option<Entry>, Line)
    decreases n
  {
    if n == 0 then (v, l)
    else
      var (c, next) := LineStep(Alone(v, l.job.id), l);
      Iterate(View(c, l.job.id), next, n - 1)
  }

  lemma JobStepIsLocal(c: Cache, j: Job)
    ensures var (c', j') := JobStep(c, j);
      var (a, b) := JobStep(Alone(View(c, j.id), j.id), j);
      && j' == b && j'.id == j.id && j'.task == j.task
      && View(c', j.id) == View(a, j.id)
      && forall x :: x != j.id ==> View(c', x) == View(c, x)
  {
  }

  lemma StepIsLocal(c: Cache, l: Line)
    ensures var (c', l') := LineStep(c, l);
      var (a, b) := LineStep(Alone(View(c, l.job.id), l.job.id), l);
      && l' == b && l'.job.id == l.job.id
      && View(c', l.job.id) == View(a, l.job.id)
      && forall x :: x != l.job.id ==> View(c', x) == View(c, x)
  {
    hide JobStep, Ready;
    JobStepIsLocal(c, l.job);
  }

  function Ids(lines: seq<Line>): set<string> {
    set i | 0 <= i < |lines| :: lines[i].job.id
  }

  /** Entries under other IDs are the same. */
  ghost predicate SameElsewhere(c: Cache, d: Cache, ids: set<string>) {
    forall x :: x !in ids ==> View(c, x) == View(d, x)
  }

  /** Line `i` and its entry are where `n` steps of the line alone take them from `w`. */
  ghost predicate Arrived(w: World, t: World, i: nat, n: nat)
    requires i < |w.lines| && |t.lines| == |w.lines|
  {
    (View(t.cache, w.lines[i].job.id), t.lines[i]) == Iterate(View(w.cache, w.lines[i].job.id), w.lines[i], n)
  }

  /** One step of line `k`, seen from line `i`. */
  lemma ArrivedStep(w: World, k: nat, t: World, i: nat, n: nat)
    requires DistinctIds(w.lines) && k < |w.lines| && i < |w.lines| && |t.lines| == |w.lines|
    requires var (c, l) := LineStep(w.cache, w.lines[k]); Arrived(World(c, w.lines[k := l]), t, i, n)
    ensures Arrived(w, t, i, if i == k then n + 1 else n)
  {
    hide LineStep;
    StepIsLocal(w.cache, w.lines[k]);
  }

  /** After any interleaving every line and its entry are where that many steps of the line alone
      would have taken them, and every other entry is untouched. */
  lemma {:induction false} InterleaveIsLocal(w: World, schedule: seq<nat>)
    requires DistinctIds(w.lines)
    ensures var t := Interleave(w, schedule);
      && |t.lines| == |w.lines|
      && (forall i :: 0 <= i < |w.lines| ==> Arrived(w, t, i, multiset(schedule)[i]))
      && SameElsewhere(w.cache, t.cache, Ids(w.lines))
    decreases |schedule|
  {
    hide LineStep, Arrived;
    if schedule == [] {
      forall i | 0 <= i < |w.lines| ensures Arrived(w, w, i, 0) { ArrivedNow(w, i); }
    } else {
      var k: nat, rest: seq<nat> := schedule[0], schedule[1..];
      assert schedule == [k] + rest;
      if k >= |w.lines| {
        InterleaveIsLocal(w, rest);
      } else {
        var (c, l) := LineStep(w.cache, w.lines[k]);
        var next := World(c, w.lines[k := l]);
        StepIsLocal(w.cache, w.lines[k]);
        InterleaveIsLocal(next, rest);
        var t := Interleave(next, rest);
        forall i | 0 <= i < |w.lines| ensures Arrived(w, t, i, multiset(schedule)[i]) {
          ArrivedStep(w, k, t, i, multiset(rest)[i]);
        }
        assert Ids(next.lines) == Ids(w.lines) by { SameIds(w.lines, k, l); }
        assert w.lines[k].job.id in Ids(w.lines);
      }
    }
  }

  lemma ArrivedNow(w: World, i: nat)
    requires i < |w.lines|
    ensures Arrived(w, w, i, 0)
  {
  }

  lemma SameIds(lines: seq<Line>, k: nat, l: Line)
    requires k < |lines| && l.job.id == lines[k].job.id
    ensures Ids(lines[k := l]) == Ids(lines)
  {
    var next := lines[k := l];
    assert forall i :: 0 <= i < |lines| ==> next[i].job.id == lines[i].job.id;
    forall x ensures x in Ids(next) <==> x in Ids(lines) {
      if x in Ids(lines) { var i :| 0 <= i < |lines| && lines[i].job.id == x; assert next[i].job.id == x; }
      if x in Ids(next) { var i :| 0 <= i < |lines| && next[i].job.id == x; assert lines[i].job.id == x; }
    }
  }

  /** The order of steps does not matter: two schedules that give every line the same number of
      steps end in the same cache, the same messages and the same results. */
  lemma OrderIsIrrelevant(w: World, one: seq<nat>, two: seq<nat>)
    requires DistinctIds(w.lines)
    requires forall i :: 0 <= i < |w.lines| ==> multiset(one)[i] == multiset(two)[i]
    ensures Interleave(w, one) == Interleave(w, two)
  {
    hide Interleave, Iterate;
    InterleaveIsLocal(w, one);
    InterleaveIsLocal(w, two);
    var a, b := Interleave(w, one), Interleave(w, two);
    forall i | 0 <= i < |w.lines|
      ensures a.lines[i] == b.lines[i] && View(a.cache, w.lines[i].job.id) == View(b.cache, w.lines[i].job.id)
    {
      assert Arrived(w, a, i, multiset(one)[i]) && Arrived(w, b, i, multiset(two)[i]);
    }
    SameCache(w.cache, w.lines, a.cache, b.cache);
  }

  /** What callers have been told stays told. */
  lemma {:induction false} ToldGrows(w: World, schedule: seq<nat>)
    ensures var t := Interleave(w, schedule);
      |t.lines| == |w.lines| && forall i :: 0 <= i < |w.lines| ==> w.lines[i].told <= t.lines[i].told
    decreases |schedule|
  {
    hide JobStep, Ready;
    if schedule != [] {
      var k := schedule[0];
      if k >= |w.lines| {
        ToldGrows(w, schedule[1..]);
      } else {
        var (c, l) := LineStep(w.cache, w.lines[k]);
        var next := World(c, w.lines[k := l]);
        ToldGrows(next, schedule[1..]);
        forall i | 0 <= i < |w.lines| ensures w.lines[i].told <= next.lines[i].told {}
      }
    }
  }

  lemma SameCache(c: Cache, lines: seq<Line>, a: Cache, b: Cache)
    requires forall i :: 0 <= i < |lines| ==> View(a, lines[i].job.id) == View(b, lines[i].job.id)
    requires SameElsewhere(c, a, Ids(lines)) && SameElsewhere(c, b, Ids(lines))
    ensures a == b
  {
    forall x ensures View(a, x) == View(b, x) {
      if x in Ids(lines) {
        var i :| 0 <= i < |lines| && lines[i].job.id == x;
      } else {
        assert View(a, x) == View(c, x) == View(b, x);
      }
    }
    assert forall x :: x in a ==> View(a, x) == View(b, x);
    assert forall x :: x in b ==> View(a, x) == View(b, x);
  }

  // ----- one after another -----

  /** The call as one atomic operation of the cache. */
  function AtOnce(s: State, j: Job): (State, Output) {
    match j.task
    case Decrypting(engine, full) => StepDecrypt(s, Some(j.handle), engine, full)
    case Encrypting(engine) => StepEncrypt(s, j.handle, engine)
    case Encoding(one, encoder) => StepEncode(s, one, Some(j.handle), encoder)
    case Releasing => Step(s, Release(j.id))
  }

  function FourSteps(c: Cache, j: Job): (Cache, Job) {
    var (c1, j1) := JobStep(c, j);
    var (c2, j2) := JobStep(c1, j1);
    var (c3, j3) := JobStep(c2, j2);
    JobStep(c3, j3)
  }

  /** Four steps undisturbed are the operation. */
  lemma SectionsMakeTheOperation(s: State, j: Job)
    requires Ready(j)
    ensures var (c, k) := FourSteps(s.cache, j);
      && k.pc == Done
      && AtOnce(s, j) == (s.(cache := c), OutputOf(k))
  {
    match j.task
    case Decrypting(engine, full) => DecryptSections(s, j);
    case Encrypting(engine) => EncryptSections(s, j);
    case Encoding(one, encoder) => EncodeSections(s, j);
    case Releasing =>
  }

  lemma DecryptSections(s: State, j: Job)
    requires Ready(j) && j.task.Decrypting?
    ensures var (c, k) := FourSteps(s.cache, j);
      k.pc == Done && AtOnce(s, j) == (s.(cache := c), OutputOf(k))
  {
    hide IdOf;
  }

  lemma EncryptSections(s: State, j: Job)
    requires Ready(j) && j.task.Encrypting?
    ensures var (c, k) := FourSteps(s.cache, j);
      k.pc == Done && AtOnce(s, j) == (s.(cache := c), OutputOf(k))
  {
    hide IdOf;
  }

  lemma EncodeSections(s: State, j: Job)
    requires Ready(j) && j.task.Encoding?
    ensures var (c, k) := FourSteps(s.cache, j);
      k.pc == Done && AtOnce(s, j) == (s.(cache := c), OutputOf(k))
  {
    hide IdOf, RemoveIdFrom, SlimCopy;
  }

  /** The calls of one line as atomic operations, in order: the cache, the caller's message, and what
      became of the calls. */
  function Serial(s: State, id: string, handle: Msg, rest: seq<Request>): (State, Msg, seq<Record>)
    decreases |rest|
  {
    if rest == [] then (s, handle, [])
    else
      var j := Start(id, handle, rest[0]);
      if j.pc == Done then Serial(s, id, j.handle, rest[1..])
      else
        var (t, out) := AtOnce(s, j);
        var (u, last, more) := Serial(t, id, if out.handle.Some? then out.handle.value else j.handle, rest[1..]);
        (u, last, [Record(j.task, out)] + more)
  }

  /** Where the calls of a line have come to one after another. */
  datatype Ending = Ending(handle: Msg, told: seq<Record>)

  /** All lines, one after another. */
  function OneByOne(s: State, lines: seq<Line>): (r: (State, seq<Ending>))
    ensures |r.1| == |lines|
  {
    if lines == [] then (s, [])
    else
      var l := lines[|lines| - 1];
      var (t, ends) := OneByOne(s, lines[..|lines| - 1]);
      var (u, handle, more) := Serial(t, l.job.id, l.job.handle, l.rest);
      (u, ends + [Ending(handle, l.told + more)])
  }

  /** How many steps a call takes at most, and a line. */
  function JobLeft(j: Job): nat {
    match j.pc
    case Begin => 4
    case Out => 3
    case Called => 2
    case Back => 1
    case Done => 0
  }

  function Left(l: Line): nat {
    JobLeft(l.job) + 5 * |l.rest|
  }

  lemma JobGoesOn(c: Cache, j: Job)
    requires j.pc != Done
    ensures JobLeft(JobStep(c, j).1) < JobLeft(j)
  {
  }

  lemma GoesOn(c: Cache, l: Line)
    requires !Finished(l)
    ensures Left(LineStep(c, l).1) < Left(l)
  {
    hide JobStep, Ready;
    if l.job.pc != Done { JobGoesOn(c, l.job); }
  }

  /** A line alone with its entry, to the end. */
  function Finish(v: Option<Entry>, l: Line): (Option<Entry>, Line)
    decreases Left(l)
  {
    if Finished(l) then (v, l)
    else
      var (c, next) := LineStep(Alone(v, l.job.id), l);
      GoesOn(Alone(v, l.job.id), l);
      Finish(View(c, l.job.id), next)
  }

  lemma {:induction false} IterateFinishes(v: Option<Entry>, l: Line, n: nat)
    requires n >= Left(l)
    ensures Iterate(v, l, n) == Finish(v, l)
    decreases n
  {
    hide LineStep;
    if n > 0 {
      var (c, next) := LineStep(Alone(v, l.job.id), l);
      if Finished(l) { FinishedStays(Alone(v, l.job.id), l); } else { GoesOn(Alone(v, l.job.id), l); }
      ViewAlone(v, l.job.id);
      IterateFinishes(View(c, l.job.id), next, n - 1);
    }
  }

  lemma FinishedStays(c: Cache, l: Line)
    requires Finished(l)
    ensures LineStep(c, l) == (c, l)
  {
  }

  lemma ViewAlone(v: Option<Entry>, id: string)
    ensures View(Alone(v, id), id) == v
  {
  }

  /** A call, undisturbed, to its end. */
  function JobRun(c: Cache, j: Job): (Cache, Job)
    decreases JobLeft(j)
  {
    if j.pc == Done then (c, j)
    else
      var (d, k) := JobStep(c, j);
      JobGoesOn(c, j);
      JobRun(d, k)
  }

  lemma DoneStays(c: Cache, j: Job)
    requires j.pc == Done
    ensures JobStep(c, j) == (c, j) && JobRun(c, j) == (c, j)
  {
  }

  lemma FourStepsRun(c: Cache, j: Job)
    ensures JobRun(c, j) == FourSteps(c, j)
  {
    hide JobStep;
    var (c1, j1) := JobStep(c, j);
    var (c2, j2) := JobStep(c1, j1);
    var (c3, j3) := JobStep(c2, j2);
    var (c4, j4) := JobStep(c3, j3);
    OneStepRuns(c, j);
    OneStepRuns(c1, j1);
    OneStepRuns(c2, j2);
    OneStepRuns(c3, j3);
    assert JobLeft(j4) == 0;
    DoneStays(c4, j4);
  }

  lemma OneStepRuns(c: Cache, j: Job)
    ensures var (d, k) := JobStep(c, j); JobRun(c, j) == JobRun(d, k) && JobLeft(k) <= JobLeft(j)
    ensures var (d, k) := JobStep(c, j); JobLeft(k) < JobLeft(j) || JobLeft(j) == 0
  {
    hide JobStep;
    if j.pc == Done { DoneStays(c, j); } else { JobGoesOn(c, j); }
  }

  /** The call of a line, run to its end while the line is alone with its entry. */
  lemma {:induction false} CallFinishes(c: Cache, l: Line)
    requires l.job.pc != Done
    ensures var (d, k) := JobRun(c, l.job);
      && k.pc == Done && k.id == l.job.id && k.task == l.job.task
      && SameElsewhere(c, d, {k.id})
      && Finish(View(c, k.id), l)
         == Finish(View(d, k.id), Line(k, l.rest, l.told + [Record(k.task, OutputOf(k))]))
    decreases JobLeft(l.job)
  {
    hide JobStep;
    var (d, k) := JobStep(c, l.job);
    var next := LineStep(c, l).1;
    JobGoesOn(c, l.job);
    JobStepIsLocal(c, l.job);
    StepIsLocal(c, l);
    assert Finish(View(c, k.id), l) == Finish(View(d, k.id), next);
    if k.pc != Done { CallFinishes(d, next); }
  }

  lemma FinishedIsFinish(v: Option<Entry>, l: Line)
    requires Finished(l)
    ensures Finish(v, l) == (v, l)
  {
  }

  lemma StartFinishes(v: Option<Entry>, l: Line)
    requires l.job.pc == Done && l.rest != []
    ensures var j := Start(l.job.id, l.job.handle, l.rest[0]);
      j.id == l.job.id && j.task == l.rest[0].task && (j.pc == Done || Ready(j))
      && Finish(v, l) == Finish(v, Line(j, l.rest[1..], l.told))
  {
    hide Ready, JobStep;
    ViewAlone(v, l.job.id);
  }

  /** The calls of a line as atomic operations are the line alone with its entry. */
  lemma {:induction false} SerialFinishes(s: State, l: Line)
    requires l.job.pc == Done
    ensures var id := l.job.id;
      var (t, handle, told) := Serial(s, id, l.job.handle, l.rest);
      var (v, end) := Finish(View(s.cache, id), l);
      && View(t.cache, id) == v && SameElsewhere(s.cache, t.cache, {id})
      && Finished(end) && end.job.handle == handle && end.told == l.told + told
    decreases |l.rest|
  {
    hide AtOnce, Ready, FourSteps, JobRun, JobStep, Finish, Start;
    var id := l.job.id;
    if l.rest == [] {
      assert l.told + [] == l.told;
      FinishedIsFinish(View(s.cache, id), l);
    } else {
      var j := Start(id, l.job.handle, l.rest[0]);
      var next := Line(j, l.rest[1..], l.told);
      StartFinishes(View(s.cache, id), l);
      if j.pc == Done {
        SerialFinishes(s, next);
      } else {
        CallFinishes(s.cache, next);
        SectionsMakeTheOperation(s, j);
        FourStepsRun(s.cache, j);
        var (d, k) := JobRun(s.cache, j);
        var record := Record(j.task, OutputOf(k));
        SerialFinishes(s.(cache := d), Line(k, l.rest[1..], l.told + [record]));
        HandleStays(s.cache, j);
        var more := Serial(s.(cache := d), id, k.handle, l.rest[1..]).2;
        assert l.told + ([record] + more) == l.told + [record] + more;
      }
    }
  }

  /** A release, which returns no message, leaves the caller's as it is. */
  lemma HandleStays(c: Cache, j: Job)
    requires Ready(j)
    ensures j.task.Releasing? ==> JobRun(c, j).1.handle == j.handle
  {
    hide IdOf;
    if j.task.Releasing? { OneStepRuns(c, j); }
  }

  /** The entry, the message and the results a line comes to when it runs alone. */
  ghost predicate Settled(c: Cache, l: Line, d: Cache, e: Ending) {
    var (v, end) := Finish(View(c, l.job.id), l);
    View(d, l.job.id) == v && Finished(end) && e == Ending(end.job.handle, end.told)
  }

  /** Where the lines and the entries are after running all of them one after another. */
  lemma {:induction false} OneByOneIsLocal(s: State, lines: seq<Line>)
    requires DistinctIds(lines) && forall i :: 0 <= i < |lines| ==> lines[i].job.pc == Done
    ensures var (t, ends) := OneByOne(s, lines);
      && (forall i :: 0 <= i < |lines| ==> Settled(s.cache, lines[i], t.cache, ends[i]))
      && SameElsewhere(s.cache, t.cache, Ids(lines))
  {
    hide Serial, Finish;
    if lines != [] {
      var n := |lines| - 1;
      var most, l := lines[..n], lines[n];
      var (t, ends) := OneByOne(s, most);
      OneByOneIsLocal(s, most);
      assert l.job.id !in Ids(most);
      assert View(t.cache, l.job.id) == View(s.cache, l.job.id);
      SerialFinishes(t, l);
      var u := Serial(t, l.job.id, l.job.handle, l.rest).0;
      forall i | 0 <= i < n ensures Settled(s.cache, lines[i], u.cache, ends[i]) {
        assert most[i].job.id != l.job.id;
        assert Settled(s.cache, most[i], t.cache, ends[i]);
        assert View(t.cache, most[i].job.id) == View(u.cache, most[i].job.id);
      }
      forall x | x !in Ids(lines) ensures View(s.cache, x) == View(u.cache, x) {
        assert lines[n].job.id in Ids(lines);
        assert x !in Ids(most);
      }
    }
  }

  /** Any complete interleaving of programs of calls, one for each of a number of IDs, ends in the cache,
      the callers' messages and the results of all calls that running them one after another gives. */
  lemma InterleavingIsSequential(s: State, lines: seq<Line>, schedule: seq<nat>)
    requires DistinctIds(lines) && forall i :: 0 <= i < |lines| ==> lines[i].job.pc == Done
    requires forall i :: 0 <= i < |lines| ==> multiset(schedule)[i] >= 5 * |lines[i].rest|
    ensures var w := Interleave(World(s.cache, lines), schedule);
      var (t, ends) := OneByOne(s, lines);
      && w.cache == t.cache
      && |w.lines| == |lines|
      && forall i :: 0 <= i < |lines| ==>
           Finished(w.lines[i]) && Ending(w.lines[i].job.handle, w.lines[i].told) == ends[i]
  {
    hide Iterate, Interleave, OneByOne, Finish;
    var w := World(s.cache, lines);
    var a := Interleave(w, schedule);
    var (t, ends) := OneByOne(s, lines);
    InterleaveIsLocal(w, schedule);
    OneByOneIsLocal(s, lines);
    forall i | 0 <= i < |lines|
      ensures View(a.cache, lines[i].job.id) == View(t.cache, lines[i].job.id)
      ensures Finished(a.lines[i]) && Ending(a.lines[i].job.handle, a.lines[i].told) == ends[i]
    {
      var n := multiset(schedule)[i];
      assert Arrived(w, a, i, n) && Settled(s.cache, lines[i], t.cache, ends[i]);
      IterateFinishes(View(s.cache, lines[i].job.id), lines[i], n);
    }
    SameCache(s.cache, lines, a.cache, t.cache);
  }
}
