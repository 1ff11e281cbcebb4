/** The search `for_each_passphrase` makes and the retry loops `api` and `ensure_passphrase` build
    on it, as values (src/passphrase_cache.cc, src/passphrase_cache.hxx). */
module PassphraseSearch {
  import opened Common
  import opened PassphraseList
  import PassphraseWalk

  /** The engine behind one session. Its answers may depend on every passphrase the session was
      configured with so far, the last of which is the current one. */
  datatype Engine = Engine(config: seq<string> -> Status, act: seq<string> -> Status)

  /** What `for_each_passphrase` is called with: the lambda of `api`, that of `ensure_passphrase`, or
      any other callee, whose answer may depend on every string it was called with. */
  datatype Loop = Api | Ensure | Other(accepts: seq<string> -> bool)

  /** What one attempt leaves in the loop's `status`. */
  function Attempt(engine: Engine, history: seq<string>): Status {
    if engine.config(history) != Ok then engine.config(history) else engine.act(history)
  }

  /** What the callee returns: whether to stop. */
  predicate Stops(loop: Loop, engine: Engine, history: seq<string>) {
    match loop
    case Api => engine.config(history) != Ok || !PassphraseProblem(engine.act(history))
    case Ensure => engine.config(history) != Ok || engine.act(history) == Ok
    case Other(accepts) => accepts(history)
  }

  predicate PassphraseProblem(status: Status) {
    status == PassphraseRequired || status == WrongPassphrase
  }

  /** The candidates in order: the empty string, the stored passphrase, the entries front to back. */
  function Candidates(stored: string, list: seq<Entry>): (r: seq<string>)
    ensures |r| == Offset(stored) + |list|
    ensures forall i :: 0 <= i < |list| ==> r[Offset(stored) + i] == list[i].passphrase
  {
    [""] + (if stored != "" then [stored] else []) + Passphrases(list)
  }

  /** How many candidates come before the entries. */
  function Offset(stored: string): nat {
    if stored != "" then 2 else 1
  }

  /** What the session has seen after `n` of the candidates. */
  function Tried(history: seq<string>, candidates: seq<string>, n: nat): seq<string>
    requires n <= |candidates|
  {
    history + candidates[..n]
  }

  /** None of the first `n` attempts stopped. */
  predicate NoStop(loop: Loop, engine: Engine, history: seq<string>, candidates: seq<string>, n: nat)
    requires n <= |candidates|
  {
    forall j :: 0 < j <= n ==> !Stops(loop, engine, Tried(history, candidates, j))
  }

  /** The first candidate at which the search stops, or the number of candidates. */
  function FirstStop(loop: Loop, engine: Engine, history: seq<string>, candidates: seq<string>): (k: nat)
    ensures k <= |candidates|
    ensures k < |candidates| ==> Stops(loop, engine, Tried(history, candidates, k + 1))
    ensures NoStop(loop, engine, history, candidates, k)
  {
    StopFrom(loop, engine, history, candidates, 0)
  }

  function StopFrom(loop: Loop, engine: Engine, history: seq<string>, candidates: seq<string>, n: nat): (k: nat)
    requires n <= |candidates| && NoStop(loop, engine, history, candidates, n)
    ensures k <= |candidates|
    ensures k < |candidates| ==> Stops(loop, engine, Tried(history, candidates, k + 1))
    ensures NoStop(loop, engine, history, candidates, k)
    decreases |candidates| - n
  {
    if n == |candidates| || Stops(loop, engine, Tried(history, candidates, n + 1)) then n
    else StopFrom(loop, engine, history, candidates, n + 1)
  }

  /** The list after a search that stopped at candidate `k`. */
  function ListAfter(stored: string, list: seq<Entry>, k: nat, now: int): seq<Entry>
    requires k <= Offset(stored) + |list|
  {
    if Offset(stored) <= k < Offset(stored) + |list| then Refresh(list, k - Offset(stored), now) else list
  }

  /** The search as a whole: what its caller sees and what it leaves behind. */
  datatype Search = Search(accepted: bool, status: Status, history: seq<string>, list: seq<Entry>)

  function RunSearch(loop: Loop, engine: Engine, history: seq<string>, stored: string, list: seq<Entry>, now: int):
      (s: Search)
    ensures s.history != []
  {
    var candidates := Candidates(stored, list);
    SearchTo(engine, history, stored, list, now, FirstStop(loop, engine, history, candidates))
  }

  /** The search when it stops at candidate `k`, or runs out at the number of candidates. */
  function SearchTo(engine: Engine, history: seq<string>, stored: string, list: seq<Entry>, now: int, k: nat): Search
    requires k <= |Candidates(stored, list)|
  {
    var candidates := Candidates(stored, list);
    var tried := Tried(history, candidates, if k < |candidates| then k + 1 else k);
    Search(k < |candidates|, Attempt(engine, tried), tried, ListAfter(stored, list, k, now))
  }

  /** `n` attempts have been made and none of them stopped. */
  predicate Searching(loop: Loop, engine: Engine, history: seq<string>, candidates: seq<string>, n: nat,
                     tried: seq<string>, status: Status)
  {
    && n <= |candidates|
    && tried == Tried(history, candidates, n)
    && status == Attempt(engine, tried)
    && NoStop(loop, engine, history, candidates, n)
  }

  /** The next attempt, when it does not stop. */
  lemma SearchingNext(loop: Loop, engine: Engine, history: seq<string>, candidates: seq<string>, n: nat,
                     tried: seq<string>, status: Status, next: seq<string>, status': Status)
    requires Searching(loop, engine, history, candidates, n, tried, status) && n < |candidates|
    requires next == tried + [candidates[n]] && status' == Attempt(engine, next)
    ensures next == Tried(history, candidates, n + 1)
    ensures !Stops(loop, engine, next) ==>
      Searching(loop, engine, history, candidates, n + 1, next, status')
  {
  }

  /** What is known of the stopping point determines it. */
  lemma SearchStopsAt(loop: Loop, engine: Engine, history: seq<string>, stored: string, list: seq<Entry>, now: int,
                      k: nat)
    requires k <= |Candidates(stored, list)|
    requires NoStop(loop, engine, history, Candidates(stored, list), k)
    requires k < |Candidates(stored, list)| ==>
      Stops(loop, engine, Tried(history, Candidates(stored, list), k + 1))
    ensures RunSearch(loop, engine, history, stored, list, now) == SearchTo(engine, history, stored, list, now, k)
  {
  }

  /** One step of the loop over the entries. */
  lemma EntryTried(loop: Loop, engine: Engine, history: seq<string>, stored: string, list: seq<Entry>, now: int,
                   i: nat, tried: seq<string>, status: Status, next: seq<string>, status': Status)
    requires i < |list|
    requires Searching(loop, engine, history, Candidates(stored, list), Offset(stored) + i, tried, status)
    requires next == tried + [list[i].passphrase] && status' == Attempt(engine, next)
    ensures !Stops(loop, engine, next) ==>
      Searching(loop, engine, history, Candidates(stored, list), Offset(stored) + i + 1, next, status')
    ensures Stops(loop, engine, next) ==>
      RunSearch(loop, engine, history, stored, list, now) == Search(true, status', next, Refresh(list, i, now))
  {
    var candidates := Candidates(stored, list);
    SearchingNext(loop, engine, history, candidates, Offset(stored) + i, tried, status, next, status');
    if Stops(loop, engine, next) {
      SearchStopsAt(loop, engine, history, stored, list, now, Offset(stored) + i);
    }
  }

  lemma AllTried(loop: Loop, engine: Engine, history: seq<string>, stored: string, list: seq<Entry>, now: int,
                 tried: seq<string>, status: Status)
    requires Searching(loop, engine, history, Candidates(stored, list), Offset(stored) + |list|, tried, status)
    ensures RunSearch(loop, engine, history, stored, list, now) == Search(false, status, tried, list)
  {
  }

  /** What a caller of `api` or `ensure_passphrase` may rely on, for any engine: the session ends
      up configured with the candidates up to the last attempt and the status is that attempt's; no
      attempt follows a stopping one; when none stops, every candidate was tried once, in order. */
  lemma LoopContract(loop: Loop, engine: Engine, history: seq<string>, stored: string, list: seq<Entry>, now: int)
    ensures var s := RunSearch(loop, engine, history, stored, list, now);
      var candidates := [""] + (if stored != "" then [stored] else []) + Passphrases(list);
      var n := |s.history| - |history|;
      && 0 < n <= |candidates|
      && s.history == history + candidates[..n]
      && s.status == Attempt(engine, s.history)
      && (forall j :: 0 < j < n ==> !Stops(loop, engine, history + candidates[..j]))
      && (s.accepted <==> Stops(loop, engine, s.history))
      && (!s.accepted ==> n == |candidates| && s.list == list)
      && multiset(Passphrases(s.list)) == multiset(Passphrases(list))
  {
    hide Stops, Attempt, Candidates, Passphrases, Refresh;
    CandidatesAre(stored, list);
    var candidates := Candidates(stored, list);
    var k := FirstStop(loop, engine, history, candidates);
    if Offset(stored) <= k < Offset(stored) + |list| { RefreshPermutes(list, k - Offset(stored), now); }
    assert forall j :: 0 < j <= k ==> !Stops(loop, engine, Tried(history, candidates, j));
    forall j | 0 < j <= k ensures !Stops(loop, engine, history + candidates[..j]) {
      assert Tried(history, candidates, j) == history + candidates[..j];
    }
  }

  lemma CandidatesAre(stored: string, list: seq<Entry>)
    ensures Candidates(stored, list) == [""] + (if stored != "" then [stored] else []) + Passphrases(list)
  {
  }

  /** Attempt by attempt: first the empty string, then the stored passphrase where one is set, then
      the entries front to back, all of them unless one is accepted. */
  lemma AttemptsInOrder(loop: Loop, engine: Engine, history: seq<string>, stored: string, list: seq<Entry>, now: int)
    ensures var s := RunSearch(loop, engine, history, stored, list, now);
      var h, before := |history|, if stored != "" then 2 else 1;
      var n := |s.history| - h;
      && 0 < n <= before + |list|
      && s.history[..h] == history && s.history[h] == ""
      && (stored != "" && n > 1 ==> s.history[h + 1] == stored)
      && (forall i :: 0 <= i < n - before ==> s.history[h + before + i] == list[i].passphrase)
      && (!s.accepted ==> n == before + |list|)
  {
    hide Stops, Attempt, RunSearch, Passphrases;
    var s := RunSearch(loop, engine, history, stored, list, now);
    var middle := if stored != "" then [stored] else [];
    LoopContract(loop, engine, history, stored, list, now);
    PiecesInOrder(history, middle, Passphrases(list), |s.history| - |history|);
  }

  lemma PiecesInOrder(history: seq<string>, middle: seq<string>, last: seq<string>, n: nat)
    requires 0 < n <= 1 + |middle| + |last|
    ensures var h, b := history + ([""] + middle + last)[..n], |history| + 1;
      && h[..|history|] == history && h[|history|] == ""
      && (forall i :: 0 <= i < |middle| && i < n - 1 ==> h[b + i] == middle[i])
      && (forall i :: 0 <= i < n - 1 - |middle| ==> h[b + |middle| + i] == last[i])
  {
  }

  /** An entry that is accepted goes to the back; otherwise the list is left alone. */
  lemma AcceptedGoesBack(loop: Loop, engine: Engine, history: seq<string>, stored: string, list: seq<Entry>, now: int)
    ensures var s := RunSearch(loop, engine, history, stored, list, now);
      var n, before := |s.history| - |history|, if stored != "" then 2 else 1;
      && n <= before + |list|
      && s.list ==
           if s.accepted && n > before then
             var i := n - before - 1;
             list[..i] + list[i + 1..] + [Entry(list[i].email, list[i].passphrase, now)]
           else list
  {
    hide Stops, Attempt, Candidates;
  }

  /** The answer that makes a loop stop: `api` goes on over passphrase problems only, `ensure_passphrase`
      over everything but success, and both stop when the session cannot be configured. */
  predicate Answered(loop: Loop, engine: Engine, history: seq<string>) {
    match loop
    case Api => engine.config(history) != Ok || engine.act(history) !in {PassphraseRequired, WrongPassphrase}
    case Ensure => engine.config(history) != Ok || engine.act(history) == Ok
    case Other(accepts) => accepts(history)
  }

  /** Every attempt but the last went without that answer, and the search succeeds if the last has it;
      the status is what the engine said last. */
  lemma AnswersDecide(loop: Loop, engine: Engine, history: seq<string>, stored: string, list: seq<Entry>, now: int)
    ensures var s := RunSearch(loop, engine, history, stored, list, now);
      && (forall j :: |history| < j < |s.history| ==> !Answered(loop, engine, s.history[..j]))
      && (s.accepted <==> Answered(loop, engine, s.history))
      && s.status == (if engine.config(s.history) != Ok then engine.config(s.history) else engine.act(s.history))
    ensures var s := RunSearch(Ensure, engine, history, stored, list, now);
      s.accepted ==> s.status == Ok || s.status == engine.config(s.history)
  {
    hide RunSearch;
    LoopContract(loop, engine, history, stored, list, now);
    LoopContract(Ensure, engine, history, stored, list, now);
    var s := RunSearch(loop, engine, history, stored, list, now);
    var candidates := [""] + (if stored != "" then [stored] else []) + Passphrases(list);
    forall j | |history| < j < |s.history| ensures !Answered(loop, engine, s.history[..j]) {
      assert s.history[..j] == history + candidates[..j - |history|];
    }
  }

  /** A stored passphrase that solves what the empty one does not is found, and the list is left alone. */
  lemma StoredSolves(loop: Loop, engine: Engine, history: seq<string>, stored: string, list: seq<Entry>, now: int)
    requires stored != ""
    requires !Answered(loop, engine, history + [""]) && Answered(loop, engine, history + ["", stored])
    ensures var s := RunSearch(loop, engine, history, stored, list, now);
      s.accepted && s.history == history + ["", stored] && s.list == list
  {
    hide RunSearch, Answered;
    AttemptsInOrder(loop, engine, history, stored, list, now);
    AcceptedGoesBack(loop, engine, history, stored, list, now);
    AnswersDecide(loop, engine, history, stored, list, now);
    var s := RunSearch(loop, engine, history, stored, list, now);
    var h := |history|;
    assert s.history[..|s.history|] == s.history;
    assert s.history[..h + 1] == history + [""];
    assert |s.history| > h + 1;
    assert s.history[..h + 2] == history + ["", stored];
  }

  /** The engine solved no candidate up to number `k`, without failing to take one. */
  ghost predicate Unsolved(engine: Engine, history: seq<string>, candidates: seq<string>, k: nat)
    requires k <= |candidates|
  {
    forall j :: 0 < j <= k ==>
      var h := Tried(history, candidates, j);
      engine.config(h) == Ok && engine.act(h) in {PassphraseRequired, WrongPassphrase}
  }

  /** `api` reports a passphrase problem exactly when no candidate solved it, or when setting one of
      them, after none before it had solved it, was answered with such a status. */
  lemma ApiFailsOnlyWhenExhausted(engine: Engine, history: seq<string>, stored: string, list: seq<Entry>, now: int)
    ensures var candidates := [""] + (if stored != "" then [stored] else []) + Passphrases(list);
      RunSearch(Api, engine, history, stored, list, now).status in {PassphraseRequired, WrongPassphrase} <==>
        (Unsolved(engine, history, candidates, |candidates|)
         || exists k :: 0 <= k < |candidates| && Unsolved(engine, history, candidates, k)
              && engine.config(Tried(history, candidates, k + 1)) in {PassphraseRequired, WrongPassphrase})
  {
    hide Candidates, Passphrases, Refresh;
    CandidatesAre(stored, list);
    var candidates := Candidates(stored, list);
    var k := FirstStop(Api, engine, history, candidates);
    FirstStopSolves(engine, history, candidates);
    if k < |candidates| {
      assert !Unsolved(engine, history, candidates, k + 1);
      assert forall i :: k < i <= |candidates| ==> !Unsolved(engine, history, candidates, i);
    }
  }

  /** Before the candidate at which `api` stops none is solved, and that one is, or cannot be set. */
  lemma FirstStopSolves(engine: Engine, history: seq<string>, candidates: seq<string>)
    ensures var k := FirstStop(Api, engine, history, candidates);
      && Unsolved(engine, history, candidates, k)
      && (k < |candidates| ==>
            var h := Tried(history, candidates, k + 1);
            engine.config(h) != Ok || !PassphraseProblem(engine.act(h)))
  {
    hide Tried;
    var k := FirstStop(Api, engine, history, candidates);
    assert forall j :: 0 < j <= k ==> !Stops(Api, engine, Tried(history, candidates, j));
  }

  // ----- what a search means for the next enumeration -----

  lemma FreshStart(e: PassphraseWalk.Enumerator, list: seq<Entry>)
    requires PassphraseWalk.EnumeratorValid(e) && e.newCopy && list != []
    ensures PassphraseWalk.Next(e, list).2 == Some(list[|list| - 1].passphrase)
  {
  }

  lemma RefreshedLast(list: seq<Entry>, i: nat, now: int)
    requires i < |list|
    ensures Refresh(list, i, now) != []
    ensures var r := Refresh(list, i, now); r[|r| - 1].passphrase == list[i].passphrase
  {
  }

  lemma LastTried(history: seq<string>, candidates: seq<string>, k: nat)
    requires k < |candidates|
    ensures var h := Tried(history, candidates, k + 1); h != [] && h[|h| - 1] == candidates[k]
  {
  }

  /** A search that stops on a cached entry: the passphrase that stopped it, the last one the session
      was configured with, is the first one a fresh enumeration configures. */
  lemma StopperIsNext(loop: Loop, engine: Engine, history: seq<string>, stored: string, list: seq<Entry>, now: int,
                      e: PassphraseWalk.Enumerator)
    requires PassphraseWalk.EnumeratorValid(e) && e.newCopy
    requires StopsOnEntry(loop, engine, history, stored, list)
    ensures var s := RunSearch(loop, engine, history, stored, list, now);
      PassphraseWalk.Next(e, s.list).2 == Some(s.history[|s.history| - 1])
  {
    hide PassphraseWalk.Next, PassphraseWalk.EnumeratorValid, Refresh, Tried, FirstStop, Candidates;
    var candidates := Candidates(stored, list);
    var k := FirstStop(loop, engine, history, candidates);
    LastTried(history, candidates, k);
    RefreshedLast(list, k - Offset(stored), now);
    FreshStart(e, ListAfter(stored, list, k, now));
  }

  predicate StopsOnEntry(loop: Loop, engine: Engine, history: seq<string>, stored: string, list: seq<Entry>) {
    Offset(stored) <= FirstStop(loop, engine, history, Candidates(stored, list)) < |Candidates(stored, list)|
  }

  /** One of a series of searches, each with a session and a stored passphrase of its own. */
  datatype Request = Request(loop: Loop, engine: Engine, history: seq<string>, stored: string, now: int)

  /** The list after the searches, and the passphrase that last stopped one of them on an entry. */
  function Searches(list: seq<Entry>, last: Option<string>, requests: seq<Request>): (seq<Entry>, Option<string>)
    decreases |requests|
  {
    if requests == [] then (list, last)
    else
      var r := requests[0];
      var s := RunSearch(r.loop, r.engine, r.history, r.stored, list, r.now);
      var on := StopsOnEntry(r.loop, r.engine, r.history, r.stored, list);
      Searches(s.list, if on then Some(s.history[|s.history| - 1]) else last, requests[1..])
  }

  /** However many searches come after it: the cached passphrase that last stopped one is what a fresh
      enumeration configures first. */
  lemma {:induction false} LastStopperIsNext(list: seq<Entry>, last: Option<string>, requests: seq<Request>,
                                             e: PassphraseWalk.Enumerator)
    requires PassphraseWalk.EnumeratorValid(e) && e.newCopy
    requires last.Some? ==> PassphraseWalk.Next(e, list).2 == last
    ensures var (after, stopper) := Searches(list, last, requests);
      stopper.Some? ==> PassphraseWalk.Next(e, after).2 == stopper
    decreases |requests|
  {
    hide RunSearch, StopsOnEntry, PassphraseWalk.Next;
    if requests != [] {
      var r := requests[0];
      var s := RunSearch(r.loop, r.engine, r.history, r.stored, list, r.now);
      var on := StopsOnEntry(r.loop, r.engine, r.history, r.stored, list);
      if on { StopperIsNext(r.loop, r.engine, r.history, r.stored, list, r.now, e); }
      else { OthersLeaveList(r.loop, r.engine, r.history, r.stored, list, r.now); }
      LastStopperIsNext(s.list, if on then Some(s.history[|s.history| - 1]) else last, requests[1..], e);
    }
  }

  lemma OthersLeaveList(loop: Loop, engine: Engine, history: seq<string>, stored: string, list: seq<Entry>, now: int)
    requires !StopsOnEntry(loop, engine, history, stored, list)
    ensures RunSearch(loop, engine, history, stored, list, now).list == list
  {
  }
}
