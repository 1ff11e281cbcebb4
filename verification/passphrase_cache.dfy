/** The passphrase cache as the object it is: fields updated in place, each method tied to the
    functions of PassphraseList, PassphraseWalk and PassphraseSearch
    (src/passphrase_cache.cc, src/passphrase_cache.hxx). */
module PassphraseCache {
  import opened Common
  import opened PassphraseList
  import opened PassphraseWalk
  import opened PassphraseSearch

  /** The gate that keeps the sync thread waiting for a passphrase. */
  class Semaphore {
    var closed: bool

    constructor ()
      ensures !closed
    {
      closed := false;
    }

    method Go()
      modifies this
      ensures !closed
    {
      closed := false;
    }

    /** The caller waits while the gate is closed; that the call returns means that some other thread
        has opened it. */
    method TryWait()
      modifies this
      ensures !closed
    {
      if closed {
        Go();
      }
    }

    method Stop()
      modifies this
      ensures closed
    {
      closed := true;
    }
  }

  /** A PEP_SESSION, as far as passphrases go: every passphrase it was configured with. */
  class Session {
    var history: seq<string>

    constructor ()
      ensures history == []
    {
      history := [];
    }

    method ConfigPassphrase(passphrase: string)
      modifies this
      ensures history == old(history) + [passphrase]
    {
      history := history + [passphrase];
    }
  }

  /** A callee, with what the lambdas of the retry loops do: configure the session and overwrite the
      captured status on every call. */
  class Callee {
    const loop: Loop
    const engine: Engine
    const session: Session
    var status: Status

    constructor (loop: Loop, engine: Engine, session: Session)
      ensures this.loop == loop && this.engine == engine && this.session == session
      ensures status == Ok
    {
      this.loop := loop;
      this.engine := engine;
      this.session := session;
      status := Ok;
    }

    method Call(passphrase: string) returns (stop: bool)
      modifies this`status, session
      ensures session.history == old(session.history) + [passphrase]
      ensures status == Attempt(engine, session.history)
      ensures stop == Stops(loop, engine, session.history)
    {
      session.ConfigPassphrase(passphrase);
      status := engine.config(session.history);
      var configured := status == Ok;
      if configured {
        status := engine.act(session.history);
      }
      match loop
      case Api => stop := !configured || (status != PassphraseRequired && status != WrongPassphrase);
      case Ensure => stop := !configured || status == Ok;
      case Other(accepts) => stop := accepts(session.history);
    }
  }

  class PassphraseCache {
    var cache: seq<Entry>
    var stored: string
    var which: Cursor
    var firstTime: bool
    // kept and copied, but nothing enforces them
    var maxSize: nat
    var timeout: int
    // the iterator is left on an element that was removed
    ghost var dangling: bool

    function AsWalk(): Walk
      reads this
    {
      Walk(cache, stored, which, firstTime)
    }

    ghost predicate Valid()
      reads this
    {
      WellFormed(cache) && PassphraseWalk.Valid(AsWalk()) && (dangling ==> which == End)
    }

    constructor (maxSize: nat := 20, timeout: int := 180)
      ensures Valid() && AsWalk() == Start([], "") && !dangling
      ensures this.maxSize == maxSize && this.timeout == timeout
    {
      this.maxSize := maxSize;
      this.timeout := timeout;
      cache := [];
      stored := "";
      which := End;
      firstTime := true;
      dangling := false;
    }

    constructor Copy(second: PassphraseCache)
      requires second.Valid()
      ensures Valid() && AsWalk() == Start(second.cache, second.stored) && !dangling
      ensures cache == second.cache && stored == second.stored && which == End && firstTime
      ensures maxSize == second.maxSize && timeout == second.timeout
    {
      cache := second.cache;
      maxSize := second.maxSize;
      timeout := second.timeout;
      stored := second.stored;
      which := End;
      firstTime := true;
      dangling := false;
    }

    method Assign(second: PassphraseCache)
      requires Valid() && second.Valid()
      modifies this
      ensures Valid() && AsWalk() == PassphraseWalk.Assign(old(AsWalk()), old(second.cache)) && !dangling
      ensures cache == old(second.cache) && which == End && stored == old(stored) && firstTime == old(firstTime)
      ensures maxSize == old(second.maxSize) && timeout == old(second.timeout)
    {
      cache := second.cache;
      maxSize := second.maxSize;
      timeout := second.timeout;
      which := End;
      dangling := false;
    }

    method AddToCache(entry: Entry) returns (result: string)
      requires Valid() && 0 < |entry.passphrase| <= MAX_LEN && |entry.email| <= MAX_LEN
      modifies this`cache
      ensures Valid() && cache == AddEntry(old(cache), entry)
      ensures result == entry.passphrase
    {
      AddKeepsWellFormed(cache, entry);
      var found := FindMatch(cache, entry);
      if found < |cache| {
        cache := cache[found := entry];
        result := cache[found].passphrase;
      } else {
        cache := cache + [entry];
        result := cache[|cache| - 1].passphrase;
      }
    }

    /** Adding a passphrase opens the gate; an empty one changes nothing. */
    method Add(passphrase: string, now: int, semaphore: Semaphore) returns (result: string)
      requires Valid()
      modifies this`cache, semaphore
      ensures Valid() && cache == AddPlain(old(cache), passphrase, now)
      ensures semaphore.closed == (passphrase == "" && old(semaphore.closed))
      ensures result == Truncate(passphrase)
    {
      if passphrase != "" {
        result := AddToCache(Entry("", Truncate(passphrase), now));
        semaphore.Go();
      } else {
        result := "";
      }
    }

    method AddAccount(email: string, passphrase: string, now: int, semaphore: Semaphore) returns (result: string)
      requires Valid()
      modifies this`cache, semaphore
      ensures Valid() && cache == PassphraseList.AddAccount(old(cache), email, passphrase, now)
      ensures semaphore.closed == (passphrase == "" && old(semaphore.closed))
      ensures result == Truncate(passphrase)
    {
      if passphrase != "" {
        result := AddToCache(Entry(Truncate(email), Truncate(passphrase), now));
        semaphore.Go();
      } else {
        result := "";
      }
    }

    /** An iterator on one of the removed entries dangles; on any other it stays on its entry. */
    method Remove(email: string)
      requires Valid()
      modifies this`cache, this`which, this`dangling
      ensures Valid() && cache == RemoveEmail(old(cache), email)
      ensures dangling <==> old(dangling || (which.At? && cache[which.index].email == email))
      ensures which.At? <==> old(which.At? && cache[which.index].email != email)
      ensures which.At? ==> cache[which.index] == old(cache[which.index])
    {
      RemoveKeepsWellFormed(cache, email);
      if which.At? {
        if cache[which.index].email == email {
          which, dangling := End, true;
        } else {
          RemoveAround(cache, email, which.index);
          which := At(|RemoveEmail(cache[..which.index], email)|);
        }
      }
      cache := RemoveEmail(cache, email);
    }

    method AddStored(passphrase: string) returns (result: string)
      requires Valid()
      modifies this`stored
      ensures Valid() && stored == passphrase && result == passphrase
    {
      stored := passphrase;
      result := stored;
    }

    /** `splice` relinks the entry; iterators stay on theirs. */
    method RefreshEntry(entry: nat, now: int)
      requires Valid() && entry < |cache|
      modifies this`cache, this`which
      ensures Valid() && cache == Refresh(old(cache), entry, now)
      ensures which.At? <==> old(which).At?
      ensures which.At? ==> cache[which.index].(tp := now) == old(cache[which.index]).(tp := now)
    {
      RefreshKeepsWellFormed(cache, entry, now);
      if which.At? {
        var k := which.index;
        which := At(if k < entry then k else if k == entry then |cache| - 1 else k - 1);
      }
      var e := cache[entry].(tp := now);
      cache := cache[..entry] + cache[entry + 1..];
      cache := cache + [e];
    }

    /** The search as the state it is in now would run it. */
    function Expected(loop: Loop, engine: Engine, session: Session, now: int): Search
      reads this, session
    {
      RunSearch(loop, engine, session.history, stored, cache, now)
    }

    /** The outcome of a search: what it returns, the callee's status, the session and the list. */
    function Outcome(accepted: bool, callee: Callee): Search
      reads this, callee, callee.session
    {
      Search(accepted, callee.status, callee.session.history, cache)
    }

    method ForEachPassphrase(callee: Callee, now: int) returns (accepted: bool)
      requires Valid()
      modifies this`cache, this`which, callee`status, callee.session
      ensures Valid()
      ensures which.At? <==> old(which).At?
      ensures which.At? ==> cache[which.index].(tp := now) == old(cache[which.index]).(tp := now)
      ensures Outcome(accepted, callee) == old(Expected(callee.loop, callee.engine, callee.session, now))
    {
      ghost var history := callee.session.history;
      ghost var candidates := Candidates(stored, cache);

      var stop := callee.Call("");
      assert callee.session.history == Tried(history, candidates, 1);
      if stop {
        SearchStopsAt(callee.loop, callee.engine, history, stored, cache, now, 0);
        return true;
      }

      if stored != "" {
        stop := callee.Call(stored);
        assert callee.session.history == Tried(history, candidates, 2);
        if stop {
          SearchStopsAt(callee.loop, callee.engine, history, stored, cache, now, 1);
          return true;
        }
      }

      accepted := TryEntries(callee, now, history);
    }

    /** The loop over the entries, which runs under its own lock. */
    method TryEntries(callee: Callee, now: int, ghost history: seq<string>) returns (accepted: bool)
      requires Valid()
      requires Searching(callee.loop, callee.engine, history, Candidates(stored, cache), Offset(stored),
                        callee.session.history, callee.status)
      modifies this`cache, this`which, callee`status, callee.session
      ensures Valid()
      ensures which.At? <==> old(which).At?
      ensures which.At? ==> cache[which.index].(tp := now) == old(cache[which.index]).(tp := now)
      ensures Outcome(accepted, callee)
        == RunSearch(callee.loop, callee.engine, history, stored, old(cache), now)
    {
      hide RunSearch, Searching, Candidates, Stops, Attempt, Refresh;
      ghost var list := cache;
      for entry := 0 to |cache|
        invariant cache == list && which == old(which)
        invariant Searching(callee.loop, callee.engine, history, Candidates(stored, list), Offset(stored) + entry,
                           callee.session.history, callee.status)
      {
        ghost var tried, status := callee.session.history, callee.status;
        var stop := callee.Call(cache[entry].passphrase);
        EntryTried(callee.loop, callee.engine, history, stored, list, now, entry, tried, status,
                   callee.session.history, callee.status);
        if stop {
          RefreshEntry(entry, now);
          return true;
        }
      }
      AllTried(callee.loop, callee.engine, history, stored, list, now, callee.session.history, callee.status);
      accepted := false;
    }

    method Api(engine: Engine, session: Session, now: int) returns (status: Status)
      requires Valid()
      modifies this`cache, this`which, session
      ensures Valid()
      ensures var s := old(Expected(Loop.Api, engine, session, now));
        status == s.status && session.history == s.history && cache == s.list
    {
      var callee := new Callee(Loop.Api, engine, session);
      var _ := ForEachPassphrase(callee, now);
      status := callee.status;
    }

    method EnsurePassphrase(engine: Engine, session: Session, now: int) returns (status: Status)
      requires Valid()
      modifies this`cache, this`which, session
      ensures Valid()
      ensures var s := old(Expected(Ensure, engine, session, now));
        status == s.status && session.history == s.history && cache == s.list
    {
      var callee := new Callee(Ensure, engine, session);
      var _ := ForEachPassphrase(callee, now);
      status := callee.status;
    }

    /** A dangling iterator is not followed: it may be there at the start of a cycle, which sets it
        anew, or when the cache is empty. */
    method LatestPassphrase() returns (found: Found)
      requires Valid() && (dangling ==> firstTime || cache == [])
      modifies this`which, this`firstTime, this`dangling
      ensures Valid() && (AsWalk(), found) == Latest(old(AsWalk()))
      ensures dangling ==> old(dangling) && firstTime
    {
      if firstTime {
        which := End;
        dangling := false;
        firstTime := false;
        if stored != "" {
          return Passphrase(stored);
        }
      }
      if cache == [] {
        firstTime := true;
        return Empty;
      }
      if which == At(0) {
        firstTime := true;
        return Exhausted;
      }
      which := match which case End => At(|cache| - 1) case At(i) => At(i - 1);
      found := Passphrase(cache[which.index].passphrase);
    }

    /** The pairs handed to `configure_account_passphrases`. */
    method ConfigureSession() returns (pairs: seq<(string, string)>)
      requires Valid()
      ensures pairs == AccountList(cache)
    {
      pairs := [];
      for entry := 0 to |cache|
        invariant pairs == AccountList(cache[..entry])
      {
        AccountListSnoc(cache[..entry], cache[entry]);
        assert cache[..entry] + [cache[entry]] == cache[..entry + 1];
        if cache[entry].email != "" {
          pairs := pairs + [(cache[entry].email, cache[entry].passphrase)];
        }
      }
      assert cache[..|cache|] == cache;
    }
  }

  lemma {:induction false} AccountListSnoc(list: seq<Entry>, e: Entry)
    ensures AccountList(list + [e]) ==
      AccountList(list) + if e.email == "" then [] else [(e.email, e.passphrase)]
  {
    if list != [] {
      assert (list + [e])[1..] == list[1..] + [e];
      AccountListSnoc(list[1..], e);
    }
  }

  /** The statics of `config_next_passphrase`. */
  class NextPassphrase {
    const copy: PassphraseCache
    var newCopy: bool

    function AsEnumerator(): Enumerator
      reads this, copy
    {
      Enumerator(copy.AsWalk(), newCopy)
    }

    ghost predicate Valid()
      reads this, copy
    {
      copy.Valid() && !copy.dangling && EnumeratorValid(AsEnumerator())
    }

    constructor ()
      ensures Valid() && fresh(copy) && AsEnumerator() == FRESH
    {
      copy := new PassphraseCache();
      newCopy := true;
    }

    method Config(reset: bool, live: PassphraseCache, session: Session) returns (status: Status)
      requires Valid() && live.Valid() && live != copy
      modifies this`newCopy, copy, session
      ensures Valid()
      ensures reset ==>
        status == Ok && AsEnumerator() == Reset(old(AsEnumerator())) && session.history == old(session.history)
      ensures !reset ==>
        var (e, s, p) := Next(old(AsEnumerator()), live.cache);
        && AsEnumerator() == e && status == s
        && session.history == old(session.history) + if p.Some? then [p.value] else []
    {
      if reset {
        newCopy := true;
        return Ok;
      }
      if newCopy {
        copy.Assign(live);
        newCopy := false;
      }
      var found := copy.LatestPassphrase();
      match found
      case Passphrase(p) =>
        session.ConfigPassphrase(p);
        status := Ok;
      case Empty =>
        newCopy := true;
        status := PassphraseRequired;
      case Exhausted =>
        newCopy := true;
        status := WrongPassphrase;
    }
  }
}
