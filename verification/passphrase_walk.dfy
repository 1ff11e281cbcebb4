/** The backward iterator of a passphrase cache and the enumerator `config_next_passphrase` builds
    on a snapshot of it (src/passphrase_cache.cc). */
module PassphraseWalk {
  import opened Common
  import opened PassphraseList

  /** A std::list iterator: past the last element, or on one of them. */
  datatype Cursor = End | At(index: nat)

  /** The part of a PassphraseCache that `latest_passphrase` reads and writes. */
  datatype Walk = Walk(list: seq<Entry>, stored: string, which: Cursor, first: bool)

  /** What `latest_passphrase` does: return a string, or throw Empty or Exhausted. */
  datatype Found = Passphrase(text: string) | Empty | Exhausted

  predicate Valid(w: Walk) {
    w.which.At? ==> w.which.index < |w.list|
  }

  /** One call of `latest_passphrase`. The iterator never leaves the list. */
  function Latest(w: Walk): (r: (Walk, Found))
    requires Valid(w)
    ensures Valid(r.0) && r.0.list == w.list && r.0.stored == w.stored
  {
    var v := if w.first then w.(which := End, first := false) else w;
    if w.first && w.stored != "" then (v, Passphrase(w.stored))
    else if v.list == [] then (v.(first := true), Empty)
    else if v.which == At(0) then (v.(first := true), Exhausted)
    else
      var i := if v.which.End? then |v.list| - 1 else v.which.index - 1;
      (v.(which := At(i)), Passphrase(v.list[i].passphrase))
  }

  /** A freshly copy-constructed cache. */
  function Start(list: seq<Entry>, stored: string): Walk {
    Walk(list, stored, End, true)
  }

  /** One period of the iterator, stated without it. */
  function Cycle(list: seq<Entry>, stored: string): (r: seq<Found>)
    ensures |r| == |list| + 1 + StoredCount(stored)
  {
    (if stored != "" then [Passphrase(stored)] else [])
    + NewestFirst(list)
    + [if list == [] then Empty else Exhausted]
  }

  function StoredCount(stored: string): nat {
    if stored != "" then 1 else 0
  }

  function NewestFirst(list: seq<Entry>): (r: seq<Found>)
    ensures |r| == |list|
    ensures forall i :: 0 <= i < |list| ==> r[i] == Passphrase(list[|list| - 1 - i].passphrase)
  {
    if list == [] then [] else [Passphrase(list[|list| - 1].passphrase)] + NewestFirst(list[..|list| - 1])
  }

  /** The walk is about to produce element `k` of its cycle. */
  predicate Before(w: Walk, k: nat) {
    var s := StoredCount(w.stored);
    if k == 0 then w.first && Valid(w)
    else !w.first && s <= k <= s + |w.list| && w.which == if k == s then End else At(|w.list| - (k - s))
  }

  lemma LatestFollowsCycle(w: Walk, k: nat)
    requires k < |Cycle(w.list, w.stored)| && Before(w, k)
    requires Valid(w)
    ensures Latest(w).1 == Cycle(w.list, w.stored)[k]
    ensures Before(Latest(w).0, if k + 1 == |Cycle(w.list, w.stored)| then 0 else k + 1)
  {
  }

  /** The walk after `n` calls. */
  function After(w: Walk, n: nat): (r: Walk)
    requires Valid(w)
    ensures Valid(r) && r.list == w.list && r.stored == w.stored
  {
    if n == 0 then w else Latest(After(w, n - 1)).0
  }

  lemma StartIsBefore(list: seq<Entry>, stored: string)
    ensures Before(Start(list, stored), 0) && |Cycle(list, stored)| > 0
  {
  }

  lemma {:induction false} AfterFollowsCycle(list: seq<Entry>, stored: string, n: nat)
    ensures Before(After(Start(list, stored), n), n % |Cycle(list, stored)|)
  {
    hide Cycle, Latest, Before;
    var period := |Cycle(list, stored)|;
    StartIsBefore(list, stored);
    if n > 0 {
      AfterFollowsCycle(list, stored, n - 1);
      LatestFollowsCycle(After(Start(list, stored), n - 1), (n - 1) % period);
      NextInCycle(n - 1, period);
    }
  }

  lemma NextInCycle(n: nat, period: nat)
    requires period > 0
    ensures (n + 1) % period == if n % period + 1 == period then 0 else n % period + 1
  {
    var q, r := n / period, n % period;
    assert n + 1 == period * q + (r + 1);
    if r + 1 == period {
      assert n + 1 == period * (q + 1);
      Remainder(n + 1, period, q + 1, 0);
    } else {
      Remainder(n + 1, period, q, r + 1);
    }
  }

  lemma Remainder(n: nat, period: nat, q: nat, r: nat)
    requires r < period && n == period * q + r
    ensures n % period == r
  {
    var d := n / period - q;
    assert n % period == n - period * (n / period);
    assert period * (n / period) == period * q + period * d;
    assert r - n % period == period * d;
    Multiple(period, d);
  }

  lemma Multiple(period: nat, d: int)
    ensures d >= 1 ==> period * d >= period
    ensures d <= -1 ==> period * d + period <= 0
  {
  }

  /** On a copy that does not change, the calls of `latest_passphrase` repeat one cycle forever:
      the stored passphrase if set, the entries last to first, then one Empty or Exhausted. */
  lemma LatestIsPeriodic(list: seq<Entry>, stored: string, n: nat)
    ensures Latest(After(Start(list, stored), n)).1 == Cycle(list, stored)[n % |Cycle(list, stored)|]
  {
    AfterFollowsCycle(list, stored, n);
    LatestFollowsCycle(After(Start(list, stored), n), n % |Cycle(list, stored)|);
  }

  // ----- config_next_passphrase -----

  /** Its two function-local statics. */
  datatype Enumerator = Enumerator(copy: Walk, newCopy: bool)

  /** The initial value of the statics: a default-constructed cache. */
  const FRESH := Enumerator(Walk([], "", End, true), true)

  /** Every assignment to `_copy` leaves `_stored` alone, so the copy's stays empty for good. */
  predicate EnumeratorValid(e: Enumerator) {
    Valid(e.copy) && e.copy.stored == ""
  }

  /** Copy assignment: the list and the iterator, not `_stored` and not `first_time`. */
  function Assign(w: Walk, list: seq<Entry>): Walk {
    w.(list := list, which := End)
  }

  function Reset(e: Enumerator): Enumerator {
    e.(newCopy := true)
  }

  /** One call without `reset`: the new statics, the status, and the passphrase given to the session. */
  function Next(e: Enumerator, live: seq<Entry>): (r: (Enumerator, Status, Option<string>))
    requires EnumeratorValid(e)
    ensures EnumeratorValid(r.0)
    ensures r.1 == Ok <==> r.2.Some?
    ensures r.1 in {Ok, PassphraseRequired, WrongPassphrase}
    ensures r.0.newCopy <==> r.1 != Ok
    ensures r.0.copy.list == if e.newCopy then live else e.copy.list
  {
    var copy := if e.newCopy then Assign(e.copy, live) else e.copy;
    var (walk, found) := Latest(copy);
    match found
    case Passphrase(p) => (Enumerator(walk, false), Ok, Some(p))
    case Empty => (Enumerator(walk, true), PassphraseRequired, None)
    case Exhausted => (Enumerator(walk, true), WrongPassphrase, None)
  }

  /** A series of calls, with the live list each of them finds. */
  function Enumerate(e: Enumerator, lives: seq<seq<Entry>>): (r: (Enumerator, seq<(Status, Option<string>)>))
    requires EnumeratorValid(e)
    ensures EnumeratorValid(r.0) && |r.1| == |lives|
    decreases |lives|
  {
    if lives == [] then (e, [])
    else
      var (next, status, p) := Next(e, lives[0]);
      var (last, results) := Enumerate(next, lives[1..]);
      (last, [(status, p)] + results)
  }

  /** What an enumeration of a snapshot has to return. */
  function Expected(snapshot: seq<Entry>): seq<(Status, Option<string>)> {
    seq(|snapshot|, k requires 0 <= k < |snapshot| => (Ok, Some(snapshot[|snapshot| - 1 - k].passphrase)))
    + [(if snapshot == [] then PassphraseRequired else WrongPassphrase, None)]
  }

  /** `k` entries of the snapshot have been handed out. */
  predicate Underway(e: Enumerator, snapshot: seq<Entry>, k: nat) {
    && EnumeratorValid(e) && !e.newCopy && e.copy.list == snapshot
    && 0 < k <= |snapshot| && !e.copy.first && e.copy.which == At(|snapshot| - k)
  }

  lemma {:induction false} EnumerateFrom(e: Enumerator, snapshot: seq<Entry>, k: nat, lives: seq<seq<Entry>>)
    requires Underway(e, snapshot, k) && |lives| == |snapshot| + 1 - k
    ensures Enumerate(e, lives).1 == Expected(snapshot)[k..] && Enumerate(e, lives).0.newCopy
    decreases |lives|
  {
    var (next, status, p) := Next(e, lives[0]);
    assert (status, p) == Expected(snapshot)[k];
    if k < |snapshot| {
      EnumerateFrom(next, snapshot, k + 1, lives[1..]);
    } else {
      assert Enumerate(next, lives[1..]) == (next, []);
    }
    assert Expected(snapshot)[k..] == [(status, p)] + Expected(snapshot)[k + 1..];
  }

  /** From a state in which a new copy is due, n + 1 calls configure the n passphrases of the list
      the first call finds, last position first and each entry once, and then fail once:
      PASSPHRASE_REQUIRED when there was none, else WRONG_PASSPHRASE. What happens to the live list
      between the calls has no effect, nor does the iterator state an earlier enumeration left. */
  lemma SnapshotEnumeration(e: Enumerator, lives: seq<seq<Entry>>)
    requires EnumeratorValid(e) && e.newCopy
    requires lives != [] && |lives| == |lives[0]| + 1
    ensures Enumerate(e, lives).1 == Expected(lives[0])
    ensures Enumerate(e, lives).0.newCopy
  {
    var (next, status, p) := Next(e, lives[0]);
    assert (status, p) == Expected(lives[0])[0];
    if lives[0] == [] {
      assert Enumerate(next, lives[1..]) == (next, []);
    } else {
      EnumerateFrom(next, lives[0], 1, lives[1..]);
      assert Expected(lives[0]) == [(status, p)] + Expected(lives[0])[1..];
    }
  }

  /** A reset in any state, in the middle of an enumeration too, makes the next series start over
      from the list it then finds. */
  lemma ResetRestarts(e: Enumerator, before: seq<seq<Entry>>, lives: seq<seq<Entry>>)
    requires EnumeratorValid(e)
    requires lives != [] && |lives| == |lives[0]| + 1
    ensures Enumerate(Reset(Enumerate(e, before).0), lives).1 == Expected(lives[0])
  {
    SnapshotEnumeration(Reset(Enumerate(e, before).0), lives);
  }

  /** A stored passphrase is never handed out by the enumerator: every passphrase it configures is
      that of an entry of a live list it was shown. */
  lemma {:induction false} OnlyListedPassphrases(lives: seq<seq<Entry>>, e: Enumerator, k: nat)
    requires EnumeratorValid(e) && k < |lives| && Enumerate(e, lives).1[k].1.Some?
    ensures var p := Enumerate(e, lives).1[k].1.value;
      p in Passphrases(e.copy.list) || exists j :: 0 <= j <= k && p in Passphrases(lives[j])
    decreases |lives|
  {
    var (next, status, q) := Next(e, lives[0]);
    var copy := next.copy.list;
    if k == 0 {
      var i := next.copy.which.index;
      assert q.value == Passphrases(copy)[i];
    } else {
      OnlyListedPassphrases(lives[1..], next, k - 1);
      var p := Enumerate(e, lives).1[k].1.value;
      assert p == Enumerate(next, lives[1..]).1[k - 1].1.value;
      if !(p in Passphrases(copy)) {
        var j :| 0 <= j <= k - 1 && p in Passphrases(lives[1..][j]);
        assert p in Passphrases(lives[j + 1]);
      }
    }
  }

  /** An `add` that is not turned away, of a passphrase or an account that is not in the list. */
  ghost predicate AddsNew(list: seq<Entry>, op: Op) {
    match op
    case Plain(p) => p != "" && Truncate(p) !in Passphrases(list)
    case Account(e, p) =>
      && p != ""
      && if e == "" then Truncate(p) !in Passphrases(list)
         else forall i :: 0 <= i < |list| ==> list[i].email != Truncate(e)
    case _ => false
  }

  /** What was added is what the next enumeration configures first; the others follow as before. */
  lemma AddedIsNext(e: Enumerator, list: seq<Entry>, op: Op, now: int, lives: seq<seq<Entry>>)
    requires EnumeratorValid(e) && e.newCopy && AddsNew(list, op)
    requires |lives| == |list| + 2 && lives[0] == Apply(list, op, now)
    ensures var results := Enumerate(e, lives).1;
      && results[0] == (Ok, Some(Truncate(op.passphrase)))
      && (forall k :: 1 <= k <= |list| ==> results[k] == (Ok, Some(list[|list| - k].passphrase)))
      && results[|list| + 1] == (WrongPassphrase, None)
  {
    hide Enumerate, Apply, AddsNew;
    AddedAtTheBack(list, op, now);
    SnapshotEnumeration(e, lives);
  }

  lemma AddedAtTheBack(list: seq<Entry>, op: Op, now: int)
    requires AddsNew(list, op)
    ensures var r := Apply(list, op, now);
      |r| == |list| + 1 && r[..|list|] == list && r[|list|].passphrase == Truncate(op.passphrase)
  {
    match op
    case Plain(p) => AddPlainPlaces(list, p, now);
    case Account(email, p) =>
      AddPlainPlaces(list, p, now);
      AddAccountPlaces(list, email, p, now);
  }
}
