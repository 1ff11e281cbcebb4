/** The list of cached passphrases as a value, and the account bindings it stands for
    (src/passphrase_cache.cc). */
module PassphraseList {

  // 250 * 4 bytes, the length both strings of an entry are cut to
  const MAX_LEN: nat := 1000

  datatype Entry = Entry(email: string, passphrase: string, tp: int)

  function Truncate(s: string): (r: string)
    ensures r <= s && |r| == if |s| <= 1000 then |s| else 1000
    ensures r == s <==> |s| <= MAX_LEN
    ensures r == "" <==> s == ""
  {
    if |s| <= MAX_LEN then s else s[..MAX_LEN]
  }

  /** What `add` searches for: a plain entry matches by passphrase, an account entry by email. */
  predicate Matches(e: Entry, x: Entry) {
    if e.email == "" then e.passphrase == x.passphrase else e.email == x.email
  }

  /** The position of the first match, or the length of the list. */
  function FindMatch(list: seq<Entry>, e: Entry): (i: nat)
    ensures i <= |list|
    ensures i < |list| ==> Matches(e, list[i])
    ensures forall j :: 0 <= j < i ==> !Matches(e, list[j])
  {
    if list == [] || Matches(e, list[0]) then 0 else 1 + FindMatch(list[1..], e)
  }

  function AddEntry(list: seq<Entry>, e: Entry): seq<Entry> {
    var i := FindMatch(list, e);
    if i < |list| then list[i := e] else list + [e]
  }

  function AddPlain(list: seq<Entry>, passphrase: string, now: int): seq<Entry> {
    if passphrase == "" then list else AddEntry(list, Entry("", Truncate(passphrase), now))
  }

  function AddAccount(list: seq<Entry>, email: string, passphrase: string, now: int): seq<Entry> {
    if passphrase == "" then list
    else AddEntry(list, Entry(Truncate(email), Truncate(passphrase), now))
  }

  function RemoveEmail(list: seq<Entry>, email: string): (r: seq<Entry>)
    ensures forall x :: x in r <==> x in list && x.email != email
  {
    if list == [] then []
    else if list[0].email == email then RemoveEmail(list[1..], email)
    else [list[0]] + RemoveEmail(list[1..], email)
  }

  /** Move the entry at `i` to the back and stamp it. */
  function Refresh(list: seq<Entry>, i: nat, now: int): seq<Entry>
    requires i < |list|
  {
    list[..i] + list[i + 1..] + [list[i].(tp := now)]
  }

  function Passphrases(list: seq<Entry>): (r: seq<string>)
    ensures |r| == |list|
    ensures forall i :: 0 <= i < |list| ==> r[i] == list[i].passphrase
  {
    seq(|list|, i requires 0 <= i < |list| => list[i].passphrase)
  }

  // ----- where an entry goes -----

  /** `i` is the first position with this passphrase. */
  ghost predicate FirstWithPassphrase(list: seq<Entry>, p: string, i: nat) {
    i < |list| && list[i].passphrase == p && forall j :: 0 <= j < i ==> list[j].passphrase != p
  }

  ghost predicate FirstWithEmail(list: seq<Entry>, e: string, i: nat) {
    i < |list| && list[i].email == e && forall j :: 0 <= j < i ==> list[j].email != e
  }

  /** All positions but one are as they were. */
  ghost predicate OnlyAt(list: seq<Entry>, r: seq<Entry>, i: nat, e: Entry) {
    && i < |list| == |r| && r[i] == e
    && forall k :: 0 <= k < |list| && k != i ==> r[k] == list[k]
  }

  ghost predicate AtTheBack(list: seq<Entry>, r: seq<Entry>, e: Entry) {
    |r| == |list| + 1 && r[..|list|] == list && r[|list|] == e
  }

  /** A plain `add` overwrites the first entry with that passphrase, whosever it is, in its place; where
      there is none the new entry goes to the back. */
  lemma AddPlainPlaces(list: seq<Entry>, p: string, now: int)
    ensures var r, e := AddPlain(list, p, now), Entry("", Truncate(p), now);
      && (p == "" ==> r == list)
      && (p != "" && e.passphrase !in Passphrases(list) ==> AtTheBack(list, r, e))
      && (forall i :: p != "" && FirstWithPassphrase(list, e.passphrase, i) ==> OnlyAt(list, r, i, e))
  {
    var e := Entry("", Truncate(p), now);
    var k := FindMatch(list, e);
    if k < |list| { assert Passphrases(list)[k] == e.passphrase; }
    forall i | FirstWithPassphrase(list, e.passphrase, i) ensures k == i {}
  }

  /** An account is overwritten in its place, or goes to the back. An empty email makes it a plain one. */
  lemma AddAccountPlaces(list: seq<Entry>, email: string, p: string, now: int)
    ensures var r, e := AddAccount(list, email, p, now), Entry(Truncate(email), Truncate(p), now);
      && (p == "" ==> r == list)
      && (email == "" ==> r == AddPlain(list, p, now))
      && (p != "" && email != "" && (forall i :: 0 <= i < |list| ==> list[i].email != e.email) ==>
            AtTheBack(list, r, e))
      && (forall i :: p != "" && email != "" && FirstWithEmail(list, e.email, i) ==> OnlyAt(list, r, i, e))
  {
    var e := Entry(Truncate(email), Truncate(p), now);
    var k := FindMatch(list, e);
    forall i | email != "" && FirstWithEmail(list, e.email, i) ensures k == i {}
  }

  /** How many entries stay. */
  function Staying(list: seq<Entry>, email: string): nat {
    if list == [] then 0 else (if list[0].email == email then 0 else 1) + Staying(list[1..], email)
  }

  lemma {:induction false} RemoveCounts(list: seq<Entry>, email: string)
    ensures |RemoveEmail(list, email)| == Staying(list, email)
  {
    if list != [] { RemoveCounts(list[1..], email); }
  }

  /** Every entry with another email stays, behind as many others as stay in front of it, and no more
      than those are there. */
  lemma {:induction false} RemoveKeepsOrder(list: seq<Entry>, email: string, i: nat)
    requires i < |list| && list[i].email != email
    ensures var r := RemoveEmail(list, email);
      |r| == Staying(list, email) && Staying(list[..i], email) < |r| && r[Staying(list[..i], email)] == list[i]
  {
    RemoveCounts(list, email);
    if i == 0 {
      assert RemoveEmail(list, email)[0] == list[0];
    } else {
      RemoveKeepsOrder(list[1..], email, i - 1);
      assert list[..i][1..] == list[1..][..i - 1];
      var k := Staying(list[1..][..i - 1], email);
      assert RemoveEmail(list[1..], email)[k] == list[i];
      assert Staying(list[..i], email) == (if list[0].email == email then 0 else 1) + k;
    }
  }

  // ----- what every list built by the operations keeps -----

  predicate DistinctEmails(list: seq<Entry>) {
    forall i, j :: 0 <= i < j < |list| && list[i].email == list[j].email ==> list[i].email == ""
  }

  predicate WellFormed(list: seq<Entry>) {
    && DistinctEmails(list)
    && (forall i :: 0 <= i < |list| ==>
          0 < |list[i].passphrase| <= MAX_LEN && |list[i].email| <= MAX_LEN)
  }

  datatype Op =
    | Plain(passphrase: string)
    | Account(email: string, passphrase: string)
    | Remove(email: string)
    // a for_each_passphrase whose callee accepted the entry at this position, or none of them
    | ForEach(accepted: nat)

  function Apply(list: seq<Entry>, op: Op, now: int): seq<Entry> {
    match op
    case Plain(p) => AddPlain(list, p, now)
    case Account(e, p) => AddAccount(list, e, p, now)
    case Remove(e) => RemoveEmail(list, e)
    case ForEach(i) => if i < |list| then Refresh(list, i, now) else list
  }

  /** A run, each operation with the time the clock shows. */
  function Run(list: seq<Entry>, ops: seq<(Op, int)>): seq<Entry>
    decreases |ops|
  {
    if ops == [] then list else Run(Apply(list, ops[0].0, ops[0].1), ops[1..])
  }

  lemma RemoveKeepsWellFormed(list: seq<Entry>, email: string)
    requires WellFormed(list)
    ensures WellFormed(RemoveEmail(list, email))
  {
    var r := RemoveEmail(list, email);
    forall i | 0 <= i < |r| ensures 0 < |r[i].passphrase| <= MAX_LEN && |r[i].email| <= MAX_LEN {
      assert r[i] in list;
    }
    RemoveKeepsDistinct(list, email);
  }

  lemma {:induction false} RemoveKeepsDistinct(list: seq<Entry>, email: string)
    requires DistinctEmails(list)
    ensures DistinctEmails(RemoveEmail(list, email))
  {
    if list != [] {
      var rest := RemoveEmail(list[1..], email);
      RemoveKeepsDistinct(list[1..], email);
      forall j | 0 <= j < |rest| && rest[j].email == list[0].email ensures list[0].email == "" {
        assert rest[j] in list[1..];
      }
    }
  }

  lemma AddKeepsWellFormed(list: seq<Entry>, e: Entry)
    requires WellFormed(list) && 0 < |e.passphrase| <= MAX_LEN && |e.email| <= MAX_LEN
    ensures WellFormed(AddEntry(list, e))
  {
  }

  lemma RefreshKeepsWellFormed(list: seq<Entry>, i: nat, now: int)
    requires WellFormed(list) && i < |list|
    ensures WellFormed(Refresh(list, i, now))
  {
  }

  lemma ApplyKeepsWellFormed(list: seq<Entry>, op: Op, now: int)
    requires WellFormed(list)
    ensures WellFormed(Apply(list, op, now))
  {
    match op
    case Plain(p) => if p != "" { AddKeepsWellFormed(list, Entry("", Truncate(p), now)); }
    case Account(e, p) => if p != "" { AddKeepsWellFormed(list, Entry(Truncate(e), Truncate(p), now)); }
    case Remove(e) => RemoveKeepsWellFormed(list, e);
    case ForEach(i) => if i < |list| { RefreshKeepsWellFormed(list, i, now); }
  }

  /** Over every run: non-empty emails stay pairwise distinct, no passphrase is empty and both
      fields stay within MAX_LEN. */
  lemma {:induction false} RunKeepsWellFormed(list: seq<Entry>, ops: seq<(Op, int)>)
    requires WellFormed(list)
    ensures WellFormed(Run(list, ops))
    decreases |ops|
  {
    if ops != [] {
      ApplyKeepsWellFormed(list, ops[0].0, ops[0].1);
      RunKeepsWellFormed(Apply(list, ops[0].0, ops[0].1), ops[1..]);
    }
  }

  // ----- the accounts -----

  /** The (email, passphrase) pairs `configure_session` hands to the engine, in list order. */
  function AccountList(list: seq<Entry>): seq<(string, string)> {
    if list == [] then []
    else if list[0].email == "" then AccountList(list[1..])
    else [(list[0].email, list[0].passphrase)] + AccountList(list[1..])
  }

  predicate Bound(list: seq<Entry>, email: string, passphrase: string) {
    email != "" && exists i :: 0 <= i < |list| && list[i].email == email && list[i].passphrase == passphrase
  }

  lemma BoundFirst(list: seq<Entry>, e: string, p: string)
    requires list != []
    ensures Bound(list, e, p) <==>
      (e != "" && list[0].email == e && list[0].passphrase == p) || Bound(list[1..], e, p)
  {
  }

  lemma FirstBindings(list: seq<Entry>, rest: map<string, string>)
    requires list != [] && forall e :: e in rest ==> Bound(list[1..], e, rest[e])
    ensures var first := list[0];
      var m := if first.email == "" then rest else rest[first.email := first.passphrase];
      forall e :: e in m ==> Bound(list, e, m[e])
  {
    hide Bound;
    var first := list[0];
    var m := if first.email == "" then rest else rest[first.email := first.passphrase];
    forall e | e in m ensures Bound(list, e, m[e]) {
      BoundFirst(list, e, m[e]);
    }
  }

  /** The pairs as a finite map; `AccountsAgree` shows it is the one the list determines. */
  function Accounts(list: seq<Entry>): (m: map<string, string>)
    ensures forall e :: e in m ==> Bound(list, e, m[e])
    ensures forall i :: 0 <= i < |list| && list[i].email != "" ==> list[i].email in m
  {
    if list == [] then map[]
    else
      var rest := Accounts(list[1..]);
      FirstBindings(list, rest);
      if list[0].email == "" then rest else rest[list[0].email := list[0].passphrase]
  }

  /** Under distinct emails the bindings of a list are exactly the pairs in its map. */
  lemma AccountsAgree(list: seq<Entry>, e: string, p: string)
    requires DistinctEmails(list)
    ensures Bound(list, e, p) <==> e in Accounts(list) && Accounts(list)[e] == p
  {
  }

  /** Two lists with the same bindings have the same map. */
  lemma SameBindingsSameAccounts(list: seq<Entry>, m: map<string, string>)
    requires DistinctEmails(list)
    requires forall e, p :: Bound(list, e, p) <==> e in m && m[e] == p
    ensures Accounts(list) == m
  {
    forall e ensures e in m <==> e in Accounts(list) {
      if e in m { assert Bound(list, e, m[e]); }
      if e in Accounts(list) { assert Bound(list, e, Accounts(list)[e]); }
    }
    forall e | e in m ensures Accounts(list)[e] == m[e] {
      assert Bound(list, e, Accounts(list)[e]);
    }
  }

  lemma {:induction false} PairsAreBindings(list: seq<Entry>, e: string, p: string)
    ensures (e, p) in AccountList(list) <==> Bound(list, e, p)
  {
    if list != [] {
      PairsAreBindings(list[1..], e, p);
      BoundFirst(list, e, p);
    }
  }

  predicate ListedOnce(l: seq<(string, string)>) {
    forall i, j :: 0 <= i < j < |l| ==> l[i].0 != l[j].0
  }

  lemma {:induction false} AccountsListedOnce(list: seq<Entry>)
    requires DistinctEmails(list)
    ensures ListedOnce(AccountList(list))
  {
    if list != [] {
      var rest := AccountList(list[1..]);
      AccountsListedOnce(list[1..]);
      forall j | 0 <= j < |rest| && list[0].email != "" ensures rest[j].0 != list[0].email {
        assert (rest[j].0, rest[j].1) in rest;
        PairsAreBindings(list[1..], rest[j].0, rest[j].1);
        var i :| 0 <= i < |list[1..]| && list[1..][i].email == rest[j].0 && list[1..][i].passphrase == rest[j].1;
        assert list[i + 1].email == rest[j].0;
      }
    }
  }

  /** What the engine is given names every account once and is the map, pair by pair. */
  lemma AccountListIsTheMap(list: seq<Entry>)
    requires DistinctEmails(list)
    ensures var l := AccountList(list);
      && ListedOnce(l)
      && (forall e, p :: (e, p) in l <==> e in Accounts(list) && Accounts(list)[e] == p)
  {
    hide AccountList, Bound, Accounts, DistinctEmails;
    AccountsListedOnce(list);
    forall e, p ensures (e, p) in AccountList(list) <==> e in Accounts(list) && Accounts(list)[e] == p {
      PairsAreBindings(list, e, p);
      AccountsAgree(list, e, p);
    }
  }

  lemma AddedBinding(list: seq<Entry>, e: Entry, x: string, q: string)
    requires DistinctEmails(list) && e.email != ""
    ensures Bound(AddEntry(list, e), x, q) <==> if x == e.email then q == e.passphrase else Bound(list, x, q)
  {
    var r := AddEntry(list, e);
    var i := FindMatch(list, e);
    assert r[i] == e;
    if Bound(list, x, q) && x != e.email {
      var k :| 0 <= k < |list| && list[k].email == x && list[k].passphrase == q;
      assert r[k] == list[k];
    }
  }

  /** `add(email, p)` is a map update. */
  lemma AddAccountUpdatesMap(list: seq<Entry>, email: string, p: string, now: int)
    requires WellFormed(list) && email != "" && p != ""
    ensures Accounts(AddAccount(list, email, p, now)) == Accounts(list)[Truncate(email) := Truncate(p)]
  {
    hide Bound, Accounts, FindMatch;
    var e := Entry(Truncate(email), Truncate(p), now);
    var r := AddAccount(list, email, p, now);
    var m := Accounts(list)[e.email := e.passphrase];
    AddKeepsWellFormed(list, e);
    forall x, q ensures Bound(r, x, q) <==> x in m && m[x] == q {
      AccountsAgree(list, x, q);
      AddedBinding(list, e, x, q);
    }
    SameBindingsSameAccounts(r, m);
  }

  /** `remove(email)` takes one key out of the map. A key longer than MAX_LEN is never in it. */
  lemma RemoveShrinksMap(list: seq<Entry>, email: string)
    requires WellFormed(list)
    ensures Accounts(RemoveEmail(list, email)) == Accounts(list) - {email}
    ensures |email| > MAX_LEN ==> RemoveEmail(list, email) == list
  {
    var r := RemoveEmail(list, email);
    var m := Accounts(list) - {email};
    RemoveKeepsWellFormed(list, email);
    forall x, q ensures Bound(r, x, q) <==> x in m && m[x] == q {
      AccountsAgree(list, x, q);
      if Bound(list, x, q) && x != email {
        var k :| 0 <= k < |list| && list[k].email == x && list[k].passphrase == q;
        assert list[k] in r;
      }
      if Bound(r, x, q) {
        var k :| 0 <= k < |r| && r[k].email == x && r[k].passphrase == q;
        assert r[k] in list;
      }
    }
    SameBindingsSameAccounts(r, m);
    if |email| > MAX_LEN { NothingToRemove(list, email); }
  }

  lemma {:induction false} NothingToRemove(list: seq<Entry>, email: string)
    requires forall i :: 0 <= i < |list| ==> list[i].email != email
    ensures RemoveEmail(list, email) == list
  {
    if list != [] { NothingToRemove(list[1..], email); }
  }

  lemma {:induction false} RemoveConcat(a: seq<Entry>, b: seq<Entry>, email: string)
    ensures RemoveEmail(a + b, email) == RemoveEmail(a, email) + RemoveEmail(b, email)
  {
    if a == [] {
      assert a + b == b;
    } else {
      assert (a + b)[0] == a[0] && (a + b)[1..] == a[1..] + b;
      RemoveConcat(a[1..], b, email);
    }
  }

  /** Removing around an entry that stays. */
  lemma RemoveAround(list: seq<Entry>, email: string, i: nat)
    requires i < |list| && list[i].email != email
    ensures var k := |RemoveEmail(list[..i], email)|;
      k < |RemoveEmail(list, email)| && RemoveEmail(list, email)[k] == list[i]
  {
    var rest := list[i..];
    assert list == list[..i] + rest;
    assert RemoveEmail(rest, email) == [list[i]] + RemoveEmail(rest[1..], email);
    RemoveConcat(list[..i], rest, email);
  }

  /** Removing an account undoes adding it exactly when its email was not cut: `add` stores the
      cut email, `remove` compares the uncut one. */
  lemma RemoveUndoesAdd(list: seq<Entry>, email: string, p: string, now: int)
    requires WellFormed(list) && email != "" && p != ""
    ensures Accounts(RemoveEmail(AddAccount(list, email, p, now), email)) == Accounts(list) - {Truncate(email)}
      <==> |email| <= MAX_LEN
  {
    AddAccountUpdatesMap(list, email, p, now);
    ApplyKeepsWellFormed(list, Account(email, p), now);
    RemoveShrinksMap(AddAccount(list, email, p, now), email);
    UpdateThenRemove(Accounts(list), Truncate(email), Truncate(p), email);
  }

  lemma UpdateThenRemove(m: map<string, string>, key: string, value: string, removed: string)
    ensures m[key := value] - {removed} == m - {key} <==> removed == key
  {
    if removed != key { assert key in m[key := value] - {removed}; }
  }

  lemma RefreshKeepsBinding(list: seq<Entry>, i: nat, now: int, x: string, q: string)
    requires i < |list|
    ensures Bound(Refresh(list, i, now), x, q) <==> Bound(list, x, q)
  {
    var r := Refresh(list, i, now);
    if Bound(list, x, q) {
      var k :| 0 <= k < |list| && list[k].email == x && list[k].passphrase == q;
      var k' := if k < i then k else if k == i then |r| - 1 else k - 1;
      assert r[k'].email == x && r[k'].passphrase == q;
    }
    if Bound(r, x, q) {
      var k :| 0 <= k < |r| && r[k].email == x && r[k].passphrase == q;
      var k' := if k < i then k else if k == |r| - 1 then i else k + 1;
      assert list[k'].email == x && list[k'].passphrase == q;
    }
  }

  /** Moving an entry to the back leaves the map alone. */
  lemma RefreshKeepsMap(list: seq<Entry>, i: nat, now: int)
    requires WellFormed(list) && i < |list|
    ensures Accounts(Refresh(list, i, now)) == Accounts(list)
  {
    RefreshKeepsWellFormed(list, i, now);
    forall x, q ensures Bound(Refresh(list, i, now), x, q) <==> x in Accounts(list) && Accounts(list)[x] == q {
      AccountsAgree(list, x, q);
      RefreshKeepsBinding(list, i, now, x, q);
    }
    SameBindingsSameAccounts(Refresh(list, i, now), Accounts(list));
  }

  lemma AddPlainBinding(list: seq<Entry>, e: Entry, x: string, q: string)
    requires DistinctEmails(list) && e.email == ""
    ensures var i := FindMatch(list, e);
      Bound(AddEntry(list, e), x, q) <==> Bound(list, x, q) && !(i < |list| && list[i].email == x)
  {
    var i := FindMatch(list, e);
    var r := AddEntry(list, e);
    assert forall k :: 0 <= k < |r| ==> r[k] == if k == i then e else list[k];
    if Bound(list, x, q) {
      var k :| 0 <= k < |list| && list[k].email == x && list[k].passphrase == q;
      assert k != i ==> r[k] == list[k];
    }
    if Bound(r, x, q) {
      var k :| 0 <= k < |r| && r[k].email == x && r[k].passphrase == q;
      assert k != i && r[k] == list[k];
    }
  }

  /** A plain `add` loses the binding of the first entry with that passphrase, if that entry is an
      account, and nothing else. */
  lemma AddPlainLosesAtMostOne(list: seq<Entry>, p: string, now: int)
    requires WellFormed(list) && p != ""
    ensures var i := FindMatch(list, Entry("", Truncate(p), now));
      Accounts(AddPlain(list, p, now)) ==
        if i < |list| then Accounts(list) - {list[i].email} else Accounts(list)
  {
    var e := Entry("", Truncate(p), now);
    var i := FindMatch(list, e);
    var m := if i < |list| then Accounts(list) - {list[i].email} else Accounts(list);
    AddKeepsWellFormed(list, e);
    forall x, q ensures Bound(AddEntry(list, e), x, q) <==> x in m && m[x] == q {
      AccountsAgree(list, x, q);
      AddPlainBinding(list, e, x, q);
    }
    SameBindingsSameAccounts(AddEntry(list, e), m);
  }

  /** The reference: a plain finite map, in which a plain passphrase binds nothing. */
  function MapApply(m: map<string, string>, op: Op): map<string, string> {
    match op
    case Account(e, p) => if e == "" || p == "" then m else m[Truncate(e) := Truncate(p)]
    case Remove(e) => m - {e}
    case Plain(_) => m
    case ForEach(_) => m
  }

  function MapRun(m: map<string, string>, ops: seq<(Op, int)>): map<string, string>
    decreases |ops|
  {
    if ops == [] then m else MapRun(MapApply(m, ops[0].0), ops[1..])
  }

  predicate SubMap(m: map<string, string>, n: map<string, string>) {
    forall e :: e in m ==> e in n && m[e] == n[e]
  }

  /** An operation that searches by passphrase: `add` without an email, or with an empty one. */
  predicate AddsPlain(op: Op) {
    op.Plain? || (op.Account? && op.email == "")
  }

  lemma ApplyRefinesMap(list: seq<Entry>, op: Op, now: int)
    requires WellFormed(list)
    ensures SubMap(Accounts(Apply(list, op, now)), MapApply(Accounts(list), op))
    ensures !AddsPlain(op) ==> Accounts(Apply(list, op, now)) == MapApply(Accounts(list), op)
  {
    match op
    case Plain(p) => if p != "" { AddPlainLosesAtMostOne(list, p, now); }
    case Account(e, p) =>
      if e == "" && p != "" {
        AddPlainLosesAtMostOne(list, p, now);
        assert AddAccount(list, e, p, now) == AddPlain(list, p, now);
      } else if p != "" {
        AddAccountUpdatesMap(list, e, p, now);
      }
    case Remove(e) => RemoveShrinksMap(list, e);
    case ForEach(i) => if i < |list| { RefreshKeepsMap(list, i, now); }
  }

  lemma {:induction false} MapRunMonotone(m: map<string, string>, n: map<string, string>, ops: seq<(Op, int)>)
    requires SubMap(m, n)
    ensures SubMap(MapRun(m, ops), MapRun(n, ops))
    decreases |ops|
  {
    if ops != [] { MapRunMonotone(MapApply(m, ops[0].0), MapApply(n, ops[0].0), ops[1..]); }
  }

  /** Over every run the bindings the engine sees are among those of the reference map, and are
      exactly those when no plain passphrase was added. */
  lemma {:induction false} RunRefinesMap(list: seq<Entry>, ops: seq<(Op, int)>)
    requires WellFormed(list)
    ensures SubMap(Accounts(Run(list, ops)), MapRun(Accounts(list), ops))
    ensures (forall i :: 0 <= i < |ops| ==> !AddsPlain(ops[i].0))
      ==> Accounts(Run(list, ops)) == MapRun(Accounts(list), ops)
    decreases |ops|
  {
    if ops != [] {
      var next := Apply(list, ops[0].0, ops[0].1);
      ApplyKeepsWellFormed(list, ops[0].0, ops[0].1);
      ApplyRefinesMap(list, ops[0].0, ops[0].1);
      RunRefinesMap(next, ops[1..]);
      MapRunMonotone(Accounts(next), MapApply(Accounts(list), ops[0].0), ops[1..]);
    }
  }

  /** Refreshing loses nothing: same entries but for the time stamp, the others in their order. */
  lemma RefreshPermutes(list: seq<Entry>, i: nat, now: int)
    requires i < |list|
    ensures var r := Refresh(list, i, now);
      && multiset(Passphrases(r)) == multiset(Passphrases(list))
      && r[..|r| - 1] == list[..i] + list[i + 1..]
      && r[|r| - 1] == Entry(list[i].email, list[i].passphrase, now)
  {
    var r := Refresh(list, i, now);
    var p := Passphrases(list);
    assert p == p[..i] + [p[i]] + p[i + 1..];
    assert Passphrases(r) == p[..i] + p[i + 1..] + [p[i]];
  }
}
