/** The optional header fields of a message as a value, and the cache ID among them
    (src/message_cache.cc). */
module OptFields {
  import opened Common

  /** A key and a value, either of which may be a null pointer. */
  datatype Pair = Pair(key: Option<string>, value: Option<string>)

  /** A stringpair_list_t from its head: one element a node, None where the node's value is null.
      The null list is the empty sequence. */
  type Fields = seq<Option<Pair>>

  const CACHE_ID := "X-pEp-Adapter-Cache-ID"

  function IdField(cid: string): Option<Pair> {
    Some(Pair(Some(CACHE_ID), Some(cid)))
  }

  predicate IsId(f: Option<Pair>) {
    f.Some? && f.value.key == Some(CACHE_ID)
  }

  /** A list is empty when it is null or its head holds no pair. */
  predicate IsEmpty(fields: Fields) {
    fields == [] || fields[0] == None
  }

  /** Where the walk over the list meets the first ID; the length of the list if it meets none. The
      walk ends at the first node without a pair. */
  function FindId(fields: Fields): (i: nat)
    ensures i <= |fields|
    ensures i < |fields| ==> IsId(fields[i])
    ensures i < |fields| ==> forall j :: 0 <= j < i ==> fields[j] != None && !IsId(fields[j])
  {
    if IsEmpty(fields) then |fields|
    else if IsId(fields[0]) then 0
    else
      FindId(fields[1..]) + 1
  }

  /** The cache ID of a message with these fields, "" if it has none. */
  function CacheId(fields: Fields): string {
    var i := FindId(fields);
    if i < |fields| && fields[i].value.value.Some? then fields[i].value.value.value else ""
  }

  function PutId(fields: Fields, cid: string): Fields {
    if IsEmpty(fields) then [IdField(cid)] else [IdField(cid)] + fields
  }

  function RemoveId(fields: Fields): Fields {
    var i := FindId(fields);
    if i < |fields| then fields[..i] + fields[i + 1..] else fields
  }

  /** The three operations fit together: an ID put is the ID found; removing it gives the original
      list back, the empty ones as null, even if that list already held an ID. */
  lemma PutThenFindAndRemove(fields: Fields, cid: string)
    ensures CacheId(PutId(fields, cid)) == cid
    ensures RemoveId(PutId(fields, cid)) == if IsEmpty(fields) then [] else fields
    ensures !IsEmpty(PutId(fields, cid))
  {
  }

  /** The ID of a message is the value of its first field with the key, "" where that has no value or
      there is none before a node without a pair. */
  lemma FirstIdCounts(before: Fields, value: Option<string>, rest: Fields)
    requires forall j :: 0 <= j < |before| ==>
      before[j].Some? && before[j].value.key != Some("X-pEp-Adapter-Cache-ID")
    ensures CacheId(before + [Some(Pair(Some("X-pEp-Adapter-Cache-ID"), value))] + rest)
      == if value.Some? then value.value else ""
    ensures CacheId(before) == "" && CacheId(before + [None] + rest) == ""
  {
    var field := Some(Pair(Some("X-pEp-Adapter-Cache-ID"), value));
    FindSkips(before, [field] + rest);
    assert before + [field] + rest == before + ([field] + rest);
    FindSkips(before, []);
    assert before + [] == before;
    FindSkips(before, [None] + rest);
    assert before + [None] + rest == before + ([None] + rest);
  }

  /** The walk misses an ID only behind another one or behind a node without a pair. */
  lemma {:induction false} FoundUnlessHidden(fields: Fields, j: nat)
    requires j < |fields| && IsId(fields[j]) && FindId(fields) > j
    ensures exists k :: 0 <= k < j && fields[k] == None
  {
    if !IsEmpty(fields) {
      FoundUnlessHidden(fields[1..], j - 1);
      var k :| 0 <= k < j - 1 && fields[1..][k] == None;
      assert fields[k + 1] == None;
    }
  }

  /** Removing takes away one node, the one that was found, and uncovers the next ID if there is one. */
  lemma {:induction false} RemoveTakesOne(fields: Fields)
    ensures var i := FindId(fields);
      if i == |fields| then RemoveId(fields) == fields
      else
        && multiset(fields) == multiset(RemoveId(fields)) + multiset{fields[i]}
        && CacheId(RemoveId(fields)) == CacheId(fields[i + 1..])
  {
    var i := FindId(fields);
    if i < |fields| {
      var before, rest := fields[..i], fields[i + 1..];
      assert fields == before + [fields[i]] + rest;
      SkippedId(before, rest);
    }
  }

  lemma SkippedId(before: Fields, rest: Fields)
    requires forall j :: 0 <= j < |before| ==> before[j] != None && !IsId(before[j])
    ensures CacheId(before + rest) == CacheId(rest)
  {
    FindSkips(before, rest);
    var i := FindId(rest);
    if i < |rest| { assert (before + rest)[|before| + i] == rest[i]; }
  }

  lemma {:induction false} FindSkips(before: Fields, rest: Fields)
    requires forall j :: 0 <= j < |before| ==> before[j] != None && !IsId(before[j])
    ensures FindId(before + rest) == |before| + FindId(rest)
  {
    if before == [] {
      assert before + rest == rest;
    } else {
      assert (before + rest)[1..] == before[1..] + rest;
      FindSkips(before[1..], rest);
    }
  }
}
