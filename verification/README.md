# Verified model of the message cache, the passphrase cache and the sync machine of libpEpAdapter

libpEpAdapter sits between a mail application and the pEp engine. Three of its components hold
state, and this project models these three and proves what they promise.

**The message cache** (`messages`, `opt_fields`, `cache_*`, `heap_*`). Applications hold slim
messages; bodies and attachments stay in a map, under an ID that travels in the optional header
fields of the message. Every call moves the content out of the map into the caller's message, calls
the engine between two lock sections, and moves the content back. `cache_model.dfy` gives the
operations on values, `cache_theorems.dfy` compares them with an application that keeps full messages
itself, and `cache_interleaving.dfy` splits them at their lock sections and interleaves programs of
them. The `heap_*` files do the same work in place: linked lists, strings and messages are blocks of a
C heap (`HeapLists.Memory`), a block can be freed only while it is allocated, and each operation is
proved equal to the one on values while every block has exactly one owner. `heap_callers.dfy` adds the
messages callers hold, `heap_runs.dfy` puts that together for whole runs in which messages are held
from call to call, and `heap_interleaving.dfy` for programs of calls that run at the same time.

**The passphrase cache** (`passphrase_*`). A list with overwrite-or-append, move to the back on
success, a backward iterator that restarts itself, and the enumerator `config_next_passphrase`
builds on a copy. `passphrase_cache.dfy` has the classes, the other files what they compute and
what follows from that.

**The sync machine** (`sync_*`, `callback_dispatcher`). A queue of events with null markers for
shutdown, a sync thread that is started and stopped, a gate that makes it wait for a passphrase, and
the fan-out to registered targets. `sync_machine.dfy` is a step relation over the atomic operations
of all threads, with one invariant; `sync_theorems.dfy` and `sync_losses.dfy` say what that means over
runs; `sync_objects.dfy` says what a run does to each shared object; `sync_threads.dfy` tells the sync
threads from the handle that is to denote them;
`callback_dispatcher.dfy` has the dispatcher as a class.

The engine is a parameter everywhere: a function from the message it is given to a status, what it
leaves of that message, and a new message or none. In the heap it may replace every block of the
message it is given, or use it in the message it makes, and touches no other (`HeapEngine.CallEngine`).

## Where the code does not do what one may expect

- Decryption with full output releases the cache entry on every status, so that after a failure the
  content is gone; without full output it is kept on every status (`DecryptKeepsEntryUnlessFull`).
- A full input for which the engine makes no message returns a copy of the caller's message; that
  leads back to the entry if and only if the engine left the ID first in it, and may lead to another
  caller's entry (`HandlesCarryKey`, `HandleLeadsElsewhere`).
- `remove` compares the email as given with emails cut to 1000 bytes on `add`: for a longer one it
  removes nothing (`RemoveUndoesAdd`, both directions).
- A plain `add` can overwrite an account entry with the same passphrase (`AddPlainLosesAtMostOne`).
- Copy assignment leaves the stored passphrase out, so `config_next_passphrase` never tries it
  (`OnlyListedPassphrases`), unlike `for_each_passphrase`.
- A passphrase added after the snapshot was taken, or one given to an account that had another, is not
  in the enumeration under way, and if its `go()` comes before the sync thread's `stop()`, the gate
  closes with that passphrase untried (`LostWakeUp`, an equivalence over all runs; `StrandedIsReachable`).
- A stop injected before the sync thread's own `clear` is lost, and only then (`StopSurvives`, an
  equivalence; `EarlyStopIsReachable`); one injected while the thread waits at the closed gate takes
  effect only after somebody opens the gate (`StopWaitsForGate`).
- `std::thread(...)` runs before it is assigned to `_sync_thread`. Until then the new thread does not
  find itself to be the sync thread, and its requests for a passphrase are fanned out as null messages
  (`RetryIsTaken`, an equivalence; `HastyIsReachable`).
- Removing the last target stops sync, but no target is left to hear of it (`Remove` in
  `CallbackDispatcher`).
- Events are pushed to and popped from the front of the queue: the newest comes first (`NewestFirst`).
- The comments of the passphrase cache speak of a time-out, and `test/test_passphrase_cache.cc`
  expects no passphrase after a pause; no code enforces `_timeout` or `_max_size`. The model
  follows the code.

## Model

| member | source | states |
|---|---|---|
| `CacheTheorems.CacheAgreesWithDirectCalls` | src/message_cache.cc:369-690 | over every run of cache calls, with any messages, engines and encoders: the engine and the encoder are given the same messages, callers get the same statuses and messages, and the same content is held as by an application that keeps the full messages itself and calls the engine on them |
| `CacheTheorems.EncryptMovesContent` | src/message_cache.cc:559-587 | the engine gets the header of the handle with the content stored under its ID; afterwards the entry holds the content the engine left, its other fields are what they were, the result replaces the old destination, the handle holds no content, and no other entry is touched |
| `CacheTheorems.DecryptKeepsEntryUnlessFull` | src/message_cache.cc:396-413 | decryption keeps the entry if and only if full output was not asked for, on every status; what it keeps is the content and the result the engine left, and no other entry changes |
| `CacheTheorems.DecryptShowsText` | src/message_cache.cc:264-274 | decryption without full output shows the caller the long text the engine made, or else the formatted one, its subject, all other members, and its fields behind the ID; nothing exactly where the engine made nothing |
| `CacheTheorems.OthersShowPlaceholder` | src/message_cache.cc:275-287 | every other call that returns a message, of the parsed one, of the result of the engine, or, without one, of the input, returns no text of it: its subject or a placeholder, and all other members |
| `CacheTheorems.HandlesCarryKey` | src/message_cache.cc:615-633 | the entry a call keeps is there, and a message it returns carries the key of that entry as its first ID if and only if the call is not a full input for which the engine made no message and did not leave the key first in the source |
| `CacheTheorems.HandleLeadsElsewhere` | src/message_cache.cc:617-626 | inputs at which it does not: for any live key of another entry there is an engine with which the returned message leads to that entry, and one with which it leads nowhere |
| `CacheTheorems.RoundTrip` | src/message_cache.cc:418-457 | decode, any number of calls whose engine leaves the source alone, encode of the source: the encoder is given every member of the parsed header, both texts, the attachments, reordered if there was a decryption, the references and the fields, without the ID, empty subject and empty field list as null; the cache is as before the decode |
| `CacheTheorems.UseKeepsHeld` | src/message_cache.cc:369-416 | one encryption or decryption whose engine leaves the source alone keeps header and content of a held message, up to the order of attachments, and all other entries |
| `CacheModel.RunKeepsFresh` | src/message_cache.cc:486-508 | over every run no ID still to be generated is a key of the cache, so that every `emplace` inserts |
| `CacheModel.StepKeepsFresh` | src/message_cache.cc:548-553 | every call keeps that |
| `CacheModel.KeysOfStep` | src/message_cache.cc:486-493 | a call adds no key but the one generated next, and then the generator has moved on |
| `CacheModel.EmplaceContract` | src/message_cache.cc:551-554 | no entry is overwritten and no other is touched |
| `CacheIds.FreshIds` | src/message_cache.cc:14-21 | from any seed the first 2^62 IDs come without signed overflow and are pairwise distinct; from the largest seed no more than those do |
| `CacheIds.GeneratedExactly` | src/message_cache.cc:486-493 | k IDs can be generated without overflow if and only if the counter plus k is at most LLONG_MAX; the i-th is the prefix followed by counter plus i |
| `CacheIds.IdInjective` | src/message_cache.cc:488-490 | equal IDs under one prefix come from equal counter values |
| `CacheIds.Decimal` | src/message_cache.cc:488-489 | the decimal rendering is not empty and denotes the number, hence is injective |
| `OptFields.PutThenFindAndRemove` | src/message_cache.cc:459-484 | an ID put is the ID found; removing it gives the original list back, null for the empty ones, even if the list already held an ID |
| `OptFields.RemoveTakesOne` | src/message_cache.cc:510-534 | removing takes exactly the first ID found out of the list and uncovers the next one |
| `OptFields.FoundUnlessHidden` | src/message_cache.cc:495-508 | where the walk has not met an ID before, it passes over one only behind a node without a pair |
| `OptFields.FindId` | src/message_cache.cc:495-508 | the walk stops at the first ID before any node without a pair, or nowhere |
| `OptFields.FirstIdCounts` | src/message_cache.cc:495-508 | the ID of a message is the value of its first field with the key, empty where that has none or where there is none before a node without a pair |
| `Messages.SlimCopyContract` | src/message_cache.cc:251-330 | member by member: a slim copy has every member of the header and the references of the original, with an empty subject as null and without attachments; with full text the long text, or else the formatted one; without it no text, and "pEp" or "<pEp/>" where a text has no subject; the fields of the original behind the ID given. It has one of the three texts exactly when the original has, and copying it again without an ID changes nothing |
| `Messages.CorrectOrderContract` | src/message_cache.cc:332-352 | the reordered list is a permutation, never in the reverse of the order of section 4 of RFC 3156, changed exactly when it was in that reverse, and a fixed point |
| `CacheModel.PutIsFound` | src/message_cache.cc:548-549 | the ID put into a message is found in it and in its slim copy |
| `CacheInterleaving.InterleavingIsSequential` | src/message_cache.cc:384-409 | any complete interleaving of programs of encrypt, decrypt, encode and release calls, one program for each of a number of IDs, split at their lock sections and with the handle edited by its caller between calls, ends in the cache map, the handles and the results of all calls that running the programs one after another gives |
| `CacheInterleaving.OrderIsIrrelevant` | src/message_cache.cc:567-584 | two schedules that give every program the same number of steps end in the same state, also halfway |
| `CacheInterleaving.InterleaveIsLocal` | src/message_cache.cc:662-687 | after any interleaving every program and its entry are where that many steps of the program alone take them; entries of no program are untouched |
| `CacheInterleaving.SerialFinishes` | src/message_cache.cc:369-457 | a program run alone with its entry, section by section, comes to the entry, the handle and the results of its calls as single operations, and changes no other entry |
| `CacheInterleaving.StartContract` | src/message_cache.cc:376-382 | the next call of a program is made on the message as its caller edited it, if that carries the ID of the program or the call is a release; otherwise the caller has only edited it |
| `CacheInterleaving.SectionsMakeTheOperation` | src/message_cache.cc:369-416 | first lock section, engine call, second lock section and release, undisturbed, are the whole operation |
| `CacheInterleaving.StepIsLocal` | src/message_cache.cc:435-454 | a step sees and changes the entry under its own ID only |
| `HeapRuns.Lifetime` | src/message_cache.cc:119-128 | from a new cache, through up to 2^62 moves of callers, who call, make, change and free messages and hold them across calls, to the end: results are those of the run on values, no block is freed twice, and if no call is one of those that lose blocks, none is left allocated |
| `HeapRuns.PlayAll` | src/message_cache.cc:369-690 | over any such run callers hold and are told what the run on values gives, and between any two moves every live block belongs to exactly one entry of the cache or one held message, or was lost in a call that loses blocks |
| `HeapRuns.Play` | src/message_cache.cc:369-690 | one move, likewise, with all other messages held meanwhile as they were; only encoding under an unknown ID and a full input turned down by the engine lose blocks |
| `HeapRuns.CallsAreARun` | src/message_cache.cc:369-690 | the calls such a run makes are a run of the cache on values, to which the comparison with direct calls applies |
| `HeapRuns.MoveContract` | src/message_cache.cc:369-690 | after a call its message is in the slot it came from, the message returned in the next one, and all other slots are as they were; what callers do themselves changes one slot |
| `HeapRuns.CallContract` | src/message_cache.cc:369-690 | each move that calls is the operation of the cache, with these arguments, on the message in the slot it names |
| `HeapRuns.DropAll` | src/message_cache.cc:123-124 | freeing every held message frees exactly the blocks callers owned |
| `HeapRuns.ReleaseAll` | src/message_cache.cc:119-128 | releasing every entry frees exactly the blocks the cache owned |
| `HeapInterleaving.RunSchedule` | src/message_cache.cc:384-409 | any schedule of lock sections, engine calls, releases and starts of the next call, for programs of calls on distinct IDs, on real blocks, is the interleaving on values; after every step, with content out in the hands of any of the callers, every live block belongs to exactly one entry, one message of a program or one bystander, or was lost in an encoding that threw, and bystanders keep their messages |
| `HeapInterleaving.RunToEnd` | src/message_cache.cc:369-416 | when all programs have had their steps, cache, messages and the results of all calls are those of running them one after another |
| `HeapInterleaving.AdvanceLine` | src/message_cache.cc:384-409 | one step of a program on its blocks, within a call or to the next one, is the step on values, and no other slot changes; nothing is lost unless an encoding throws |
| `HeapInterleaving.TakeStep` | src/message_cache.cc:384-409 | one lock section or engine call of one call on its blocks is the step on values, and no other slot changes |
| `HeapCallers.Callers.TakeAt` | src/message_cache.cc:384-388 | the first lock section moves the blocks of the content to the message of the caller and accounts for all blocks |
| `HeapCallers.Callers.SecondAt` | src/message_cache.cc:402-409 | the second lock section moves them back, and the message the engine made becomes the destination of the entry |
| `HeapCache.MessageCache.constructor` | src/message_cache.cc:14-21 | a new cache is empty and owns nothing |
| `HeapCache.MessageCache.Decrypt` | src/message_cache.cc:369-416 | `decrypt_message` on real blocks is the operation on values in cache, handle, result and status, for null and unmarked messages too; every block is still owned once or freed once |
| `HeapCache.MessageCache.Encrypt` | src/message_cache.cc:559-587 | the same for `encrypt_message` and `encrypt_message_for_self` |
| `HeapCache.MessageCache.MimeEncode` | src/message_cache.cc:418-457 | the same for `mime_encode_message`; where the lookup throws exactly the copy made before it is lost |
| `HeapCache.MessageCache.MimeDecode` | src/message_cache.cc:536-557 | the same for `mime_decode_message` |
| `HeapCache.MessageCache.FullInput` | src/message_cache.cc:589-637 | the same for the full-input operations; on an error of the engine what is lost is exactly the message the engine made |
| `HeapCache.MessageCache.Release` | src/message_cache.cc:119-128 | source and destination of the entry are freed once each and the key is gone; nothing happens where there is no entry |
| `HeapCache.MessageCache.Take` | src/message_cache.cc:384-388 | the first lock section moves the content blocks out of the cache and frees what the handle held; no block of any other entry changes |
| `HeapCache.MessageCache.GiveBack` | src/message_cache.cc:402-404 | the second lock section moves the content blocks back into the entry |
| `HeapCache.MessageCache.SetDst` | src/message_cache.cc:405-408 | the old destination is freed and the result takes its place |
| `HeapCache.MessageCache.TakeDst` | src/message_cache.cc:440-447 | encoding the destination moves its content out and leaves the source alone |
| `HeapCache.MessageCache.SecondSection` | src/message_cache.cc:402-409 | giving back and replacing the destination together account for every block of cache, handle and result |
| `HeapCache.MessageCache.Complete` | src/message_cache.cc:393-409 | from the engine call to the end of the second section, with the slim copy for the caller apart from all that |
| `HeapCache.MessageCache.Emplace` | src/message_cache.cc:551-554 | `emplace` adds the entry, or loses both messages where the key is taken |
| `HeapMessages.SwapContentBlocks` | src/message_cache.cc:354-367 | the content of one message moves to the other, which frees its own; nothing else of either changes |
| `HeapMessages.CorrectAttachmentsOrder` | src/message_cache.cc:332-352 | relinking two attachment nodes in place is the reordering of values; the same nodes, an acyclic list |
| `HeapMessages.PutCacheId` | src/message_cache.cc:459-484 | the in-place put is the put on values; the message owns one more node, and of an empty list the old nodes are freed |
| `HeapMessages.RemoveCacheId` | src/message_cache.cc:510-534 | the in-place removal is the removal on values; exactly the blocks no longer owned are freed |
| `HeapMessages.CacheIdOf` | src/message_cache.cc:495-508 | the pointer walk finds the ID of the value |
| `HeapMessages.EmptyMessageCopy` | src/message_cache.cc:251-330 | the copy, in blocks of its own, has the value of a slim copy; the original is as before |
| `HeapMessages.FreeMessage` | src/message_cache.cc:123-124 | each block of a message is freed once and no other |
| `HeapFields.RemoveField` | src/message_cache.cc:510-534 | the loop with its trailing pointer removes the first ID, keeps every other node in order, and never follows a null predecessor |
| `HeapFields.RemoveLater` | src/message_cache.cc:519-533 | the second branch: the predecessor is not null where it is used |
| `HeapFields.Unlink` | src/message_cache.cc:525-528 | unlinking leaves a list of the other nodes in order and frees one node |
| `HeapFields.PutField` | src/message_cache.cc:465-483 | a new head in front of a list, or a new list for an empty one |
| `HeapFields.FindField` | src/message_cache.cc:497-507 | the loop returns the ID of the list of values |
| `HeapLists.CopyList` | src/message_cache.cc:215-241 | the copying loop makes a list of new nodes with the same values in the same order |
| `HeapLists.FreeList` | src/message_cache.cc:364-364 | every node of a list is freed once |
| `PassphraseList.RunKeepsWellFormed` | src/passphrase_cache.cc:14-23 | over every run of adds, removes and searches: non-empty emails are pairwise distinct, passphrases are not empty, both are at most 1000 bytes |
| `PassphraseList.ApplyKeepsWellFormed` | src/passphrase_cache.cc:45-113 | every operation keeps that |
| `PassphraseList.AccountListIsTheMap` | src/passphrase_cache.cc:217-234 | the list given to the engine names every account once and is the finite map of bindings, pair by pair |
| `PassphraseList.AddAccountUpdatesMap` | src/passphrase_cache.cc:90-101 | adding an account updates that map at one key |
| `PassphraseList.RemoveShrinksMap` | src/passphrase_cache.cc:103-106 | `remove` takes one key out of the map; one longer than 1000 bytes changes nothing |
| `PassphraseList.RemoveUndoesAdd` | src/passphrase_cache.cc:90-106 | removing an account after adding it takes its binding out if and only if the email is at most 1000 bytes |
| `PassphraseList.RefreshKeepsMap` | src/passphrase_cache.cc:142-146 | moving an entry to the back leaves the map alone |
| `PassphraseList.AddPlainLosesAtMostOne` | src/passphrase_cache.cc:77-88 | a plain add loses at most one binding, that of the first entry with the same passphrase |
| `PassphraseList.AddPlainPlaces` | src/passphrase_cache.cc:45-88 | a plain add overwrites the first entry with that passphrase in its place and changes no other position; where there is none the entry goes behind all others, which stay; an empty passphrase changes nothing |
| `PassphraseList.AddAccountPlaces` | src/passphrase_cache.cc:45-101 | an account is overwritten in its place or goes behind all others; with an empty email it is a plain add |
| `PassphraseList.RemoveKeepsOrder` | src/passphrase_cache.cc:103-106 | the entries with other emails stay, in their order and as many as there were |
| `PassphraseList.RunRefinesMap` | src/passphrase_cache.cc:45-106 | over every run the bindings are among those of the reference map, and are exactly those when no plain passphrase was added |
| `PassphraseList.RefreshPermutes` | src/passphrase_cache.cc:142-146 | a refresh keeps the passphrases as a multiset and the order of all other entries; the refreshed one is last, with its email, its passphrase and the new time stamp |
| `PassphraseList.FindMatch` | src/passphrase_cache.cc:50-62 | the search finds the first match by passphrase or by email |
| `PassphraseSearch.LoopContract` | src/passphrase_cache.cc:115-140 | for any engine: the session saw the candidates "", stored, entries in that order up to the last attempt, the status is that attempt's, none follows a stopping one, and when none stops all were tried once; no passphrase is lost or duplicated |
| `PassphraseSearch.AttemptsInOrder` | src/passphrase_cache.cc:115-140 | attempt by attempt: the empty string, the stored passphrase where one is set, the entries front to back, all of them unless one is accepted |
| `PassphraseSearch.AcceptedGoesBack` | src/passphrase_cache.cc:133-146 | the accepted entry is moved behind all others, which keep their order; where the empty or the stored passphrase is accepted, or none, the list is unchanged |
| `PassphraseSearch.AnswersDecide` | src/passphrase_cache.hxx:15-25 | the last attempt is the first that is answered in a way its loop stops at, which is anything but a passphrase problem for `api`, success for `ensure_passphrase`, and a failure to configure for both; the status is the last answer of the engine |
| `PassphraseSearch.StoredSolves` | src/passphrase_cache.cc:121-126 | a stored passphrase that is accepted where the empty one is not ends the search, configured last, with the list unchanged |
| `PassphraseSearch.ApiFailsOnlyWhenExhausted` | src/passphrase_cache.hxx:10-26 | `api` reports a passphrase problem if and only if every candidate in turn did, or setting one of them, after none before it had solved it, was answered with such a status |
| `PassphraseSearch.StopperIsNext` | src/passphrase_cache.cc:142-146 | when a search stops on a cached entry, the passphrase that stopped it is the first one the next fresh enumeration configures |
| `PassphraseSearch.LastStopperIsNext` | src/passphrase_cache.cc:142-146 | so it is after any number of searches, for the cached passphrase that last stopped one |
| `PassphraseSearch.FirstStop` | src/passphrase_cache.cc:115-140 | the search stops at the first stopping candidate |
| `PassphraseCache.PassphraseCache.ForEachPassphrase` | src/passphrase_cache.cc:115-140 | for any callee whose answers depend on the strings it was called with, the loop is the search: result, status, session history and list; an iterator on an entry stays on it |
| `PassphraseCache.PassphraseCache.Api` | src/passphrase_cache.hxx:10-26 | `api` returns the status and leaves the session and the list of the search |
| `PassphraseCache.PassphraseCache.EnsurePassphrase` | src/passphrase_cache.cc:201-215 | the same for `ensure_passphrase`, which stops on success or a configuration error only |
| `PassphraseCache.PassphraseCache.AddToCache` | src/passphrase_cache.cc:45-75 | overwrite the first match in place, else append; the new passphrase is returned |
| `PassphraseCache.PassphraseCache.Add` | src/passphrase_cache.cc:77-88 | a non-empty passphrase is added, cut to length, and opens the gate; an empty one changes nothing |
| `PassphraseCache.PassphraseCache.AddAccount` | src/passphrase_cache.cc:90-101 | the same for an account |
| `PassphraseCache.PassphraseCache.Remove` | src/passphrase_cache.cc:103-106 | the entries with this email go; an iterator on any other entry stays on it, and one on a removed entry dangles |
| `PassphraseCache.PassphraseCache.RefreshEntry` | src/passphrase_cache.cc:142-146 | the entry moves to the back with a new time stamp; iterators stay on their entries |
| `PassphraseCache.PassphraseCache.LatestPassphrase` | src/passphrase_cache.cc:148-170 | one step of the backward iterator, in place; a dangling iterator is set anew at the start of a cycle |
| `PassphraseCache.PassphraseCache.Assign` | src/passphrase_cache.cc:36-43 | copy assignment takes over the list and the limits, but neither the stored passphrase nor the first-time flag |
| `PassphraseCache.PassphraseCache.Copy` | src/passphrase_cache.cc:30-34 | the copy constructor takes over the stored passphrase too and starts a new iteration |
| `PassphraseCache.PassphraseCache.AddStored` | src/passphrase_cache.cc:108-113 | the stored passphrase is replaced and nothing else changes |
| `PassphraseCache.PassphraseCache.ConfigureSession` | src/passphrase_cache.cc:217-234 | the loop collects the account bindings in list order |
| `PassphraseCache.NextPassphrase.Config` | src/passphrase_cache.cc:172-199 | the function with its two statics is one step of the enumerator, in state, status and the passphrase given to the session |
| `PassphraseWalk.LatestIsPeriodic` | src/passphrase_cache.cc:148-170 | on an unchanged copy the calls repeat one cycle for ever: stored passphrase if set, entries last to first, one Empty or Exhausted |
| `PassphraseWalk.Latest` | src/passphrase_cache.cc:148-170 | the iterator never leaves the list, and list and stored passphrase are not touched |
| `PassphraseWalk.SnapshotEnumeration` | src/passphrase_cache.cc:172-199 | n + 1 calls on a fresh snapshot of n entries configure each entry once, last position first, then fail once, REQUIRED if n = 0, else WRONG; what happens to the live list in between has no effect |
| `PassphraseWalk.AddedIsNext` | src/passphrase_cache.cc:64-71 | after an add that matched nothing, the next enumeration configures the passphrase just added first, then the others as before, then fails |
| `PassphraseWalk.ResetRestarts` | src/passphrase_cache.cc:177-180 | a reset at any point makes the next calls enumerate a new snapshot from its back |
| `PassphraseWalk.OnlyListedPassphrases` | src/passphrase_cache.cc:182-191 | every passphrase the enumerator configures is that of a listed entry; the stored one is never tried |
| `SyncQueue.LastTellsAll` | src/Adapter.cc:237-247 | where markers come last, looking at the back of the queue is the same as asking for any marker |
| `SyncQueue.FrontMarkerIsAlone` | src/Adapter.cc:183-193 | where a marker is at the front, no event is left |
| `SyncQueue.EventQueue.EnqueueSyncEvent` | src/Adapter.cc:165-178 | a null replaces everything pending by one marker, an event goes to the front; markers stay last, and a request is visible at once |
| `SyncQueue.EventQueue.DequeueNextSyncEvent` | src/Adapter.cc:183-193 | the front of the queue, or a timeout exactly when it is empty; after a null no event is left |
| `SyncQueue.EventQueue.InShutdownNow` | src/Adapter.cc:238-247 | true exactly if a marker is at the back |
| `SyncMachine.InitInv` | src/Adapter.hxx:17-18 | all of that holds before anything has been started |
| `SyncMachine.InvStep` | src/Adapter.cc:165-247 | every atomic step of every thread keeps the shape of the queue, the conservation of events, the agreement of gate and enumerator, and the life cycle |
| `SyncMachine.InvRun` | src/Adapter.cc:165-247 | so does every interleaving of any length |
| `SyncTheorems.ShutdownIsVisible` | src/Adapter.cc:237-247 | in every reachable state, also between the halves of an injection: a marker at the back if and only if any is pending; a null at the front means no event is left |
| `SyncTheorems.EventFate` | src/Adapter.cc:165-193 | every accepted event is pending, freed or returned, exactly one of these, exactly once; no other event is anywhere |
| `SyncTheorems.NewestFirst` | src/Adapter.cc:172-172 | what the engine is handed next is the newest of the pending events |
| `SyncTheorems.GateSafety` | src/callback_dispatcher.cc:80-96 | behind a closed gate no passphrase is handed out, and the next enumeration takes a new snapshot |
| `SyncTheorems.ResumeIsFresh` | src/callback_dispatcher.cc:80-96 | after the gate was closed the enumerator is reached again only after somebody opened it; it then enumerates the cache as it is at that moment, from the back |
| `SyncTheorems.SentRestarts` | src/callback_dispatcher.cc:98-101 | after a message was sent on the sync thread, over any run to the next use of the enumerator, that use enumerates the cache as it is at that moment, from the back |
| `SyncTheorems.LiveIsTheList` | src/passphrase_cache.cc:77-146 | over every interleaving the passphrase cache is the list after the adds, removes and searches of all threads in their order |
| `SyncTheorems.RetryUnderShutdown` | src/callback_dispatcher.cc:83-85 | a retry returns to the engine with the enumeration untouched if and only if a marker is pending at its check, whatever others did meanwhile |
| `SyncLosses.SeenStep` | src/passphrase_cache.cc:77-101 | a snapshot contains every live passphrase; after that only an add can change that, and does exactly when its passphrase is not in the snapshot |
| `SyncLosses.SeenRun` | src/passphrase_cache.cc:182-185 | where nothing live is missing from the snapshot, nothing will be over any run without an add |
| `SyncLosses.LostWakeUp` | src/callback_dispatcher.cc:89-92 | over any run without a new snapshot from a state in which the snapshot has everything to the closing of the gate, whatever is added, overwritten, removed or moved meanwhile: when every add has opened the gate, a passphrase is left untried behind it if and only if one of the adds brought a passphrase that the snapshot did not have and that is still in the cache, whenever it came |
| `SyncLosses.StrandedIsReachable` | src/callback_dispatcher.cc:89-92 | from reachable states a passphrase added and an account given another one during the search, and a passphrase added after it has failed, lead there |
| `SyncTheorems.Lifecycle` | src/Adapter.hxx:31-74 | startup and shutdown callbacks alternate, and each stop notification comes after the shutdown of its run and before the startup of the next |
| `SyncObjects.QueueIsTheDeque` | src/Adapter.cc:165-193 | over every interleaving the queue, what was freed and what the engine was handed are those of a deque on which the steps of the run are pushes, clears and pops: only injections, stops and the start of the thread clear it, and the engine gets the front elements in their order |
| `SyncObjects.GateIsTheLast` | src/callback_dispatcher.cc:80-96 | over every interleaving the gate is as the last opening or closing left it, and each add and each injection has its second half to come once |
| `SyncObjects.EnumeratorIsItsCalls` | src/passphrase_cache.cc:172-199 | over every interleaving the enumerator is where its calls on the sync thread take it, each with the cache as the adds, removes and searches before it have left it, and each message sent resetting it |
| `SyncObjects.ThreadFollowsProgram` | src/Adapter.hxx:31-62 | over every run without a join the sync thread calls back at startup, clears the queue, leaves the loop and calls back at shutdown, each once and in this order, as far as lies between its two places |
| `SyncObjects.TraceIsTheSignals` | src/Adapter.hxx:31-62 | the callbacks and notifications of a run are those of its steps, one each, in their order |
| `SyncObjects.WhoWaits` | src/callback_dispatcher.cc:80-81 | the sync thread waits exactly at a closed gate and the caller of `stop_sync` exactly for a thread that has not finished; no add, injection or enqueue waits |
| `SyncThreads.OneThread` | src/Adapter.hxx:66-74 | with threads kept apart from `_sync_thread`: in every reachable state at most one has not finished, it is the one the handle denotes or is about to, `start_sync` then makes no other, and during a stop up to the join it is the sync thread |
| `SyncThreads.RunRefines` | src/Adapter.hxx:31-74 | every run of threads is a run of the machine with one slot for a thread, so that what holds of its reachable states holds of them |
| `SyncThreads.RetryIsTaken` | src/Adapter.cc:195-199 | a request for a passphrase is taken for one if and only if `_sync_thread` has been assigned, and a message sent resets the enumerator if and only if it has; before that both go to the targets only |
| `SyncThreads.HastyIsReachable` | src/Adapter.hxx:69-70 | a thread can be in its loop before `_sync_thread` is assigned |
| `SyncLosses.StopInLoopReaches` | src/Adapter.cc:217-226 | a stop requested while the loop runs stays pending, or is replaced by another one, until the engine is handed a null |
| `SyncLosses.EarlyStopIsLost` | src/Adapter.hxx:46-48 | a stop requested before the thread has cleared the queue is lost with that clear; unless another thread injects one, the engine gets no null while the caller waits in join |
| `SyncLosses.StopSurvives` | src/Adapter.hxx:46-48 | over any run into the loop in which nobody else injects, the marker of a stop is pending or was handed to the engine if and only if the thread was in its loop when the marker was set |
| `SyncLosses.EarlyStopIsReachable` | src/Adapter.hxx:46-48 | a stop right after the start leads to a reachable state with a marker pending that the clear of the thread then removes |
| `SyncLosses.StopWaitsForGate` | src/Adapter.cc:217-226 | a stop requested while the thread waits at the closed gate: until somebody opens the gate, the thread stays there and the join does not end |
| `CallbackDispatcher.CallbackDispatcher.MessageToSend` | src/callback_dispatcher.cc:78-116 | a null message on the sync thread is a retry: shutdown, the next passphrase given to the session, or closed gate; anything else reaches the targets in order, the i-th duplicate the i-th target, and on the sync thread restarts the enumeration |
| `CallbackDispatcher.CallbackDispatcher.Retry` | src/callback_dispatcher.cc:80-96 | after the wait at the gate: under a pending shutdown nothing is touched; else the enumerator takes one step and the gate is closed if and only if it had no passphrase, in which case a new copy is due |
| `CallbackDispatcher.CallbackDispatcher.FanOut` | src/callback_dispatcher.cc:103-115 | the targets served are a prefix, all of them unless the allocator fails; the i-th call goes to the i-th target with the i-th duplicate; the duplicates have the value of the message and share no block; none is left over |
| `CallbackDispatcher.CallbackDispatcher.NotifyHandshake` | src/callback_dispatcher.cc:118-145 | the targets with a handler are notified in order, each with `me` and `partner` as given, up to the first failed duplication, all of them if and only if there is memory for all; none of the duplicates is left over |
| `CallbackDispatcher.CallbackDispatcher.Remove` | src/callback_dispatcher.cc:41-58 | the first target with this handler goes; if none is left sync is stopped, which frees everything pending, and no target hears of the shutdown or the stop; otherwise the queue is untouched |
| `CallbackDispatcher.CallbackDispatcher.StopSync` | src/Adapter.cc:217-226 | with a thread in its loop: everything pending is freed and the marker taken, then every shutdown callback in order, then the stop notification to every target that takes one; else nothing |
| `CallbackDispatcher.CallbackDispatcher.StartSync` | src/Adapter.cc:208-214 | startup callbacks in order and the queue cleared where no thread is running, else nothing |
| `CallbackDispatcher.CallbackDispatcher.OnStartup` | src/callback_dispatcher.cc:60-67 | every startup callback that is set is called once, after those of the targets registered before it, and nothing else is |
| `CallbackDispatcher.CallbackDispatcher.OnShutdown` | src/callback_dispatcher.cc:69-76 | every shutdown callback that is set is called once, after those of the targets registered before it, and nothing else is |
| `CallbackDispatcher.StartupsAre` | src/callback_dispatcher.cc:60-67 | which calls those are, one for each target with the callback, at the place its number among them gives |
| `CallbackDispatcher.ShutdownsAre` | src/callback_dispatcher.cc:69-76 | the same for the shutdown callbacks |
| `CallbackDispatcher.HandshakesAre` | src/callback_dispatcher.cc:118-145 | the same for the handshake notifications |
| `CallbackDispatcher.CallbackDispatcher.Add` | src/callback_dispatcher.cc:27-39 | a target is appended, or refused without a handler for messages |
| `CallbackDispatcher.WithoutAt` | src/callback_dispatcher.cc:48-53 | erasing at the first match is removing the first match |

## Left out

- The engine's functions: parameters, as above. What they do to key lists, ratings and flags passes through the cache unseen and is not modelled.
- Allocation failures in `src/message_cache.cc` (`std::bad_alloc`, failed asserts): duplication always succeeds there; in the dispatcher it may fail.
- Leaks that the code has: they are stated, not excluded. `MimeEncode` and `FullInput` name the lost blocks.
- The blocks of header members (identities, time stamps, string lists): they are copied in full by `empty_message_copy` and never move, and are values here; bodies, attachments, optional fields and message references are blocks.
- Members of the engine's `message` struct that the library does not mention: one opaque number (`others`). The struct's header is not part of this model.
- The nodes inside a pair or an attachment (key, value, data): part of their list node.
- `locked_queue` and `Semaphore`: their headers are not in the repository. Assumed are a deque with atomic operations whose `clear` runs the deleter on each element, and a gate that is open or closed.
- Data races on `next_id` and on the unlocked copy in `config_next_passphrase`: each is one atomic step.
- Two calls on the same message ID at the same time (one after another they may be in any number); decode and full-input calls in an interleaving (they have one lock section each, on an ID nobody else has yet, and are in the sequential runs).
- Liveness of `stop_sync`: the theorems on markers say what can and cannot happen, not that the thread ends.
- The sync thread's steps inside `do_sync_protocol` other than callbacks into this library.
- A callee of `for_each_passphrase` that calls back into the same cache.
- HeapCache.MessageCache.FullInput: needs `next_id` below LLONG_MAX, because beyond that the increment is undefined; `FreshIds` says when that is.
- HeapCache.MessageCache.MimeDecode: the same; and the decoder is a status with a message, because a success without a message would be followed through a null pointer.
- PassphraseCache.PassphraseCache.LatestPassphrase: following a dangling iterator is excluded, because it is undefined; the library only iterates over copies, from which nothing is removed.
- CallbackDispatcher.CallbackDispatcher.Retry: that the wait ends means that another thread opened the gate; what else other threads do meanwhile is in the step relation (`PassGate`).
- CallbackDispatcher.CallbackDispatcher.StartSync: the new thread goes on to its loop within the call; what may happen before is in the step relation.
- CallbackDispatcher.CallbackDispatcher.StopSync: the thread is in its loop and takes the marker within the call; the other cases are in the step relation.
- HeapLists.Memory: only freeing requires a block to be allocated. Every message and entry a call works on is allocated when the call begins and, unless the call frees it, when it ends; single reads and writes in between are not checked for it.
- Strings are sequences of characters other than NUL: truncation at an embedded NUL by `c_str()` is not modelled.
- `max_size`, `timeout` and `cleanup` of the passphrase cache: no code uses them; the fields are kept and copied.
- `group_manager_api.cc`, `grp_driver_engine.cc`, `pEpSQLite.cc`, `utils.cc`, `status_to_string.cc`, logging and `throw_status`: forwarding, I/O and tables.
