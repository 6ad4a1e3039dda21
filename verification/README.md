# Verified models of the event log, the sigchains, the service lock, the document store and the streams

This project models five parts of the repository in Dafny and proves what they keep over
whole runs. It also covers the key list. `dafny verify dfyconfig.toml` checks everything.

- **Event log** (`CounterDoc`, `EventSystem`, `EventGuarantees`, `EventTries`, `EventRuns`,
  `EventWriter`, `EventReader`).
  Many clients add batches of events and increment counters. Each batch is split into
  transactions that number the events from a counter document. A transaction body reads the
  counter, may be aborted and run again, and commits only if nothing changed since it read.
  The `index` variable lives outside the body, so an aborted body's value survives.
  `EventSystem` is the step system. `EventTries` says what a call comes to for any network, as
  a function. `EventWriter` is the code with its loops and documents numbered in place, proved
  equal to those functions. `EventRuns` proves that a call made among the system's clients is a
  run of the system. `EventReader` is the paged reader.
- **Sigchain replication** (`Sigchain`, `Replication`, `SigchainCalls`, `Push`, `SigchainRuns`).
  Statements are linked by the hash of their predecessor. Any number of devices create, revoke, push, update and remove
  keys against a key server that checks a statement and then creates its document in two
  separate steps. A request may stay in flight after its client gave up.
  `Replication` is the step system, `SigchainCalls` says what a call comes to for any network,
  `Push` is the code proved equal to that, and `SigchainRuns` proves that the calls are runs of
  the step system.
- **Service lock** (`ServiceCore`, `ServiceSystem`, `ServiceGuarantees`, `ServiceCalls`).
  Concurrent unlock and lock calls and the background checkers they start and cancel, with
  the two mutexes and every point where a call can fail.
- **Document store** (`Bytes`, `Paths`, `DocStore`, `Iterators`). Documents under normal paths
  over an ordered byte-string map, with its prefix scans, the iterators of `sdb`, `sqlcipher`
  and Firestore, and how far the keys they select agree.
- **Streams** (`Stream`). Bytes cut into messages, put together through a buffer, cut again,
  and ended with an empty message; and the encrypting and signing loops.
- **Key list** (`KeyList`). Filtering, and sorting with the comparison the program uses.

Each part has specification functions or a step system on values, methods with the loops and
the mutable state of the program proved against them, and lemmas about runs.

Assumptions. Random document names are distinct. The hash is injective, so a statement
contains its predecessor. Decrypting undoes encrypting and decoding undoes encoding. The
key/value store is a map whose iterator visits the keys in byte order. The saltpack writer is
any writer (its outputs are parameters), and the saltpack reader passes bytes through. The
vault accepts or refuses a secret, and is left as it was when it refuses. Nobody writes the
counter document with a plain `Set` or `Delete`. Networks, clocks, failures and
cancellations are parameters.

Where the code and its comments differ, the code is modelled:

- An aborted transaction that is re-run on a path without a counter starts at the aborted
  body's last number, so the first event can get an index above 1 (`GapExists`).
- Events added while a log is being deleted can survive the deletion of the counter; the next
  events then get indices that are already taken (`EventsDelete`, `StartAgainIff`).
- An unlock that cannot open the database has already registered its token; the next `lock`
  returns early and leaves the token in the table and the vault unlocked
  (`TokenSurvivesLock`, with the exact condition in `LockLeavesNoTokens`).
- The waiting loop in `stopCheck` ends at once, because the function itself clears the flag it
  waits for; what protects the database is that a checker holds `checkMtx` while it works.
- `GetAll` and `DeleteAll` take keys as given, while every other operation normalizes paths
  first. `DeleteCollection` of `/` removes nothing, of the empty string everything.
- Merging values into a document stored without any writes into a nil map, which panics
  (`MergesAreOneMergeIff` says when a run of merges is one merge all the same).
- `sqlcipher` selects with `like`, where underscore, percent sign and letter case match more
  than the prefix (`LikeIsPrefixIff`).
- With an index, `sdb` and `sqlcipher` count the limit from the first match, Firestore from
  the index.
- A stream that ends before its first request makes `EncryptStream` and `SignStream` close a
  stream that was never created.

## Model

| member | source | states |
|---|---|---|
| `CounterDoc.ApplyKeepsValid` | firestore/events.go:69-119 | a committed transaction keeps the log equal to what the commits wrote and each counter equal to the end of the last commit on it |
| `CounterDoc.CommitIsBody` | firestore/events.go:75-111 | performing the writes a transaction body issues, in order, is the commit, and there are at most 500 of them for a chunk of at most 498 events |
| `CounterDoc.RangesOrdered` | firestore/events.go:103-111 | in any history the number ranges taken from one counter are disjoint and follow commit order |
| `CounterDoc.Tiling` | firestore/events.go:216-253 | the ranges taken from one counter tile an interval: last end = first base + sum of all sizes |
| `CounterDoc.LogIncreases` | firestore/events.go:91-104 | indices in the log start above 0, strictly increase, and never pass the counter |
| `CounterDoc.LogPositions` | firestore/events.go:91-104 | an event's position in the log determines its index, relative to where the first transaction started |
| `CounterDoc.LogSound` | firestore/events.go:69-119 | in every valid store indices are distinct and ordered, the counter bounds them, and with events only it is the largest |
| `CounterDoc.ContiguousIff` | firestore/events.go:74-93 | indices are exactly 1 to counter if and only if the first transaction started at 0 |
| `CounterDoc.CounterIsSumIff` | firestore/events.go:216-253 | a counter is the sum of all increments if and only if the first one started at 0 |
| `EventSystem.ClientsInit` | firestore/events.go:24-28 | the invariant holds when clients start on a document without counters |
| `EventSystem.CommitKeepsInv` | firestore/events.go:106-119 | a commit, acknowledged or not, keeps the invariant for the committing client and all others |
| `EventSystem.StepKeepsInv` | firestore/events.go:69-119 | every step (start, body, abort, commit, failure, write to other fields) keeps the invariant |
| `EventSystem.RunKeepsInv` | firestore/events.go:69-119 | so does every run |
| `EventGuarantees.CommitsAreJobs` | firestore/events.go:24-41 | every committed transaction is one chunk of its client's batch, with at most 498 events, or its increment, and its body issues at most 500 writes |
| `EventGuarantees.EventsUniqueAndOrdered` | firestore/events.go:69-119 | in every interleaving with any aborts indices are distinct, increase with commit order, and the counter is the largest |
| `EventGuarantees.NothingAppearsBehind` | firestore/events.go:69-119 | after any further run the log is extended only by events with indices above the counter of the earlier state |
| `EventGuarantees.BatchStoredInOrder` | firestore/events.go:24-41 | at any moment, also after a failure, the log holds of a client's batch exactly the first whole chunks, in input order with increasing indices, whatever others wrote between |
| `EventGuarantees.EntriesAreLogged` | firestore/events.go:91-104 | what one client committed is a subsequence of the log |
| `EventGuarantees.IncrementsDisjoint` | firestore/events.go:216-253 | concurrent increments of one field take disjoint ranges of the requested length in commit order |
| `EventGuarantees.NoGapWithoutStaleRerun` | firestore/events.go:74-93 | without a stale re-run indices are exactly 1 to counter and every counter is the sum of its increments |
| `EventGuarantees.GapExactly` | firestore/events.go:74-93 | the log of a run has no gap if and only if no client committed events with numbers carried over from an aborted body while no index was stored |
| `EventGuarantees.SumExactly` | firestore/events.go:216-253 | a counter is the sum of what was taken from it if and only if no client committed on it with carried-over numbers while it was not stored |
| `EventGuarantees.FirstCommitDecides` | firestore/events.go:74-93 | once the log holds an event, no further run opens or closes a gap |
| `EventGuarantees.GapExists` | firestore/events.go:74-93 | a run of one client with one aborted attempt whose only event gets index 2 |
| `EventTries.QuietTriesRun` | firestore/events.go:74-119 | without other writers the first try that is not cut short decides: it commits once, from the stored index or behind what the cut-short tries took, unless it gives up |
| `EventTries.QuietBases` | firestore/events.go:74-97 | an undisturbed first try starts at the stored index or 0; after one that was cut short the numbers start behind what it took |
| `EventTries.QuietBatchRun` | firestore/events.go:24-41 | without other writers a batch is stored as a whole if and only if each chunk's first try that is not cut short is acknowledged; the log then gains exactly the batch, numbered without a gap |
| `EventRuns.OthersAreRun` | firestore/events.go:75-116 | steps of other clients write exactly what the database lets through, and disturb a body exactly when the document's version moves |
| `EventRuns.TryIsRun` | firestore/events.go:75-116 | one try of a client, with any steps of others at each point, is part of a run of the step system, with the same store, index and outcome |
| `EventRuns.TxIsRun` | firestore/events.go:69-119 | so are all tries of one transaction |
| `EventRuns.EventsAddIsReachable` | firestore/events.go:24-41 | a whole `EventsAdd` among the system's clients leads from a reachable state to a reachable one with the store `RunBatch` gives, so everything that holds in every interleaving holds for what the code leaves |
| `EventRuns.IncrementIsReachable` | firestore/events.go:216-253 | the same for `Increment` |
| `EventWriter.EffectGrows` | firestore/events.go:69-119 | whatever writes were let through, the store stays valid, nothing is removed, the counter only grows |
| `EventWriter.EffectRecorded` | firestore/events.go:69-119 | the commits a method reports are exactly what the history gained for its client |
| `EventWriter.EffectLogs` | firestore/events.go:91-104 | every document of a client's own commits is in the log, whatever others wrote |
| `EventWriter.NumberDocs` | firestore/events.go:91-104 | numbers the documents in place from a start value, also when stopped early, and leaves all others alone |
| `EventWriter.Firestore.Land` | firestore/events.go:90-111 | a commit performs exactly the writes its body issued |
| `EventWriter.Firestore.EndTry` | firestore/events.go:75-116 | the body's commit is sent exactly when the body went through and nobody wrote since it read the counter; the store is then the commit followed by what others write |
| `EventWriter.Firestore.TryWrite` | firestore/events.go:75-113 | one run of the transaction: numbers start at the index stored when it reads, or at what earlier tries left in `index` when none is stored; a body cut short after n documents leaves `index` n further, any other the whole chunk; it commits exactly when the body goes through undisturbed; at most 500 writes are issued |
| `EventWriter.Firestore.WriteAll` | firestore/events.go:69-119 | one chunk over any number of tries ends as `RunTries` says for every network: refused above 498, otherwise nothing or exactly one commit of the whole chunk; without other writers it succeeds exactly when the first try that is not cut short is acknowledged, with numbers from the stored index on, or from what cut-short tries took when none is stored: from 1 when the first try goes through, from n + 1 when it is cut short after n; reports the last number, which the counter has reached |
| `EventWriter.Firestore.StoreChunk` | firestore/events.go:28-39 | one round of the chunk loop: the rest of the batch runs on from the store it leaves, and what is stored when it fails |
| `EventWriter.Firestore.EventsAdd` | firestore/events.go:24-41 | for every network the store, the commits and the error are those of `RunBatch`: stores the whole batch in order and returns the last index, or stores exactly a prefix of chunks of 498, so a batch of at most 498 as a whole or not at all; stored documents are in the log; without other writers it succeeds exactly when every chunk gets through, and the log then gains exactly the caller's documents, numbered without a gap from the stored index on, or, with none stored, from 1, or from n + 1 after a first try cut short after n; changes nothing but the index field of the caller's documents |
| `EventWriter.ChunksAre` | firestore/events.go:24-41 | stored chunk k covers positions 498k to 498(k+1) or the end of the batch |
| `EventWriter.NumberedByMeans` | firestore/events.go:24-41 | documents numbered chunk by chunk are the log of the commits, in input order with increasing indices |
| `EventWriter.Firestore.TryIncrement` | firestore/events.go:222-249 | one run of the increment transaction: it starts at the value stored when it reads, or the carried-over one; a body cut short before it counted leaves `index` there, any other n further; it commits exactly when the body goes through undisturbed |
| `EventWriter.Firestore.Increment` | firestore/events.go:216-253 | refuses n below 1; otherwise ends as `RunTries` says for every network: takes n numbers in one commit and returns the last and the first of them, or takes none; without other writers it succeeds exactly when the first try that is not cut short is acknowledged, from the stored value on, or from 0, or behind the n a cut-short first try took; the counter has reached the last |
| `EventWriter.Firestore.DeleteCollection` | firestore/events.go:177-214 | deletes batch after batch until a batch is empty, whatever others add in between; the indices left stay ordered and at most the counter |
| `EventWriter.Firestore.EventsDelete` | firestore/events.go:156-175 | what is left of the log is exactly what others added after the batch that found nothing, and the store can start again exactly when that is nothing; alone it leaves an empty store and reports whether the counter existed; on failure the counter still bounds what remains |
| `EventWriter.StartAgainIff` | firestore/events.go:156-175 | with the counter gone, numbering from 1 keeps the indices increasing if and only if no event was left |
| `EventReader.EventIterator.Next` | firestore/iterator.go:64-90 | yields the page's events one by one, then none for ever, or the error of a query that broke off |
| `EventReader.ReadPage` | firestore/iterator.go:64-90 | iterating to the end gives exactly the page with each event's index, or the error exactly when all rows came through and the query broke off |
| `EventReader.ReadAll` | firestore/events.go:122-153 | on an increasing log, without reference to how the query is built: events on the asked side of the index, each with its own index, in order, at most limit of them, and none missing unless the limit is reached in front of it; fails exactly when the query breaks off no later than behind the page |
| `EventReader.ZeroIsNoBound` | firestore/events.go:133-139 | the query without a bound equals the query above 0, because indices start at 1 |
| `EventReader.RowsAscending` | firestore/events.go:132-139 | reading upwards from the n-th event gives what follows it |
| `EventReader.RowsDescending` | firestore/events.go:140-147 | reading downwards from a position gives what lies below it, reversed |
| `EventReader.AscendingPages` | firestore/events.go:122-153 | with any limits and appends between pages the pages together are a prefix of the log, each event once and in order |
| `EventReader.DescendingPages` | firestore/events.go:140-147 | with any limits and appends the pages are a prefix of the first snapshot reversed, and the last index seen is never 0 |
| `EventReader.EmptyFirstPage` | firestore/events.go:140-147 | first pages that bring nothing are as if they had not been read, which reduces every case to one whose first page brings something |
| `EventReader.DescendingEnds` | firestore/events.go:140-147 | after index 1 every further page of any later log is empty |
| `EventReader.SnapshotsGrow` | firestore/events.go:122-153 | the logs seen along a run of the event system are growing snapshots, as the paging results require |
| `Sigchain.StatementFixesPast` | service/rpc.pb.go:1453-1467 | one common statement forces everything before it to be common |
| `Sigchain.NoRejoining` | service/rpc.pb.go:1453-1467 | chains that differ somewhere never agree again |
| `Sigchain.OnlyExtends` | http/server/sigchain.go:115-203 | the last statement of a chain can extend only that chain without it |
| `Sigchain.ChainMeans` | service/rpc.pb.go:1453-1467 | a chain is exactly a list of statements of one key, numbered from 1, each with the hash of the one before it |
| `Replication.StoreAppends` | http/server/sigchain.go:115-203 | creating a checked statement's document appends it to the chain |
| `Replication.ServerAcceptsOnlyExtensions` | http/server/sigchain.go:115-203 | however checks and creates interleave, the server only appends statements that extend its chain by one |
| `Replication.StepKeepsInv` | service/sigchain.go:132-217 | every step of devices and server keeps the invariant, and the remote chain only grows |
| `Replication.RemoteOnlyGrows` | http/server/sigchain.go:115-203 | in every run, with any writers, the remote chain stays a chain and only grows |
| `Replication.StepKeepsSynced` | service/sigchain.go:132-217 | without local-only writes no step gets a device ahead of the server |
| `Replication.DevicesNeverAhead` | service/user.go:205-228 | without local-only writes each saved chain is a prefix of the remote one in every reachable state, also between remote and local save and after failures |
| `Replication.PushStaysPush` | service/push.go:53-105 | whatever else happens, a push in progress still carries the chain it started with |
| `Replication.PushKeepsStatements` | service/push.go:77-102 | a push that gets to saving saves a chain that extends the local chain it started from, with any other writers |
| `Replication.LocalWriteGetsAhead` | service/sigchain.go:132-175 | with a local-only write a device does get ahead |
| `Push.KeyServer.Fetch` | http/server/sigchain.go:20-54 | the chain as the server holds it when it handles the request; others may extend it before and after |
| `Push.KeyServer.Put` | http/server/sigchain.go:115-203 | an acknowledged statement is newly in the chain, at its place; for every network the chain is `RunPut`'s; without other writers the statement is stored exactly when the request is not refused and it extends the chain, and nothing else changes |
| `Push.PushKeepsAgreement` | service/push.go:76-97 | one push without other writers keeps the common prefix equal and only appends local statements |
| `Push.PushStepKeeps` | service/push.go:53-105 | one push without other writers, also one that fails after its pull saved a chain, loses nothing on either side and keeps the two in agreement |
| `Push.BrokenPushesResume` | service/push.go:53-105 | any number of pushes broken off anywhere, even after the final pull saved a longer chain, and then a successful one: none finds a mismatch, nothing is lost, and the remote ends with everything local; a remote that starts as a prefix of the local chain stays one |
| `Push.Service.AddStatement` | service/sigchain.go:132-217 | remote save, local save, index update, for every network as `RunAdd` says: the local chain gains one statement, with the caller's data, revoked number and time, the next number and the link to the last one, when both saves succeed, also if the call then fails, and is as it was otherwise; what is local is then remote, and equal to it without other writers; a local prefix of the remote stays one |
| `Push.Service.UpdateUser` | service/update.go:75-119 | the local chain becomes the fetched one once it is saved, also if indexing then fails, and keeps all local statements if and only if the last of them is in the fetched chain |
| `Push.KeptIff` | service/update.go:83-93 | a chain is a prefix of another if and only if its last statement is in it |
| `Push.Service.SaveMissing` | service/push.go:76-97 | for every network the PUTs are `RunPuts` of what the fetched chain lacks, after a comparison of the whole common prefix; without other writers: on a mismatch nothing is saved, otherwise a prefix of the missing statements in order, all of them on success |
| `Push.Service.Push` | service/push.go:53-105 | for every network both chains and the error are those of `RunPush`; no push, successful or not, loses a local statement; a successful one leaves everything local on the server, saves a chain the server still extends, and returns the address of every statement, that is, the key and 1, 2 and so on; without other writers it succeeds exactly when the chains agree, all its requests are delivered, and the pulled chain is saved and indexed, and both sides then hold the longer chain |
| `SigchainCalls.QuietPuts` | service/push.go:76-97 | without other writers the missing statements are all saved exactly when all their requests are delivered, and the server then holds the local chain |
| `SigchainCalls.QuietPush` | service/push.go:53-105 | without other writers a push succeeds exactly under the listed conditions, and then server and device both hold the longer of the two chains |
| `SigchainRuns.OthersAreRun` | http/server/sigchain.go:115-203 | what other devices and their requests do to the server's chain, however they interleave, is to append statements that extend it |
| `SigchainRuns.PutIsRun` | http/server/sigchain.go:115-203 | a request, checked and stored in two steps among any others, is part of a run and does what `RunPut` says |
| `SigchainRuns.PushIsReachable` | service/push.go:53-105 | a whole push among the system's devices leads from a reachable state to a reachable one in which server and device hold what `RunPush` gives |
| `SigchainRuns.AddIsReachable` | service/sigchain.go:132-217 | the same for a new statement |
| `SigchainRuns.UpdateIsReachable` | service/update.go:75-119 | the same for an update |
| `ServiceCore.UnlockKeepsOk` | service/service.go:98-149 | unlock as a whole: keeps the lifecycle invariant, succeeds exactly when vault and database do, registers exactly one token |
| `ServiceCore.LockKeepsOk` | service/service.go:151-167 | lock as a whole: locked, closed, not checking; empties the token table exactly when the service was unlocked or no failed unlock left a token; twice is once |
| `ServiceCore.AuthorizedTokens` | service/auth.go:167-195 | outside the allow list exactly the newest tokens in the table are accepted |
| `ServiceCore.RegisteredTokens` | service/auth.go:123-128 | after a registration the new token is known, the client's former one is not, and every other token is known exactly if it was |
| `ServiceCore.StoppedCheckers` | service/check.go:36-42 | after `stopCheck` every checker that was ever started is cancelled |
| `ServiceSystem.StepKeepsInv` | service/service.go:98-183 | every step of every call and checker keeps the invariant |
| `ServiceSystem.RunKeepsInv` | service/service.go:98-183 | so does every run |
| `ServiceSystem.LiveChecker` | service/check.go:8-55 | at any moment a checker that is not cancelled is the last one and belongs to the open database |
| `ServiceSystem.UnlockEnds` | service/service.go:98-149 | the last step of an unlock leaves what the whole operation makes of the state it started from |
| `ServiceSystem.LockEnds` | service/service.go:151-167 | the same for lock |
| `ServiceGuarantees.CheckKeysHasItsDatabase` | service/service.go:169-183 | `checkKeys` of the background checker never overlaps or follows the closing of its own database |
| `ServiceGuarantees.OneLiveChecker` | service/check.go:8-34 | at most one checker has a live context |
| `ServiceGuarantees.UnlockedMeansReady` | service/service.go:98-149 | outside the critical sections unlocked means database open, vault unlocked, and a live checker, and only then is there one |
| `ServiceGuarantees.AcceptedTokenIsCurrent` | service/auth.go:167-195 | at any moment an accepted token is its client's newest and was generated after the last lock that took effect |
| `ServiceGuarantees.LockLeavesNoTokens` | service/service.go:151-167 | when a lock returns, the token table is empty and the vault locked if and only if no unlock failed after registering its token since the last effective lock |
| `ServiceGuarantees.TokenSurvivesLock` | service/service.go:110-133 | a run in which a token survives a lock |
| `ServiceGuarantees.LeakedIsLeakIn` | service/service.go:110-133 | the recorded failure is read off the steps of the run |
| `ServiceGuarantees.CallsAreSerialized` | service/service.go:98-167 | every interleaving amounts to whole unlock and lock operations, those of the calls that return, in the order they return, and each caller gets the answer its operation gives |
| `ServiceGuarantees.ReturnsAreCalls` | service/service.go:98-167 | these operations are one per call that returns, with that call's kind and client |
| `ServiceGuarantees.NoDeadlock` | service/service.go:98-183 | while a call has not returned, a call or the checker in `tryCheck` can move |
| `ServiceCalls.Service.RegisterToken` | service/auth.go:123-128 | the client's new token is known from then on and its former one is not; every other token is known exactly if it was |
| `ServiceCalls.Service.StartCheck` | service/check.go:8-34 | starts a checker exactly when none is running |
| `ServiceCalls.Service.StopCheck` | service/check.go:36-55 | after stopping a running checker no checker is live; the wait does nothing |
| `ServiceCalls.Service.TryCheck` | service/service.go:169-183 | checks keys exactly when not cancelled, and then the database is the checker's own |
| `ServiceCalls.Service.AuthUnlock` | service/auth.go:74-97 | an accepted secret gives a token that is known from then on; a refused one changes nobody's token |
| `ServiceCalls.Service.AuthLock` | service/auth.go:99-102 | no token is known afterwards, and all former ones lie below the mark that later tokens start from |
| `ServiceCalls.Service.UnlockService` | service/service.go:98-149 | is the whole unlock operation, and keeps the invariant; refused exactly when the vault refuses, failing exactly when a closed database does not open; only this client's token changes, to one nobody had; a live checker runs afterwards |
| `ServiceCalls.Service.LockService` | service/service.go:151-167 | is the whole lock operation, and keeps the invariant; an unlocked service ends with a locked vault, no tokens and every checker cancelled, a locked one is left as it was |
| `ServiceCalls.Service.CheckToken` | service/auth.go:167-175 | true exactly for tokens in the table |
| `ServiceCalls.Service.AuthorizeRequest` | service/auth.go:177-195 | every method on the allow list is let through; off it a request is let through if and only if its first authorization value is the token of some client in the table; without metadata, without values and with an unknown token it is refused, each with its own error; an accepted token is not older than the last effective lock |
| `Bytes.RangeIsPrefix` | sdb/sdb.go:58-61 | the key range scanned for a prefix holds exactly the keys with the prefix, for every byte string |
| `Bytes.SortedUnique` | sdb/sdb.go:58-61 | there is only one sorted sequence of given keys |
| `Bytes.ScansAgree` | firestore/iterator.go:20-37 | the range scan of sdb, and starting at the prefix and stopping at the first non-match as Firestore does, both equal filtering the sorted keys |
| `Iterators.LikeIsPrefixIff` | sqlcipher/sql.go:159-190 | the `like` selection of sqlcipher finds at least the keys with the prefix, and on every store just those exactly when the prefix has no underscore, percent sign or letter |
| `Paths.ComponentsOfJoin` | sdb/db.go:106-109 | splitting undoes joining |
| `Paths.ComponentsAre` | sdb/db.go:106-109 | the components of any string: none of the empty one, a string without a slash itself, and around a slash those of both sides |
| `Paths.PathIdempotent` | sdb/db.go:106-109 | normalizing twice is normalizing once |
| `Paths.PrefixIsUnder` | sdb/db.go:357-365 | keys that start with a path and a slash are exactly those strictly under it, at any depth, and no sibling |
| `Paths.NamedIsUnder` | sdb/db.go:357-365 | keys that start with a path, a slash and a name are exactly those under the path whose next component starts with the name |
| `DocStore.RunKeepsWellStored` | sdb/db.go:314-324 | after any run every document is stored under its own normal path |
| `DocStore.PathsAreIndependent` | sdb/db.go:100-187 | after any run the document at a path is what the operations naming that path, in any spelling, make of it: the store is a map from normal path to document; of a run that crashes the operations before the crash count |
| `DocStore.CreationIsFixed` | sdb/db.go:152-187 | creation time and path never change until the document is deleted |
| `DocStore.MergesAreOneMerge` | sdb/db.go:167-175 | for a document with values, a run of merges is one merge of the overriding union at the last time |
| `DocStore.MergesCreate` | sdb/db.go:159-166 | merges where nothing is stored create the document with the union of their values |
| `DocStore.MergesIntoNothing` | sdb/db.go:167-171 | into a document without values: merges without values only touch its time, and the first one with values crashes |
| `DocStore.MergesAreOneMergeIff` | sdb/db.go:152-187 | for every store, path and merges: a run of merges leaves what one merge of the union leaves, if and only if the listed condition on the path, the times and the leading empty merges holds |
| `DocStore.MergesDiffer` | sdb/db.go:152-187 | the failing case: a document without values, an empty merge, then one with a value |
| `DocStore.MergeInto` | sdb/db.go:167-171 | the merge loop, over any order of the names, is the overriding union, and panics exactly on writing into nil |
| `DocStore.DB.Open` | sdb/db.go:46-62 | refuses an open database, and opens it if the file opens; the stored documents are as they were |
| `DocStore.DB.GetRaw` | sdb/db.go:407-420 | the stored document; the mismatch error never occurs |
| `DocStore.DB.Get` | sdb/db.go:190-200 | the document at the normal path |
| `DocStore.DB.Create` | sdb/db.go:100-136 | refuses exactly the root and existing paths, and otherwise stores the values with both times at the normal path; every other document is as it was |
| `DocStore.DB.Set` | sdb/db.go:139-187 | refuses exactly the root; without merge the document at the normal path has exactly the given values and the new time, and keeps its creation time; with merge it has the overriding union; absent documents are created; a merge into a document without values crashes and leaves the store as it was; every other document is as it was |
| `DocStore.DB.Delete` | sdb/db.go:262-281 | removes exactly the document at the normal path and says whether there was one |
| `DocStore.DB.GetAll` | sdb/db.go:208-222 | the documents found under the keys as given, in order, one for each key when all are there |
| `DocStore.GetAllNeedsNormalPaths` | sdb/db.go:208-222 | for any list of paths, `GetAll` finds what `Get` finds exactly when each path is normal or nothing is stored at it |
| `DocStore.DB.DeleteAll` | sdb/db.go:284-291 | removes exactly the given keys; crashes on a closed database |
| `DocStore.DB.Documents` | sdb/db.go:373-405 | documents whose keys start with the scanned prefix, in key order, at most limit of them, none missing unless the limit is reached in front of it; and the errors in order |
| `DocStore.DB.DeleteCollection` | sdb/db.go:294-304 | removes exactly the documents strictly under the parent, at any depth; all for the empty string, none for other spellings of the root |
| `DocStore.CollectionIsUnder` | sdb/db.go:352-370 | the scanned keys are those strictly under the parent; for the root spelled as a slash none, for the empty string all |
| `DocStore.NamedDocuments` | sdb/db.go:352-370 | with a name the scan finds exactly the documents under the parent whose next component starts with it |
| `DocStore.CollectionGone` | sdb/db.go:294-304 | what is left after deleting a collection, in terms of path components |
| `DocStore.DB.Collections` | sdb/db.go:225-259 | each first component in use once, as a path, in order of first appearance |
| `DocStore.FirstsAreDistinct` | sdb/db.go:242-257 | the list has no repeats and holds exactly the first components in use |
| `DocStore.FirstsInOrder` | sdb/db.go:242-257 | it grows by appending as more keys are read |
| `DocStore.DB.Last` | sdb/db.go:423-446 | the document with the largest key that has the prefix, or none if there is none |
| `Iterators.ScanIterator.Next` | sdb/iterator.go:18-47 | the next key of the positions p with index <= p and (limit = 0 or p < limit), then none for ever, or the error of an iteration that broke off |
| `Iterators.ReadScan` | sqlcipher/iterator.go:17-38 | reading to the end gives exactly that slice, or the error exactly when the iteration broke off and reading the slice goes through all keys that arrived |
| `Iterators.QueryIterator.Next` | firestore/iterator.go:20-50 | the next row, then none from the first non-match on, or the error of a query that broke off |
| `Iterators.ReadQuery` | firestore/iterator.go:20-50 | reading to the end gives the matching keys from index on, at most limit of them, or the error exactly when the query broke off and every row that arrived has the prefix |
| `Iterators.QueryIsSlice` | firestore/firestore.go:243-282 | cutting the query at offset and limit and then stopping at the prefix equals cutting the matching keys |
| `Iterators.SlicesCoincideIff` | firestore/firestore.go:258-281 | sdb and Firestore return the same slice exactly when there is no limit, nothing behind the index, or a positive limit with no index or that cuts nothing off |
| `Stream.ReadFrom` | service/support.go:33-57 | for any reader and chunk size: non-empty messages of at most that size that concatenate to the input, then one empty message; on a failure a prefix and no empty message |
| `Stream.StreamReader.Write` | service/stream.go:24-36 | appends to the buffer |
| `Stream.StreamReader.Recv` | service/stream.go:38-44 | buffers the next message or reports how the connection ended |
| `Stream.StreamReader.Read` | service/stream.go:46-55 | the next bytes of what is delivered up to the first empty message, or its end; also for an empty request |
| `Stream.SeedReader` | service/verify.go:161-184 | the reader starts with the first message's data |
| `Stream.FirstMessageMayBeEmpty` | service/verify.go:161-184 | an empty first message does not end a pre-seeded stream, which makes a difference exactly when bytes follow |
| `Stream.Reader.Read` | service/verify.go:220-227 | any reader, one that returns bytes together with its end or the stream reader: the next bytes, and the end only after all of them |
| `Stream.ReadFromStream` | service/verify.go:211-239 | for any reader and any buffer size: the delivered bytes in order in non-empty messages, then one empty message; on failure or cancellation a prefix and no empty message |
| `Stream.EmptyMessageEnds` | service/stream.go:24-55 | an empty message ends the stream where it stands, whatever follows; sending it is as good as closing |
| `Stream.AllDeliveredIff` | service/stream.go:24-55 | all received bytes are delivered exactly when only empty messages follow the first empty one |
| `Stream.Relay` | service/verify.go:211-239 | end to end, for every input and all chunk and buffer sizes: exactly the input bytes in order, then exactly one empty message and none earlier; a broken input ends in an error after all its bytes |
| `Stream.WritesArePlain` | service/encrypt.go:282-289 | the writes made for the requests concatenate to the requests' data |
| `Stream.PackData` | service/encrypt.go:282-299 | one request's data is written and the buffer sent; nothing is lost or sent twice |
| `Stream.PackStream` | service/encrypt.go:232-309 | the loop of `EncryptStream`, and of `SignStream` (service/sign.go:81-168): sends the header, what each write puts out and the closing bytes, in order, never an empty message; succeeds exactly on sound streams, where only the first request carries options; crashes exactly when the stream ends before its first request |
| `KeyList.SortIsOrder` | service/keys.go:76-105 | ascending the comparison is the intended order, descending its strict part, for every field and with or without users |
| `KeyList.OrderTotal` | service/keys.go:76-105 | the order is total |
| `KeyList.OrderTransitive` | service/keys.go:76-105 | the order is transitive across fields and nil users |
| `KeyList.AscendingIsPreorder` | service/keys.go:76-105 | ascending the comparison is reflexive, total and transitive, and its negation is transitive |
| `KeyList.DescendingIsStrictWeak` | service/keys.go:76-105 | descending it is a strict weak order |
| `KeyList.NeighboursSuffice` | service/keys.go:70-72 | a list is ordered as a whole if and only if no two neighbours are the wrong way round by this comparison |
| `KeyList.KeptCount` | service/keys.go:49-62 | a key is kept as often as a stored key of a listed type shows it and it matches |
| `KeyList.Sort` | service/keys.go:70-72 | in-place sorting with this comparison orders the list and permutes it |
| `KeyList.FilterKeys` | service/keys.go:49-74 | lists exactly the keys whose stored type is asked for, or any, and whose id or user's id starts with the query, each as often as it is stored, ordered by id, by user name with keys without a user last, or by type and then user; the first conversion error, then an unknown sort field, are reported |

## Left out

- EventWriter.Firestore.WriteAll: requires a non-empty chunk, because `EventsAdd` never passes an empty one.
- Stream.ReadFrom: requires a chunk size above 0; with 0 the program would read for ever, and all callers pass 1 MiB.
- KeyList.Sort: insertion by neighbouring swaps, which is what the library does with short lists; that its strategies for longer lists end in order although the ascending comparison is reflexive is not proved.
- ServiceCalls.Service.UnlockService: does not model `updateAllKeys` on a new database, whose errors are only logged.
- EventRuns.EventsAddIsReachable: other writers are the system's clients, so it covers networks that their steps can make; the contracts of `EventWriter` cover all networks the counter document accepts.
- SigchainRuns.PushIsReachable: no other call replaces or removes the local chain of the same device while this one runs; `Replication` itself allows that.
- The revoked sequence number of a revoke: the library's check of it is not modelled.
- 64-bit wrap-around of indices and counters: numbers are unbounded.
- Aliasing of the document maps a caller passes to `EventsAdd`: the documents are distinct values in an array.
- Timestamps and other metadata of stored documents, and the values' types beyond strings.
- The key server's size, count and duplicate-user checks appear only as refusals; its change feed and tasks are not modelled.
- The `keys.Sigchain` and `dstore.Path` libraries are not part of this model; their checks (next number, right link) and normalization (split at slashes, drop empty components) are taken as their callers use them.
- One key per replication model; `Pull`, `updateAllKeys` and `checkKeys` only repeat single-key updates over a list. Search indexes, proxies and user verification are not modelled.
- Storing a chain locally is one step; a save torn half-way is not modelled.
- `AuthSetup`, `AuthProvision`, `AuthReset`, password changes, FIDO2 devices and key derivation.
- `RuntimeStatus`'s own goroutine and `VaultSync`, which call `checkKeys` outside `checkMtx`.
- A vault whose unlock fails half-way: a failed unlock leaves it as it was.
- Data races on the token map: each operation on it is atomic.
- Reopening the store with another path or another key.
- Firestore's `Where` option, and its own `Create`, `Set` and `Delete`.
- Round trips of saltpack, msgpack and encryption, gRPC wiring, command-line code, logging and process control.
